/** Names, URLs and comparisons shared by the other modules. */
module Basics {

  /** A string that is only compared. */
  datatype Name = Name(text: string)

  datatype Url = Url(text: string)

  function Min(a: int, b: int): int {
    if a < b then a else b
  }

  function Max(a: int, b: int): int {
    if a < b then b else a
  }

  function Lesser(x: real, y: real): real {
    if x <= y then x else y
  }

  function Greater(x: real, y: real): real {
    if x <= y then y else x
  }
}
