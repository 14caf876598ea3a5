/** The URL-safe base64 encoding without padding (sections 3.2 and 5 of RFC 4648) and
    the decoder that reads it back, one character at a time. */
module Base64Url {
  import opened Wrappers

  type Byte = b: int | 0 <= b < 256

  type Sextet = v: int | 0 <= v < 64

  // ----- the alphabet -----

  function Letter(v: Sextet): char {
    if v < 26 then ('A' as int + v) as char
    else if v < 52 then ('a' as int + v - 26) as char
    else if v < 62 then ('0' as int + v - 52) as char
    else if v == 62 then '-'
    else '_'
  }

  datatype Symbol = Six(v: Sextet) | Pad | Other

  /** What a character is to the decoder; the standard alphabet's two last letters pass
      for the URL-safe ones. */
  function Classify(c: char): Symbol {
    if 'A' <= c <= 'Z' then Six(c as int - 'A' as int)
    else if 'a' <= c <= 'z' then Six(c as int - 'a' as int + 26)
    else if '0' <= c <= '9' then Six(c as int - '0' as int + 52)
    else if c == '-' || c == '+' then Six(62)
    else if c == '_' || c == '/' then Six(63)
    else if c == '=' then Pad
    else Other
  }

  function Spell(vs: seq<Sextet>): (s: string)
    ensures |s| == |vs|
  {
    seq(|vs|, i requires 0 <= i < |vs| => Letter(vs[i]))
  }

  function Symbols(s: string): (r: seq<Symbol>)
    ensures |r| == |s|
  {
    seq(|s|, i requires 0 <= i < |s| => Classify(s[i]))
  }

  function Sixes(vs: seq<Sextet>): (r: seq<Symbol>)
    ensures |r| == |vs|
  {
    seq(|vs|, i requires 0 <= i < |vs| => Six(vs[i]))
  }

  lemma SymbolsSpell(vs: seq<Sextet>)
    ensures Symbols(Spell(vs)) == Sixes(vs)
  {
    forall i | 0 <= i < |vs| ensures Classify(Letter(vs[i])) == Six(vs[i]) {
      LetterClass(vs[i]);
    }
  }

  lemma LetterClass(v: Sextet)
    ensures Classify(Letter(v)) == Six(v)
  {
  }

  lemma SymbolsConcat(s: string, t: string)
    ensures Symbols(s + t) == Symbols(s) + Symbols(t)
  {
  }

  // ----- encoding -----

  /** Number of characters that n bytes take. */
  function Size(n: nat): nat {
    if n == 0 then 0 else if n == 1 then 2 else if n == 2 then 3 else 4 + Size(n - 3)
  }

  function Sextets(bs: seq<Byte>): (vs: seq<Sextet>)
    ensures |vs| == Size(|bs|)
  {
    if bs == [] then []
    else if |bs| == 1 then [First(bs[0]), Second(bs[0], 0)]
    else if |bs| == 2 then [First(bs[0]), Second(bs[0], bs[1]), Third(bs[1], 0)]
    else [First(bs[0]), Second(bs[0], bs[1]), Third(bs[1], bs[2]), Fourth(bs[2])] + Sextets(bs[3..])
  }

  function First(x: Byte): Sextet { x / 4 }

  function Second(x: Byte, y: Byte): Sextet { x % 4 * 16 + y / 16 }

  function Third(y: Byte, z: Byte): Sextet { y % 16 * 4 + z / 64 }

  function Fourth(z: Byte): Sextet { z % 64 }

  function Encode(bs: seq<Byte>): (s: string)
    ensures |s| == Size(|bs|)
  {
    Spell(Sextets(bs))
  }

  // ----- decoding -----

  /** The byte that two sextets share, as an unsigned eight-bit value. */
  function Join1(a: int, b: int): Byte { (a * 4 + b / 16) % 256 }

  function Join2(b: int, c: int): Byte { (b % 16 * 16 + c / 4) % 256 }

  function Join3(c: int, d: int): Byte { (c % 4 * 64 + d) % 256 }

  /** The decoder between two characters: how many of a quad it has read, the last
      sextet of it, the padding seen in a row, the bytes written, and whether padding
      has ended the input. */
  datatype Reader = Reader(quad: int, last: int, pads: nat, out: seq<Byte>, done: bool)

  function Read(r: Reader, x: Symbol): Reader {
    if r.done then r
    else
      match x
      case Other => r
      case Pad =>
        if r.quad < 2 then r
        else if r.quad + r.pads + 1 >= 4 then r.(done := true)
        else r.(pads := r.pads + 1)
      case Six(v) =>
        if r.quad == 0 then Reader(1, v, 0, r.out, false)
        else if r.quad == 1 then Reader(2, v, 0, r.out + [Join1(r.last, v)], false)
        else if r.quad == 2 then Reader(3, v, 0, r.out + [Join2(r.last, v)], false)
        else Reader(0, 0, 0, r.out + [Join3(r.last, v)], false)
  }

  function ReadAll(r: Reader, xs: seq<Symbol>): Reader
    decreases xs
  {
    if xs == [] then r else ReadAll(Read(r, xs[0]), xs[1..])
  }

  /** Between quads, with `out` written. */
  function Between(out: seq<Byte>): Reader {
    Reader(0, 0, 0, out, false)
  }

  /** The padding that completes the last quad of n characters. */
  function Padding(n: nat): (p: string)
    ensures |p| == (4 - n % 4) % 4
  {
    if n % 4 == 0 then "" else if n % 4 == 1 then "===" else if n % 4 == 2 then "==" else "="
  }

  /** Decode after restoring the padding.  Characters outside the alphabet are skipped. */
  function Decode(s: string): Option<seq<Byte>> {
    var r := ReadAll(Between([]), Symbols(s + Padding(|s|)));
    if r.done || r.quad == 0 then Some(r.out) else None
  }

  // ----- what an encoding is -----

  const UPPER := "ABCDEFGHIJKLMNOPQRSTUVWXYZ"
  const LOWER := "abcdefghijklmnopqrstuvwxyz"
  const DIGITS := "0123456789"
  const ALPHABET := UPPER + LOWER + DIGITS + "-_"

  lemma UpperAt(v: nat)
    requires v < 26
    ensures UPPER[v] == ('A' as int + v) as char
  {
  }

  lemma LowerAt(v: nat)
    requires v < 26
    ensures LOWER[v] == ('a' as int + v) as char
  {
  }

  lemma DigitAt(v: nat)
    requires v < 10
    ensures DIGITS[v] == ('0' as int + v) as char
  {
  }

  lemma LetterOf(v: Sextet)
    ensures Letter(v) == ALPHABET[v]
  {
    if v < 26 {
      UpperAt(v);
    } else if v < 52 {
      LowerAt(v - 26);
    } else if v < 62 {
      DigitAt(v - 52);
    }
  }

  /** The number with these digits. */
  function Number(digits: seq<int>, base: int): int {
    if digits == [] then 0 else Number(digits[..|digits| - 1], base) * base + digits[|digits| - 1]
  }

  lemma NumberOfTwo(a: int, b: int, base: int)
    ensures Number([a], base) == a && Number([a, b], base) == a * base + b
  {
    assert [a, b][..1] == [a] && [a][..0] == [];
  }

  lemma NumberOfFour(a: int, b: int, c: int, d: int, base: int)
    ensures Number([a, b, c], base) == (a * base + b) * base + c
    ensures Number([a, b, c, d], base) == ((a * base + b) * base + c) * base + d
  {
    NumberOfTwo(a, b, base);
    assert [a, b, c][..2] == [a, b] && [a, b, c, d][..3] == [a, b, c];
  }

  lemma Grouped(x: Byte, y: Byte, z: Byte)
    ensures Number([First(x), Second(x, y), Third(y, z), Fourth(z)], 64) == Number([x, y, z], 256)
    ensures Number([First(x), Second(x, 0)], 64) == 16 * Number([x], 256)
    ensures Number([First(x), Second(x, y), Third(y, 0)], 64) == 4 * Number([x, y], 256)
  {
    NumberOfTwo(First(x), Second(x, 0), 64);
    NumberOfTwo(x, y, 256);
    NumberOfFour(First(x), Second(x, y), Third(y, 0), 0, 64);
    NumberOfFour(First(x), Second(x, y), Third(y, z), Fourth(z), 64);
    NumberOfFour(x, y, z, 0, 256);
  }

  /** Four sextets have the bits of three bytes, and those of what is left over are filled
      up with zeros (section 4 of RFC 4648). */
  ghost predicate SameBits(bs: seq<Byte>, vs: seq<Sextet>)
    decreases |bs|
  {
    if bs == [] then vs == []
    else if |bs| == 1 then |vs| == 2 && Number([vs[0], vs[1]], 64) == 16 * Number([bs[0]], 256)
    else if |bs| == 2 then |vs| == 3 && Number([vs[0], vs[1], vs[2]], 64) == 4 * Number([bs[0], bs[1]], 256)
    else
      && |vs| >= 4 && SameBits(bs[3..], vs[4..])
      && Number([vs[0], vs[1], vs[2], vs[3]], 64) == Number([bs[0], bs[1], bs[2]], 256)
  }

  lemma {:induction false} SextetsBits(bs: seq<Byte>)
    ensures SameBits(bs, Sextets(bs))
    decreases |bs|
  {
    if |bs| == 1 {
      Grouped(bs[0], 0, 0);
    } else if |bs| == 2 {
      Grouped(bs[0], bs[1], 0);
    } else if |bs| >= 3 {
      Grouped(bs[0], bs[1], bs[2]);
      SextetsBits(bs[3..]);
      assert Sextets(bs)[4..] == Sextets(bs[3..]);
    }
  }

  /** An encoding spells the bits of its bytes in the URL-safe alphabet. */
  lemma EncodesBits(bs: seq<Byte>)
    ensures exists vs: seq<Sextet> :: SameBits(bs, vs) && Spells(Encode(bs), vs)
  {
    SextetsBits(bs);
    forall i | 0 <= i < |Sextets(bs)| ensures Encode(bs)[i] == ALPHABET[Sextets(bs)[i]] {
      LetterOf(Sextets(bs)[i]);
    }
    assert Spells(Encode(bs), Sextets(bs));
  }

  ghost predicate Spells(s: string, vs: seq<Sextet>) {
    |s| == |vs| && forall i :: 0 <= i < |vs| ==> s[i] == ALPHABET[vs[i]]
  }

  // ----- decoding undoes encoding -----

  lemma JoinedFirst(x: Byte, y: Byte)
    ensures Join1(First(x), Second(x, y)) == x
  {
    Shared(x % 4, 16, y / 16);
    assert First(x) * 4 + Second(x, y) / 16 == x;
  }

  lemma JoinedSecond(x: Byte, y: Byte, z: Byte)
    ensures Join2(Second(x, y), Third(y, z)) == y
  {
    Shared(x % 4, 16, y / 16);
    Shared(y % 16, 4, z / 64);
    assert Second(x, y) % 16 * 16 + Third(y, z) / 4 == y;
  }

  lemma JoinedThird(y: Byte, z: Byte)
    ensures Join3(Third(y, z), Fourth(z)) == z
  {
    Shared(y % 16, 4, z / 64);
    assert Third(y, z) % 4 * 64 + Fourth(z) == z;
  }

  /** The bits that a quad splits, joined again. */
  lemma Joined(x: Byte, y: Byte, z: Byte)
    ensures Join1(First(x), Second(x, y)) == x
    ensures Join2(Second(x, y), Third(y, z)) == y
    ensures Join3(Third(y, z), Fourth(z)) == z
  {
    JoinedFirst(x, y);
    JoinedSecond(x, y, z);
    JoinedThird(y, z);
  }

  /** The two parts of a sextet that holds bits of two bytes. */
  lemma Shared(high: nat, base: nat, low: nat)
    requires base == 4 || base == 16
    requires low < base
    ensures (high * base + low) / base == high && (high * base + low) % base == low
  {
  }

  lemma {:induction false} ReadInTwo(r: Reader, xs: seq<Symbol>, ys: seq<Symbol>)
    ensures ReadAll(r, xs + ys) == ReadAll(ReadAll(r, xs), ys)
    decreases xs
  {
    if xs == [] {
      assert xs + ys == ys;
    } else {
      assert (xs + ys)[1..] == xs[1..] + ys;
      ReadInTwo(Read(r, xs[0]), xs[1..], ys);
    }
  }

  lemma ReadTwo(r: Reader, a: Symbol, b: Symbol)
    ensures ReadAll(r, [a, b]) == Read(Read(r, a), b)
  {
    assert [a, b][1..] == [b] && [b][1..] == [];
    assert ReadAll(Read(r, a), [b]) == ReadAll(Read(Read(r, a), b), []);
  }

  /** The reader after some whole quads and the first sextets of one. */
  lemma ReadGroup(out: seq<Byte>, a: Sextet, b: Sextet, c: Sextet, d: Sextet)
    ensures var r2 := ReadAll(Between(out), [Six(a), Six(b)]);
      && r2 == Reader(2, b, 0, out + [Join1(a, b)], false)
      && ReadAll(r2, [Six(c)]) == Reader(3, c, 0, out + [Join1(a, b)] + [Join2(b, c)], false)
      && ReadAll(r2, [Six(c), Six(d)]) == Between(out + [Join1(a, b)] + [Join2(b, c)] + [Join3(c, d)])
  {
    ReadTwo(Between(out), Six(a), Six(b));
    var r2 := Reader(2, b, 0, out + [Join1(a, b)], false);
    ReadTwo(r2, Six(c), Six(d));
    assert ReadAll(r2, [Six(c)]) == ReadAll(Read(r2, Six(c)), []);
  }

  /** The reader stands in a quad as n bytes' worth of sextets leave it. */
  ghost predicate Stands(r: Reader, out: seq<Byte>, n: nat) {
    !r.done && r.pads == 0 && r.out == out && r.quad == Size(n) % 4 && r.quad != 1
  }

  lemma ReadSingle(out: seq<Byte>, x: Byte, y: Byte)
    ensures ReadAll(Between(out), Sixes([First(x), Second(x, y)])) == Reader(2, Second(x, y), 0, out + [x], false)
  {
    var a, b := First(x), Second(x, y);
    Joined(x, y, y);
    assert Sixes([a, b]) == [Six(a), Six(b)];
    ReadTwo(Between(out), Six(a), Six(b));
  }

  lemma ReadPair(out: seq<Byte>, x: Byte, y: Byte, z: Byte)
    ensures ReadAll(Between(out), Sixes([First(x), Second(x, y), Third(y, z)])) ==
      Reader(3, Third(y, z), 0, out + [x] + [y], false)
  {
    var a, b, c := First(x), Second(x, y), Third(y, z);
    assert Sixes([a, b, c]) == [Six(a), Six(b)] + [Six(c)];
    ReadInTwo(Between(out), [Six(a), Six(b)], [Six(c)]);
    ReadGroup(out, a, b, c, c);
    Joined(x, y, z);
  }

  lemma ReadTriple(out: seq<Byte>, x: Byte, y: Byte, z: Byte, rest: seq<Sextet>)
    ensures ReadAll(Between(out), Sixes([First(x), Second(x, y), Third(y, z), Fourth(z)] + rest))
      == ReadAll(Between(out + [x] + [y] + [z]), Sixes(rest))
  {
    var a, b, c, d := First(x), Second(x, y), Third(y, z), Fourth(z);
    assert Sixes([a, b, c, d] + rest) == [Six(a), Six(b)] + ([Six(c), Six(d)] + Sixes(rest));
    ReadInTwo(Between(out), [Six(a), Six(b)], [Six(c), Six(d)] + Sixes(rest));
    ReadGroup(out, a, b, c, d);
    ReadInTwo(ReadAll(Between(out), [Six(a), Six(b)]), [Six(c), Six(d)], Sixes(rest));
    Joined(x, y, z);
  }

  lemma SizeStep(n: nat)
    ensures Size(n + 3) % 4 == Size(n) % 4
    ensures Size(1) == 2 && Size(2) == 3
  {
  }

  lemma {:induction false} ReadSextets(out: seq<Byte>, bs: seq<Byte>)
    ensures Stands(ReadAll(Between(out), Sixes(Sextets(bs))), out + bs, |bs|)
    decreases bs
  {
    SizeStep(if |bs| >= 3 then |bs| - 3 else 0);
    if bs == [] {
      assert out + bs == out;
    } else if |bs| == 1 {
      ReadSingle(out, bs[0], 0);
      assert out + [bs[0]] == out + bs;
    } else if |bs| == 2 {
      ReadPair(out, bs[0], bs[1], 0);
      assert out + [bs[0]] + [bs[1]] == out + bs;
    } else {
      var out' := out + [bs[0]] + [bs[1]] + [bs[2]];
      ReadTriple(out, bs[0], bs[1], bs[2], Sextets(bs[3..]));
      ReadSextets(out', bs[3..]);
      assert out' + bs[3..] == out + bs;
    }
  }

  lemma ReadPadding(r: Reader, out: seq<Byte>, n: nat, m: nat)
    requires Stands(r, out, n) && m % 4 == r.quad
    ensures var r' := ReadAll(r, Symbols(Padding(m))); (r'.done || r'.quad == 0) && r'.out == out
  {
    if r.quad == 2 {
      assert Symbols("==") == [Pad, Pad];
      ReadTwo(r, Pad, Pad);
    } else if r.quad == 3 {
      assert Symbols("=") == [Pad];
      assert ReadAll(r, [Pad]) == ReadAll(Read(r, Pad), []);
    } else {
      assert Symbols("") == [];
    }
  }

  /** A text after which the reader stands where the bytes bs leave it decodes to them. */
  lemma StandsDecodes(s: string, bs: seq<Byte>)
    requires Stands(ReadAll(Between([]), Symbols(s)), bs, |bs|)
    requires |s| % 4 == ReadAll(Between([]), Symbols(s)).quad
    ensures Decode(s) == Some(bs)
  {
    var r := ReadAll(Between([]), Symbols(s));
    SymbolsConcat(s, Padding(|s|));
    ReadInTwo(Between([]), Symbols(s), Symbols(Padding(|s|)));
    ReadPadding(r, bs, |bs|, |s|);
  }

  lemma EncodedStands(bs: seq<Byte>)
    ensures var r := ReadAll(Between([]), Symbols(Encode(bs))); Stands(r, bs, |bs|) && |Encode(bs)| % 4 == r.quad
  {
    SymbolsSpell(Sextets(bs));
    ReadSextets([], bs);
    assert [] + bs == bs;
  }

  /** Decoding undoes encoding, for every byte string. */
  lemma DecodeEncode(bs: seq<Byte>)
    ensures Decode(Encode(bs)) == Some(bs)
  {
    EncodedStands(bs);
    StandsDecodes(Encode(bs), bs);
  }

  lemma {:induction false} ReadJunk(r: Reader, xs: seq<Symbol>)
    requires forall i :: 0 <= i < |xs| ==> xs[i] == Other
    ensures ReadAll(r, xs) == r
    decreases xs
  {
    if xs != [] {
      assert Read(r, xs[0]) == r;
      ReadJunk(r, xs[1..]);
    }
  }

  lemma SameRest(n: nat, m: nat)
    requires m % 4 == 0
    ensures (n + m) % 4 == n % 4
  {
  }

  /** Characters outside the alphabet, by fours, pass unnoticed after a token. */
  lemma JunkIgnored(bs: seq<Byte>, junk: string)
    requires |junk| % 4 == 0 && forall i :: 0 <= i < |junk| ==> Classify(junk[i]) == Other
    ensures Decode(Encode(bs) + junk) == Some(bs)
  {
    var s := Encode(bs);
    EncodedStands(bs);
    SymbolsConcat(s, junk);
    var r := ReadAll(Between([]), Symbols(s));
    ReadInTwo(Between([]), Symbols(s), Symbols(junk));
    ReadJunk(r, Symbols(junk));
    SameRest(|s|, |junk|);
    StandsDecodes(s + junk, bs);
  }

  // ----- what does not decode -----

  ghost predicate AllSix(s: string) {
    forall i :: 0 <= i < |s| ==> Classify(s[i]).Six?
  }

  /** The reader after letters: so many into a quad. */
  ghost predicate Reading(r: Reader, n: nat) {
    !r.done && r.pads == 0 && r.quad == n % 4
  }

  lemma {:induction false} ReadLetters(s: string)
    requires AllSix(s)
    ensures Reading(ReadAll(Between([]), Symbols(s)), |s|)
    decreases |s|
  {
    if s == "" {
    } else {
      var n := |s| - 1;
      ReadLetters(s[..n]);
      SymbolsConcat(s[..n], [s[n]]);
      assert s[..n] + [s[n]] == s && Symbols([s[n]]) == [Classify(s[n])];
      ReadInTwo(Between([]), Symbols(s[..n]), [Classify(s[n])]);
      var r := ReadAll(Between([]), Symbols(s[..n]));
      assert ReadAll(r, [Classify(s[n])]) == ReadAll(Read(r, Classify(s[n])), []);
    }
  }

  /** Padding ends a quad of two or three letters when it fills it up. */
  lemma {:induction false} ReadPads(r: Reader, k: nat, n: nat)
    requires !r.done && r.quad == n % 4 && r.pads + k <= 4 - n % 4 && r.quad + r.pads < 4 && n % 4 >= 2
    ensures var r' := ReadAll(r, Pads(k)); r'.done <==> k > 0 && n % 4 + r.pads + k >= 4
    ensures ReadAll(r, Pads(k)).quad == r.quad
    decreases k
  {
    if k > 0 {
      assert Pads(k)[0] == Pad && Pads(k)[1..] == Pads(k - 1);
      if !Read(r, Pad).done {
        ReadPads(Read(r, Pad), k - 1, n);
      } else {
        assert k == 1 && Pads(0) == [];
      }
    }
  }

  function Pads(k: nat): (xs: seq<Symbol>)
    ensures |xs| == k
  {
    seq(k, _ => Pad)
  }

  lemma PaddingPads(m: nat)
    ensures Symbols(Padding(m)) == Pads(|Padding(m)|)
  {
  }

  /** Padding before the second letter of a quad is passed over. */
  lemma {:induction false} PadsPassed(r: Reader, k: nat)
    requires !r.done && r.quad < 2
    ensures ReadAll(r, Pads(k)) == r
    decreases k
  {
    if k > 0 {
      assert Pads(k)[0] == Pad && Pads(k)[1..] == Pads(k - 1);
      PadsPassed(r, k - 1);
    }
  }

  /** A text of letters decodes unless there is one too many. */
  lemma LettersDecodeIff(s: string)
    requires AllSix(s)
    ensures Decode(s).Some? <==> |s| % 4 != 1
  {
    var r := ReadAll(Between([]), Symbols(s));
    ReadLetters(s);
    SymbolsConcat(s, Padding(|s|));
    ReadInTwo(Between([]), Symbols(s), Symbols(Padding(|s|)));
    PaddingPads(|s|);
    if |s| % 4 >= 2 {
      ReadPads(r, |Padding(|s|)|, |s|);
    } else {
      PadsPassed(r, |Padding(|s|)|);
    }
  }

  /** One padding character after two letters of a quad does not end it, if a letter follows. */
  lemma LonePadPassed(s: string, c: char, more: string)
    requires AllSix(s) && |s| % 4 == 2 && Classify(c).Six?
    ensures ReadAll(Between([]), Symbols(s + "=" + [c] + more)) == ReadAll(Between([]), Symbols(s + [c] + more))
  {
    var r, x := ReadAll(Between([]), Symbols(s)), Classify(c);
    ReadLetters(s);
    SymbolsConcat(s + "=" + [c], more);
    SymbolsConcat(s + [c], more);
    assert Symbols(s + "=" + [c]) == Symbols(s) + [Pad, x] && Symbols(s + [c]) == Symbols(s) + [x];
    ReadInTwo(Between([]), Symbols(s), [Pad, x]);
    ReadInTwo(Between([]), Symbols(s), [x]);
    ReadTwo(r, Pad, x);
    assert ReadAll(r, [x]) == ReadAll(Read(r, x), []);
    ReadInTwo(Between([]), Symbols(s) + [Pad, x], Symbols(more));
    ReadInTwo(Between([]), Symbols(s) + [x], Symbols(more));
  }

  lemma {:induction false} DoneIgnores(r: Reader, xs: seq<Symbol>)
    requires r.done
    ensures ReadAll(r, xs) == r
    decreases |xs|
  {
    if xs != [] {
      DoneIgnores(r, xs[1..]);
    }
  }

  /** What follows the padding that completes an encoding is not looked at. */
  lemma AfterPadding(bs: seq<Byte>, junk: string)
    requires |Encode(bs)| % 4 != 0
    ensures Decode(Encode(bs) + Padding(|Encode(bs)|) + junk) == Some(bs)
  {
    var s, p := Encode(bs), Padding(|Encode(bs)|);
    var more := junk + Padding(|s + p + junk|);
    EncodedStands(bs);
    var r := ReadAll(Between([]), Symbols(s));
    ReadPadding(r, bs, |bs|, |s|);
    PaddingPads(|s|);
    SymbolsLetters(bs);
    ReadPads(r, |p|, |s|);
    assert s + p + junk + Padding(|s + p + junk|) == (s + p) + more;
    SymbolsConcat(s + p, more);
    SymbolsConcat(s, p);
    ReadInTwo(Between([]), Symbols(s) + Symbols(p), Symbols(more));
    ReadInTwo(Between([]), Symbols(s), Symbols(p));
    DoneIgnores(ReadAll(r, Symbols(p)), Symbols(more));
  }

  lemma SymbolsLetters(bs: seq<Byte>)
    ensures AllSix(Encode(bs))
  {
    forall i | 0 <= i < |Encode(bs)| ensures Classify(Encode(bs)[i]).Six? {
      LetterClass(Sextets(bs)[i]);
    }
  }

  // ----- strict decoding -----

  function TrailingPads(s: string): (n: nat)
    ensures n <= |s|
  {
    if s == [] || s[|s| - 1] != '=' then 0 else 1 + TrailingPads(s[..|s| - 1])
  }

  /** Letters only, then, once the padding is restored, exactly the padding they need. */
  predicate WellFormed(s: string) {
    var n := |s| - TrailingPads(s);
    && (forall i :: 0 <= i < n ==> Classify(s[i]).Six?)
    && n % 4 != 1 && TrailingPads(s) + |Padding(|s|)| == |Padding(n)|
  }

  function DecodeStrictly(s: string): Option<seq<Byte>> {
    if WellFormed(s) then Decode(s) else None
  }

  lemma {:induction false} PadsCounted(s: string, n: nat)
    requires n <= |s| && (forall i :: n <= i < |s| ==> s[i] == '=') && (n > 0 ==> s[n - 1] != '=')
    ensures TrailingPads(s) == |s| - n
    decreases |s|
  {
    if n < |s| {
      PadsCounted(s[..|s| - 1], n);
    }
  }

  /** n letters and k characters of padding, more of it added, are read as one. */
  lemma ReadPadded(s: string, n: nat)
    requires n <= |s| && AllSix(s[..n]) && forall i :: n <= i < |s| ==> s[i] == '='
    requires n % 4 != 1 && |s| - n + |Padding(|s|)| == |Padding(n)|
    ensures Decode(s).Some?
  {
    var k, r := |s| - n + |Padding(|s|)|, ReadAll(Between([]), Symbols(s[..n]));
    ReadLetters(s[..n]);
    SymbolsConcat(s, Padding(|s|));
    PaddingPads(|s|);
    assert Symbols(s) == Symbols(s[..n]) + Pads(|s| - n);
    assert Symbols(s + Padding(|s|)) == Symbols(s[..n]) + Pads(k);
    ReadInTwo(Between([]), Symbols(s[..n]), Pads(k));
    if n % 4 >= 2 {
      ReadPads(r, k, n);
    } else {
      PadsPassed(r, k);
    }
  }

  lemma PaddingFits(n: nat, m: nat)
    requires n <= m
    ensures m - n + |Padding(m)| == |Padding(n)| <==> m <= 4 * ((n + 3) / 4)
  {
  }

  /** n letters and padding after them are decoded strictly just when there is no letter too
      many, and no more padding than it takes. */
  lemma StrictlyIff(s: string, n: nat)
    requires n <= |s| && AllSix(s[..n]) && forall i :: n <= i < |s| ==> s[i] == '='
    ensures DecodeStrictly(s).Some? <==> n % 4 != 1 && |s| <= 4 * ((n + 3) / 4)
  {
    assert n > 0 ==> s[..n][n - 1] == s[n - 1];
    PadsCounted(s, n);
    PaddingFits(n, |s|);
    assert forall i :: 0 <= i < n ==> s[..n][i] == s[i];
    if WellFormed(s) {
      ReadPadded(s, n);
    }
  }

  lemma {:induction false} PadsTrail(s: string, i: nat)
    requires |s| - TrailingPads(s) <= i < |s|
    ensures s[i] == '='
  {
    if i < |s| - 1 {
      PadsTrail(s[..|s| - 1], i);
    }
  }

  /** A character that is neither a letter nor padding is not decoded strictly. */
  lemma ForeignMalformed(s: string, i: nat)
    requires i < |s| && Classify(s[i]) == Other
    ensures DecodeStrictly(s) == None
  {
    if i >= |s| - TrailingPads(s) {
      PadsTrail(s, i);
    }
  }

  /** Nor is a text of letters with one too many. */
  lemma LoneMalformed(s: string)
    requires |s| % 4 == 1 && s[|s| - 1] != '='
    ensures DecodeStrictly(s) == None
  {
  }

  lemma SpelledWellFormed(vs: seq<Sextet>)
    requires |vs| % 4 != 1
    ensures WellFormed(Spell(vs))
  {
    var s := Spell(vs);
    forall i | 0 <= i < |s| ensures Classify(s[i]).Six? && s[i] != '=' {
      LetterClass(vs[i]);
    }
  }

  lemma StrictDecodeEncode(bs: seq<Byte>)
    ensures DecodeStrictly(Encode(bs)) == Some(bs)
  {
    EncodedStands(bs);
    SpelledWellFormed(Sextets(bs));
    DecodeEncode(bs);
  }

  // ----- canonical texts -----

  predicate IsLetter(c: char) {
    Classify(c).Six? && c == Letter(Value(c))
  }

  /** No bits are left over in the last sextet. */
  predicate Trimmed(vs: seq<Sextet>) {
    && |vs| % 4 != 1
    && (|vs| % 4 == 2 ==> vs[|vs| - 1] % 16 == 0)
    && (|vs| % 4 == 3 ==> vs[|vs| - 1] % 4 == 0)
  }

  function Value(c: char): Sextet {
    if Classify(c).Six? then Classify(c).v else 0
  }

  function Values(s: string): (vs: seq<Sextet>)
    ensures |vs| == |s|
  {
    seq(|s|, i requires 0 <= i < |s| => Value(s[i]))
  }

  /** Letters of the URL-safe alphabet only, as many as some number of bytes takes, the
      bits left over in the last of them zero. */
  predicate Canonical(s: string) {
    (forall i :: 0 <= i < |s| ==> IsLetter(s[i])) && Trimmed(Values(s))
  }

  function Bytes(vs: seq<Sextet>): seq<Byte>
    requires |vs| % 4 != 1
  {
    if vs == [] then []
    else if |vs| == 2 then [Join1(vs[0], vs[1])]
    else if |vs| == 3 then [Join1(vs[0], vs[1]), Join2(vs[1], vs[2])]
    else [Join1(vs[0], vs[1]), Join2(vs[1], vs[2]), Join3(vs[2], vs[3])] + Bytes(vs[4..])
  }

  /** The bits that three bytes share out, split again. */
  lemma SplitFirst(a: Sextet, b: Sextet)
    ensures Join1(a, b) == a * 4 + b / 16 && First(Join1(a, b)) == a && Join1(a, b) % 4 == b / 16
  {
    Shared(a, 4, b / 16);
  }

  lemma SplitSecond(b: Sextet, c: Sextet)
    ensures Join2(b, c) / 16 == b % 16 && Join2(b, c) % 16 == c / 4
  {
    assert Join2(b, c) == b % 16 * 16 + c / 4;
    Shared(b % 16, 16, c / 4);
  }

  lemma SplitThird(c: Sextet, d: Sextet)
    ensures Join3(c, d) / 64 == c % 4 && Fourth(Join3(c, d)) == d
  {
    var x := c % 4 * 64 + d;
    assert x / 64 == c % 4 && x % 64 == d && x < 256;
  }

  /** The sextets of three bytes put together from four. */
  ghost predicate Quad(a: Sextet, b: Sextet, c: Sextet, d: Sextet, x: Byte, y: Byte, z: Byte) {
    First(x) == a && Second(x, y) == b && Third(y, z) == c && Fourth(z) == d
  }

  lemma Split(a: Sextet, b: Sextet, c: Sextet, d: Sextet)
    ensures Quad(a, b, c, d, Join1(a, b), Join2(b, c), Join3(c, d))
  {
    SplitFirst(a, b);
    SplitSecond(b, c);
    SplitThird(c, d);
  }

  lemma SplitTwo(a: Sextet, b: Sextet)
    requires b % 16 == 0
    ensures First(Join1(a, b)) == a && Second(Join1(a, b), 0) == b
  {
    SplitFirst(a, b);
  }

  lemma SplitThree(a: Sextet, b: Sextet, c: Sextet)
    requires c % 4 == 0
    ensures First(Join1(a, b)) == a && Second(Join1(a, b), Join2(b, c)) == b && Third(Join2(b, c), 0) == c
  {
    SplitFirst(a, b);
    SplitSecond(b, c);
  }

  lemma SextetsOfQuad(vs: seq<Sextet>, x: Byte, y: Byte, z: Byte, bs: seq<Byte>)
    requires |vs| >= 4 && Quad(vs[0], vs[1], vs[2], vs[3], x, y, z) && Sextets(bs) == vs[4..]
    ensures Sextets([x, y, z] + bs) == vs
  {
    assert ([x, y, z] + bs)[3..] == bs;
    assert vs == [vs[0], vs[1], vs[2], vs[3]] + vs[4..];
  }

  lemma {:induction false} SextetsOfBytes(vs: seq<Sextet>)
    requires Trimmed(vs)
    ensures Sextets(Bytes(vs)) == vs
    decreases |vs|
  {
    if vs == [] {
    } else if |vs| == 2 {
      SplitTwo(vs[0], vs[1]);
    } else if |vs| == 3 {
      SplitThree(vs[0], vs[1], vs[2]);
    } else {
      SextetsOfBytes(vs[4..]);
      Split(vs[0], vs[1], vs[2], vs[3]);
      SextetsOfQuad(vs, Join1(vs[0], vs[1]), Join2(vs[1], vs[2]), Join3(vs[2], vs[3]), Bytes(vs[4..]));
    }
  }

  lemma LastBits(x: Byte)
    ensures Second(x, 0) % 16 == 0 && Third(x, 0) % 4 == 0
  {
    Shared(x % 4, 16, 0);
    Shared(x % 16, 4, 0);
  }

  lemma {:induction false} SextetsTrimmed(bs: seq<Byte>)
    ensures Trimmed(Sextets(bs))
    decreases |bs|
  {
    if |bs| == 1 {
      LastBits(bs[0]);
    } else if |bs| == 2 {
      LastBits(bs[1]);
    } else if |bs| >= 3 {
      SextetsTrimmed(bs[3..]);
      TrimmedLater([First(bs[0]), Second(bs[0], bs[1]), Third(bs[1], bs[2]), Fourth(bs[2])], Sextets(bs[3..]));
    }
  }

  lemma TrimmedLater(quad: seq<Sextet>, vs: seq<Sextet>)
    requires |quad| == 4 && Trimmed(vs)
    ensures Trimmed(quad + vs)
  {
    SameRest(|vs|, 4);
  }

  lemma ValuesSpell(vs: seq<Sextet>)
    ensures forall i :: 0 <= i < |vs| ==> IsLetter(Spell(vs)[i])
    ensures Values(Spell(vs)) == vs
  {
    forall i | 0 <= i < |vs| ensures Classify(Spell(vs)[i]) == Six(vs[i]) {
      LetterClass(vs[i]);
    }
  }

  /** The canonical texts are exactly the encodings ... */
  lemma CanonicalIffEncoded(s: string)
    ensures Canonical(s) <==> exists bs :: Encode(bs) == s
  {
    if Canonical(s) {
      SextetsOfBytes(Values(s));
      assert Spell(Values(s)) == s;
      assert Encode(Bytes(Values(s))) == s;
    }
    if exists bs :: Encode(bs) == s {
      var bs :| Encode(bs) == s;
      SextetsTrimmed(bs);
      ValuesSpell(Sextets(bs));
    }
  }

  /** ... so a text that decodes is the encoding of its bytes if and only if it is
      canonical. */
  lemma DecodedIffCanonical(s: string, bs: seq<Byte>)
    requires Decode(s) == Some(bs)
    ensures Encode(bs) == s <==> Canonical(s)
  {
    CanonicalIffEncoded(s);
    if Canonical(s) {
      var bs' :| Encode(bs') == s;
      DecodeEncode(bs');
    }
  }
}
