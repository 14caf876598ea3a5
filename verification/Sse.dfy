/** The server-sent-event reader of apps/web/lib/use-sse.ts, on decoded text. */
module Sse {
  import opened Wrappers

  const BLANK_LINE := "\n\n"

  predicate StartsBlank(s: string) {
    |s| >= 2 && s[0] == '\n' && s[1] == '\n'
  }

  /** What has been read: the events complete so far and the text left over. */
  datatype Read = Read(events: seq<string>, rest: string)

  function AddBlankLine(r: Read): Read {
    Read([""] + r.events, r.rest)
  }

  function AddChar(c: char, r: Read): Read {
    if r.events == [] then Read([], [c] + r.rest)
    else Read([[c] + r.events[0]] + r.events[1..], r.rest)
  }

  /** `split("\n\n")`, its last piece popped: the separators are the leftmost ones, and do
      not overlap. */
  function Split(s: string): Read {
    if s == "" then Read([], "")
    else if StartsBlank(s) then AddBlankLine(Split(s[2..]))
    else AddChar(s[0], Split(s[1..]))
  }

  // ----- what splitting means -----

  ghost function Join(r: Read): string
    decreases |r.events|
  {
    if r.events == [] then r.rest else r.events[0] + BLANK_LINE + Join(Read(r.events[1..], r.rest))
  }

  lemma JoinAddChar(c: char, r: Read)
    ensures Join(AddChar(c, r)) == [c] + Join(r)
  {
    if r.events != [] {
      var first, more := r.events[0], Join(Read(r.events[1..], r.rest));
      assert AddChar(c, r).events[1..] == r.events[1..];
      assert ([c] + first) + BLANK_LINE + more == [c] + (first + BLANK_LINE + more);
    }
  }

  lemma JoinAddBlankLine(r: Read)
    ensures Join(AddBlankLine(r)) == BLANK_LINE + Join(r)
  {
    assert AddBlankLine(r).events[1..] == r.events;
  }

  lemma {:induction false} SplitJoins(s: string)
    ensures Join(Split(s)) == s
  {
    if s == "" {
    } else if StartsBlank(s) {
      SplitJoins(s[2..]);
      JoinAddBlankLine(Split(s[2..]));
      assert s == BLANK_LINE + s[2..];
    } else {
      SplitJoins(s[1..]);
      JoinAddChar(s[0], Split(s[1..]));
      assert s == [s[0]] + s[1..];
    }
  }

  ghost predicate BlankAt(s: string, i: int) {
    0 <= i < |s| - 1 && s[i] == '\n' && s[i + 1] == '\n'
  }

  ghost predicate HasBlankLine(s: string) {
    exists i :: BlankAt(s, i)
  }

  /** No separator begins inside a piece, nor with the last character of an event. */
  ghost predicate Tight(r: Read) {
    !HasBlankLine(r.rest) && forall i :: 0 <= i < |r.events| ==> !HasBlankLine(r.events[i] + "\n")
  }

  lemma BlankFree(c: char, s: string)
    ensures HasBlankLine([c] + s) <==> StartsBlank([c] + s) || HasBlankLine(s)
  {
    var t := [c] + s;
    if HasBlankLine(t) {
      var i :| BlankAt(t, i);
      assert i > 0 ==> BlankAt(s, i - 1);
    }
    if HasBlankLine(s) {
      var i :| BlankAt(s, i);
      assert BlankAt(t, i + 1);
    }
    assert StartsBlank(t) ==> BlankAt(t, 0);
  }

  /** The text that decides whether a separator begins in the first piece. */
  ghost function Head(r: Read): string {
    if r.events == [] then r.rest else r.events[0] + "\n"
  }

  lemma TightAddChar(c: char, r: Read)
    ensures Tight(AddChar(c, r)) <==> Tight(r) && !StartsBlank([c] + Head(r))
  {
    var r' := AddChar(c, r);
    assert Head(r') == [c] + Head(r);
    BlankFree(c, Head(r));
    if r.events != [] {
      assert forall i :: 0 < i < |r.events| ==> r'.events[i] == r.events[i];
    }
  }

  lemma JoinHead(r: Read)
    ensures Head(r) <= Join(r) && (|Head(r)| <= 1 ==> r.events != [] || Head(r) == Join(r))
  {
  }

  lemma {:induction false} SplitTight(s: string)
    ensures Tight(Split(s))
  {
    if s == "" {
    } else if StartsBlank(s) {
      SplitTight(s[2..]);
    } else {
      SplitTight(s[1..]);
      SplitJoins(s[1..]);
      JoinHead(Split(s[1..]));
      TightAddChar(s[0], Split(s[1..]));
    }
  }

  /** Splitting is the only way of cutting a text at blank lines that leaves it tight. */
  lemma {:induction false} SplitUnique(r: Read)
    requires Tight(r)
    ensures Split(Join(r)) == r
    decreases |Join(r)|
  {
    if r.events != [] && r.events[0] == "" {
      var more := Read(r.events[1..], r.rest);
      assert AddBlankLine(more) == r;
      JoinAddBlankLine(more);
      SplitUnique(more);
      assert (BLANK_LINE + Join(more))[2..] == Join(more);
    } else if r.events != [] || r.rest != "" {
      var more := WithoutFirst(r);
      var c := Head(r)[0];
      JoinAddChar(c, more);
      TightAddChar(c, more);
      JoinHead(more);
      SplitUnique(more);
      assert ([c] + Join(more))[1..] == Join(more);
    }
  }

  ghost function WithoutFirst(r: Read): (more: Read)
    requires if r.events == [] then r.rest != "" else r.events[0] != ""
    ensures r == AddChar(Head(r)[0], more)
  {
    if r.events == [] then
      assert r.rest == [r.rest[0]] + r.rest[1..];
      Read([], r.rest[1..])
    else
      var e := r.events[0];
      assert e == [e[0]] + e[1..] && r.events == [e] + r.events[1..];
      assert ([e[1..]] + r.events[1..])[1..] == r.events[1..];
      Read([e[1..]] + r.events[1..], r.rest)
  }

  // ----- cutting a text into chunks -----

  function Receive(r: Read, chunk: string): Read {
    var more := Split(r.rest + chunk);
    Read(r.events + more.events, more.rest)
  }

  lemma ReceiveAfterChar(c: char, r: Read, chunk: string)
    requires r.events != []
    ensures Receive(AddChar(c, r), chunk) == AddChar(c, Receive(r, chunk))
  {
    var more := Split(r.rest + chunk).events;
    assert (r.events + more)[1..] == r.events[1..] + more;
  }

  lemma ReceiveAfterBlankLine(r: Read, chunk: string)
    ensures Receive(AddBlankLine(r), chunk) == AddBlankLine(Receive(r, chunk))
  {
    var more := Split(r.rest + chunk).events;
    assert ([""] + r.events) + more == [""] + (r.events + more);
  }

  /** Receiving one more chunk reads the text as if it had come in one piece. */
  lemma {:induction false} SplitExtends(s: string, chunk: string)
    ensures Split(s + chunk) == Receive(Split(s), chunk)
  {
    var r := Split(s);
    if r.events == [] {
      SplitJoins(s);
      assert Receive(r, chunk) == Split(s + chunk);
    } else if StartsBlank(s) {
      SplitExtends(s[2..], chunk);
      ReceiveAfterBlankLine(Split(s[2..]), chunk);
      assert (s + chunk)[2..] == s[2..] + chunk;
    } else {
      SplitExtends(s[1..], chunk);
      ReceiveAfterChar(s[0], Split(s[1..]), chunk);
      assert (s + chunk)[1..] == s[1..] + chunk;
    }
  }

  function Joined(chunks: seq<string>): string {
    if chunks == [] then "" else Joined(chunks[..|chunks| - 1]) + chunks[|chunks| - 1]
  }

  function Received(chunks: seq<string>): Read {
    if chunks == [] then Read([], "") else Receive(Received(chunks[..|chunks| - 1]), chunks[|chunks| - 1])
  }

  /** However a text is cut into chunks, inside a separator too, the events read and the
      text left over are those of splitting it whole. */
  lemma {:induction false} ChunkingIrrelevant(chunks: seq<string>)
    ensures Received(chunks) == Split(Joined(chunks))
  {
    if chunks != [] {
      ChunkingIrrelevant(chunks[..|chunks| - 1]);
      SplitExtends(Joined(chunks[..|chunks| - 1]), chunks[|chunks| - 1]);
    }
  }

  // ----- event ids -----

  function Lines(s: string): (lines: seq<string>)
    ensures lines != []
  {
    if s == "" then [""]
    else if s[0] == '\n' then [""] + Lines(s[1..])
    else
      var rest := Lines(s[1..]);
      [[s[0]] + rest[0]] + rest[1..]
  }

  ghost function JoinLines(lines: seq<string>): string
    requires lines != []
  {
    if |lines| == 1 then lines[0] else lines[0] + "\n" + JoinLines(lines[1..])
  }

  /** Lines are the pieces of a text between its newlines. */
  lemma {:induction false} LinesJoin(s: string)
    ensures JoinLines(Lines(s)) == s
    ensures forall i :: 0 <= i < |Lines(s)| ==> '\n' !in Lines(s)[i]
  {
    if s != "" {
      var rest := Lines(s[1..]);
      LinesJoin(s[1..]);
      assert s == [s[0]] + s[1..];
      assert Lines(s)[1..] == if s[0] == '\n' then rest else rest[1..];
      if |rest| > 1 {
        assert [s[0]] + (rest[0] + "\n" + JoinLines(rest[1..])) == ([s[0]] + rest[0]) + "\n" + JoinLines(rest[1..]);
      }
    }
  }

  predicate IsIdLine(line: string) {
    "id: " <= line
  }

  /** The rest of the first line that starts with "id: ". */
  function FirstId(lines: seq<string>): Option<string> {
    if lines == [] then None
    else if IsIdLine(lines[0]) then Some(lines[0][4..])
    else FirstId(lines[1..])
  }

  lemma {:induction false} FirstIdIsFirst(lines: seq<string>, i: nat)
    requires i <= |lines| && forall j :: 0 <= j < i ==> !IsIdLine(lines[j])
    requires i < |lines| ==> IsIdLine(lines[i])
    ensures FirstId(lines) == if i < |lines| then Some(lines[i][4..]) else None
  {
    if i > 0 {
      FirstIdIsFirst(lines[1..], i - 1);
    }
  }

  function EventId(event: string): Option<string> {
    FirstId(Lines(event))
  }

  // ----- ids, spelled out -----

  /** No line of the text starts with "id: ". */
  ghost predicate Nameless(text: string) {
    forall i {:trigger text[i..]} :: 0 <= i < |text| && (i == 0 || text[i - 1] == '\n') ==> !("id: " <= text[i..])
  }

  /** The first line of a text ends at its first newline, if it has one. */
  lemma {:induction false} FirstLine(line: string, tail: string)
    requires '\n' !in line && (tail == "" || tail[0] == '\n')
    ensures Lines(line + tail) == if tail == "" then [line] else [line] + Lines(tail[1..])
    decreases |line|
  {
    if line == "" {
      assert line + tail == tail;
    } else {
      FirstLine(line[1..], tail);
      assert (line + tail)[1..] == line[1..] + tail;
      assert line == [line[0]] + line[1..];
    }
  }

  /** A text is a line, or a line, a newline and more text. */
  lemma {:induction false} CutAtNewline(text: string) returns (line: string, tail: string)
    ensures text == line + tail && '\n' !in line && (tail == "" || tail[0] == '\n')
    decreases |text|
  {
    if text == "" || text[0] == '\n' {
      line, tail := "", text;
    } else {
      var more;
      more, tail := CutAtNewline(text[1..]);
      line := [text[0]] + more;
      assert text == [text[0]] + text[1..];
    }
  }

  lemma NamelessRest(text: string, line: string, tail: string)
    requires Nameless(text) && text == line + tail && tail != "" && tail[0] == '\n'
    ensures Nameless(tail[1..]) && !IsIdLine(line)
  {
    var rest, n := tail[1..], |line| + 1;
    forall i | 0 <= i < |rest| && (i == 0 || rest[i - 1] == '\n') ensures !("id: " <= rest[i..]) {
      assert text[n + i..] == rest[i..];
      assert text[n + i - 1] == if i == 0 then '\n' else rest[i - 1];
    }
    assert text[0..] == text;
  }

  /** A line that names nothing leaves the id to the lines after it. */
  lemma IdAfterLine(line: string, rest: string, more: string)
    requires '\n' !in line && rest != "" && rest[0] == '\n' && !IsIdLine(line)
    ensures EventId(line + (rest + more)) == EventId(rest[1..] + more)
  {
    FirstLine(line, rest + more);
    assert (rest + more)[1..] == rest[1..] + more;
  }

  /** The id of an event is what follows "id: " on the first line that starts so. */
  lemma {:induction false} IdOfEvent(pre: string, v: string, tail: string)
    requires Nameless(pre) && (pre == "" || pre[|pre| - 1] == '\n')
    requires '\n' !in v && (tail == "" || tail[0] == '\n')
    ensures EventId(pre + ("id: " + v + tail)) == Some(v)
    decreases |pre|
  {
    var named := "id: " + v;
    if pre == "" {
      FirstLine(named, tail);
      assert pre + (named + tail) == named + tail;
      assert named[4..] == v;
    } else {
      var line, rest := CutAtNewline(pre);
      NamelessRest(pre, line, rest);
      IdOfEvent(rest[1..], v, tail);
      IdAfterLine(line, rest, named + tail);
      assert pre + (named + tail) == line + (rest + (named + tail));
    }
  }

  /** An event without such a line has no id. */
  lemma {:induction false} NoIdOfEvent(event: string)
    requires Nameless(event)
    ensures EventId(event) == None
    decreases |event|
  {
    var line, tail := CutAtNewline(event);
    FirstLine(line, tail);
    if tail == "" {
      assert event[0..] == event == line && [line][1..] == [];
      assert FirstId([line]) == FirstId([]);
    } else {
      NamelessRest(event, line, tail);
      NoIdOfEvent(tail[1..]);
      IdAfterLine(line, tail, "");
      assert tail + "" == tail && tail[1..] + "" == tail[1..];
    }
  }

  /** One more event, ended by a blank line. */
  lemma OneEvent(s: string, event: string)
    requires Split(s).rest == "" && !HasBlankLine(event + "\n")
    ensures Split(s + (event + "\n\n")).events == Split(s).events + [event]
  {
    var r := Read([event], "");
    SplitExtends(s, event + "\n\n");
    assert !HasBlankLine("");
    SplitUnique(r);
    assert Join(r) == event + "\n\n" && "" + (event + "\n\n") == event + "\n\n";
  }

  type Naming = string -> Option<string>

  /** An empty id stores nothing. */
  predicate Names(id: Option<string>) {
    id.Some? && id.value != ""
  }

  /** The entry left after storing the id of each event in turn. */
  function StoreIds(naming: Naming, stored: Option<string>, events: seq<string>): Option<string>
    decreases |events|
  {
    if events == [] then stored
    else
      var id := naming(events[|events| - 1]);
      if Names(id) then id else StoreIds(naming, stored, events[..|events| - 1])
  }

  lemma {:induction false} StoreIdsAppend(naming: Naming, stored: Option<string>, events: seq<string>,
                                          more: seq<string>)
    ensures StoreIds(naming, StoreIds(naming, stored, events), more) == StoreIds(naming, stored, events + more)
    decreases |more|
  {
    if more == [] {
      assert events + more == events;
    } else {
      var n := |more| - 1;
      StoreIdsAppend(naming, stored, events, more[..n]);
      assert (events + more)[..|events| + n] == events + more[..n];
    }
  }

  /** The id stored in the end is that of the last event that has one. */
  lemma {:induction false} LastIdStays(naming: Naming, stored: Option<string>, events: seq<string>, i: nat)
    requires i < |events| && Names(naming(events[i]))
    requires forall j :: i < j < |events| ==> !Names(naming(events[j]))
    ensures StoreIds(naming, stored, events) == naming(events[i])
    decreases |events|
  {
    var n := |events| - 1;
    if i < n {
      LastIdStays(naming, stored, events[..n], i);
    }
  }

  /** When a text that ends in a blank line is followed by an event with a line "id: v", the
      first of its kind, and another blank line, then v is what is stored, unless it is
      empty. */
  lemma StoresValue(stored: Option<string>, s: string, pre: string, v: string, tail: string)
    requires Split(s).rest == "" && Nameless(pre) && (pre == "" || pre[|pre| - 1] == '\n')
    requires '\n' !in v && (tail == "" || tail[0] == '\n') && !HasBlankLine(pre + ("id: " + v + tail) + "\n")
    ensures StoreIds(EventId, stored, Split(s + (pre + ("id: " + v + tail) + "\n\n")).events) ==
      if v == "" then StoreIds(EventId, stored, Split(s).events) else Some(v)
  {
    var event, before := pre + ("id: " + v + tail), Split(s).events;
    IdOfEvent(pre, v, tail);
    OneEvent(s, event);
    assert (before + [event])[..|before|] == before;
  }

  /** And an event without such a line stores nothing. */
  lemma StoresNothing(stored: Option<string>, s: string, event: string)
    requires Split(s).rest == "" && Nameless(event) && !HasBlankLine(event + "\n")
    ensures StoreIds(EventId, stored, Split(s + (event + "\n\n")).events) == StoreIds(EventId, stored, Split(s).events)
  {
    var before := Split(s).events;
    NoIdOfEvent(event);
    OneEvent(s, event);
    assert (before + [event])[..|before|] == before;
  }

  // ----- the reader -----

  class EventReader {
    /** The entry of the session storage under the stream's URL. */
    var stored: Option<string>

    constructor (stored: Option<string>)
      ensures this.stored == stored
    {
      this.stored := stored;
    }

    /** Read the chunks of one connection until it is done or no longer active. */
    method Connect(chunks: seq<string>) returns (buffered: string)
      modifies this
      ensures buffered == Split(Joined(chunks)).rest
      ensures stored == StoreIds(EventId, old(stored), Split(Joined(chunks)).events)
    {
      buffered := "";
      ghost var text := "";
      var n := 0;
      while n < |chunks|
        invariant n <= |chunks| && text == Joined(chunks[..n])
        invariant buffered == Split(text).rest
        invariant stored == StoreIds(EventId, old(stored), Split(text).events)
      {
        var pieces := Split(buffered + chunks[n]);
        SplitExtends(text, chunks[n]);
        assert chunks[..n + 1][..n] == chunks[..n];
        Store(pieces.events);
        StoreIdsAppend(EventId, old(stored), Split(text).events, pieces.events);
        buffered, text, n := pieces.rest, text + chunks[n], n + 1;
      }
      assert chunks[..n] == chunks;
    }

    method Store(events: seq<string>)
      modifies this
      ensures stored == StoreIds(EventId, old(stored), events)
    {
      var n := 0;
      while n < |events|
        invariant n <= |events| && stored == StoreIds(EventId, old(stored), events[..n])
      {
        assert events[..n + 1][..n] == events[..n];
        var id := EventId(events[n]);
        if Names(id) {
          stored := id;
        }
        n := n + 1;
      }
      assert events[..n] == events;
    }
  }
}
