/** The task-event client: a chunked text stream cut into frames at empty lines, as in section 9.2 of the WHATWG HTML
    standard, "Server-sent events". What is delivered does not depend on how the text was cut into chunks. */
module EventStream {
  import opened FileTree

  const LIMIT: nat := 64 * 1024

  /** A stream event: its kind, its cursor when it has one, and its parsed data. */
  datatype Event<J> = Event(kind: string, cursor: Option<string>, data: J)

  // ---------------------------------------------------------------- frames

  predicate BreakAt(text: string, i: nat) {
    i + 1 < |text| && text[i] == '\n' && text[i + 1] == '\n'
  }

  /** indexOf('\n\n') */
  function FirstBreak(text: string): (i: Option<nat>)
    ensures i.Some? ==> BreakAt(text, i.value) && forall j :: 0 <= j < i.value ==> !BreakAt(text, j)
    ensures i.None? ==> forall j: nat :: !BreakAt(text, j)
  {
    if |text| < 2 then None
    else if BreakAt(text, 0) then Some(0)
    else
      var rest := FirstBreak(text[1..]);
      assert forall j: nat :: j > 0 ==> (BreakAt(text, j) <==> BreakAt(text[1..], j - 1));
      match rest
      case None => None
      case Some(j) => Some(j + 1)
  }

  /** Complete frames, and the text after the last of them. */
  datatype Cutting = Cutting(frames: seq<string>, rest: string)

  function Cut(text: string): Cutting
    decreases |text|
  {
    match FirstBreak(text)
    case None => Cutting([], text)
    case Some(i) => var tail := Cut(text[i + 2..]); Cutting([text[..i]] + tail.frames, tail.rest)
  }

  lemma FirstBreakIs(text: string, i: nat)
    requires BreakAt(text, i) && forall j :: 0 <= j < i ==> !BreakAt(text, j)
    ensures FirstBreak(text) == Some(i)
  {
    var r := FirstBreak(text);
    assert r.Some?;
    assert !(r.value < i) && !(i < r.value);
  }

  lemma BreakStays(a: string, b: string, i: nat)
    requires FirstBreak(a) == Some(i)
    ensures FirstBreak(a + b) == Some(i)
  {
    hide FirstBreak;
    forall j: nat | j <= i ensures BreakAt(a + b, j) <==> BreakAt(a, j) {}
    FirstBreakIs(a + b, i);
  }

  /** Cutting may stop anywhere and go on with the remainder. */
  lemma {:induction false} CutGoesOn(a: string, b: string)
    ensures var first := Cut(a);
            var then' := Cut(first.rest + b);
            Cut(a + b) == Cutting(first.frames + then'.frames, then'.rest)
    decreases |a|
  {
    hide FirstBreak;
    match FirstBreak(a)
    case None =>
      assert [] + Cut(a + b).frames == Cut(a + b).frames;
    case Some(i) =>
      BreakStays(a, b, i);
      var tail := a[i + 2..];
      assert (a + b)[..i] == a[..i] && (a + b)[i + 2..] == tail + b;
      CutGoesOn(tail, b);
      var then' := Cut(Cut(tail).rest + b).frames;
      assert [a[..i]] + (Cut(tail).frames + then') == ([a[..i]] + Cut(tail).frames) + then';
  }

  function Join(frames: seq<string>): string {
    if frames == [] then "" else frames[0] + "\n\n" + Join(frames[1..])
  }

  /** A frame holds no break, not even one shared with the break that ends it. */
  predicate IsFrame(f: string) {
    forall j :: 0 <= j < |f| ==> !BreakAt(f + "\n\n", j)
  }

  /** Cutting loses nothing: the frames with their breaks, and then the rest, are the text. */
  lemma {:induction false} CutIsWhole(text: string)
    ensures var c := Cut(text);
        Join(c.frames) + c.rest == text && FirstBreak(c.rest).None?
        && forall k :: 0 <= k < |c.frames| ==> IsFrame(c.frames[k])
    decreases |text|
  {
    hide FirstBreak, IsFrame, BreakAt;
    match FirstBreak(text)
    case None =>
    case Some(i) =>
      SplitAtBreak(text, i);
      var f, tail := text[..i], text[i + 2..];
      CutIsWhole(tail);
      FirstIsFrame(text, i);
      JoinFirst(f, Cut(tail).frames, Cut(tail).rest);
  }

  lemma SplitAtBreak(text: string, i: nat)
    requires FirstBreak(text) == Some(i)
    ensures i + 2 <= |text| && text == text[..i] + "\n\n" + text[i + 2..]
  {
    hide FirstBreak;
    assert BreakAt(text, i);
    assert text[i..i + 2] == "\n\n" && text == text[..i] + text[i..i + 2] + text[i + 2..];
  }

  lemma JoinFirst(f: string, frames: seq<string>, rest: string)
    ensures Join([f] + frames) + rest == f + "\n\n" + (Join(frames) + rest)
  {
    assert ([f] + frames)[1..] == frames;
  }

  lemma FirstIsFrame(text: string, i: nat)
    requires FirstBreak(text) == Some(i)
    ensures IsFrame(text[..i])
  {
    hide FirstBreak;
    var f := text[..i];
    forall j | 0 <= j < |f| ensures !BreakAt(f + "\n\n", j) {
      assert !BreakAt(text, j);
    }
  }

  /** And it is the only way to read the text as frames and an incomplete rest. */
  lemma {:induction false} CutIsOnly(frames: seq<string>, rest: string)
    requires FirstBreak(rest).None? && forall k :: 0 <= k < |frames| ==> IsFrame(frames[k])
    ensures Cut(Join(frames) + rest) == Cutting(frames, rest)
  {
    hide FirstBreak, IsFrame;
    if frames == [] {
      assert Join(frames) + rest == rest;
    } else {
      var f, tail := frames[0], Join(frames[1..]) + rest;
      assert frames == [f] + frames[1..];
      JoinFirst(f, frames[1..], rest);
      FrameEnds(f, tail);
      CutIsOnly(frames[1..], rest);
    }
  }

  /** A frame ends at the first break. */
  lemma FrameEnds(f: string, tail: string)
    requires IsFrame(f)
    ensures var text := f + "\n\n" + tail;
            FirstBreak(text) == Some(|f|) && text[..|f|] == f && text[|f| + 2..] == tail
  {
    hide FirstBreak;
    var text := f + "\n\n" + tail;
    assert text[..|f|] == f && text[|f| + 2..] == tail && text[|f|..|f| + 2] == "\n\n";
    forall j | 0 <= j < |f| ensures !BreakAt(text, j) { NoEarlierBreak(f, tail, j); }
    FirstBreakIs(text, |f|);
  }

  lemma NoEarlierBreak(f: string, tail: string, j: nat)
    requires IsFrame(f) && j < |f|
    ensures !BreakAt(f + "\n\n" + tail, j)
  {
    assert !BreakAt(f + "\n\n", j);
  }

  // ---------------------------------------------------------------- the fields of one frame

  /** The line terminators of a multi-line regular expression. */
  predicate Terminator(c: char) {
    c == '\n' || c == '\r' || c == '\U{2028}' || c == '\U{2029}'
  }

  function LineEnd(text: string): (n: nat)
    ensures n <= |text| && (n < |text| ==> Terminator(text[n])) && forall j :: 0 <= j < n ==> !Terminator(text[j])
  {
    if text == "" || Terminator(text[0]) then 0 else 1 + LineEnd(text[1..])
  }

  function Lines(text: string): (lines: seq<string>)
    ensures |lines| > 0
    decreases |text|
  {
    var n := LineEnd(text);
    if n == |text| then [text] else [text[..n]] + Lines(text[n + 1..])
  }

  /** What follows the prefix on the first line that has something wanted after it. */
  function Field(lines: seq<string>, prefix: string, wanted: string -> bool): (v: Option<string>)
    ensures v.Some? ==> exists k :: FirstLine(lines, prefix, wanted, k, v.value)
    ensures v.None? ==> forall k, w :: 0 <= k < |lines| && lines[k] == prefix + w && w != "" ==> !wanted(w)
  {
    if lines == [] then None
    else if prefix < lines[0] && wanted(lines[0][|prefix|..]) then
      assert FirstLine(lines, prefix, wanted, 0, lines[0][|prefix|..]);
      Some(lines[0][|prefix|..])
    else
      var rest := Field(lines[1..], prefix, wanted);
      assert forall w :: lines[0] == prefix + w && w != "" ==> lines[0][|prefix|..] == w;
      assert rest.Some? ==> exists k :: FirstLine(lines, prefix, wanted, k, rest.value) by {
        if rest.Some? {
          var k :| FirstLine(lines[1..], prefix, wanted, k, rest.value);
          assert FirstLine(lines, prefix, wanted, k + 1, rest.value);
        }
      }
      rest
  }

  /** Line k is the prefix and v, wanted and not empty, and no earlier line is such a line. */
  ghost predicate FirstLine(lines: seq<string>, prefix: string, wanted: string -> bool, k: int, v: string) {
    && 0 <= k < |lines| && lines[k] == prefix + v && v != "" && wanted(v)
    && forall j, w :: 0 <= j < k && lines[j] == prefix + w && w != "" ==> !wanted(w)
  }

  predicate Anything(s: string) {
    true
  }

  predicate Hex(c: char) {
    '0' <= c <= '9' || 'a' <= c <= 'f'
  }

  predicate IsCursor(s: string) {
    |s| == 28 && s[..4] == "tev_" && forall i :: 4 <= i < 28 ==> Hex(s[i])
  }

  /** What a frame means: nothing without data, an error when its data does not parse. */
  datatype Reading<J> = Silent | Unreadable | Heard(event: Event<J>)

  function ReadFrame<J>(parse: string -> Option<J>, frame: string): Reading<J> {
    var lines := Lines(frame);
    var kind, id, data := Field(lines, "event: ", Anything), Field(lines, "id: ", IsCursor),
        Field(lines, "data: ", Anything);
    if data.None? then Silent
    else if parse(data.value).None? then Unreadable
    else Heard(Event(if kind.Some? then kind.value else "message", id, parse(data.value).value))
  }

  // ---------------------------------------------------------------- what a frame says

  /** The text that starts with line i: it follows a terminator or nothing, runs to the next terminator or the end. */
  predicate LineAt(text: string, i: nat, line: string) {
    && i + |line| <= |text| && text[i..i + |line|] == line && (i == 0 || Terminator(text[i - 1]))
    && (i + |line| == |text| || Terminator(text[i + |line|])) && forall k :: 0 <= k < |line| ==> !Terminator(line[k])
  }

  /** Where the k-th line starts. */
  function Start(lines: seq<string>, k: nat): nat
    requires k <= |lines|
  {
    if k == 0 then 0 else |lines[0]| + 1 + Start(lines[1..], k - 1)
  }

  /** Behind a terminator, the lines of the text are those of what follows. */
  lemma LineBehind(text: string, n: nat, i: nat, line: string)
    requires n < |text| && Terminator(text[n])
    ensures LineAt(text[n + 1..], i, line) <==> LineAt(text, n + 1 + i, line)
  {
    hide Terminator;
    var rest := text[n + 1..];
    if i + |line| <= |rest| {
      assert rest[i..i + |line|] == text[n + 1 + i..n + 1 + i + |line|];
      assert i > 0 ==> rest[i - 1] == text[n + 1 + i - 1];
      assert i + |line| < |rest| ==> rest[i + |line|] == text[n + 1 + i + |line|];
    }
  }

  lemma LinesUnfold(text: string)
    ensures var n := LineEnd(text);
            if n == |text| then Lines(text) == [text]
            else Lines(text) == [text[..n]] + Lines(text[n + 1..]) && Lines(text)[1..] == Lines(text[n + 1..])
  {
    hide LineEnd, Terminator;
    var n := LineEnd(text);
    if n < |text| { assert ([text[..n]] + Lines(text[n + 1..]))[1..] == Lines(text[n + 1..]); }
  }

  lemma FirstLineAt(text: string)
    ensures LineAt(text, 0, text[..LineEnd(text)])
  {
  }

  /** The lines are exactly the stretches of text between terminators, in order. */
  lemma {:induction false} LinesAre(text: string, k: nat)
    requires k < |Lines(text)|
    ensures LineAt(text, Start(Lines(text), k), Lines(text)[k])
    decreases |text|
  {
    hide LineAt, Lines, Terminator;
    var n := LineEnd(text);
    LinesUnfold(text);
    FirstLineAt(text);
    assert text[..|text|] == text;
    if k > 0 {
      var rest := text[n + 1..];
      LinesAre(rest, k - 1);
      LineBehind(text, n, Start(Lines(rest), k - 1), Lines(rest)[k - 1]);
    }
  }

  lemma {:induction false} EveryLine(text: string, i: nat, line: string) returns (k: nat)
    requires LineAt(text, i, line)
    ensures k < |Lines(text)| && Lines(text)[k] == line && Start(Lines(text), k) == i
    decreases |text|
  {
    hide Lines, Terminator;
    var n := LineEnd(text);
    LinesUnfold(text);
    assert text[..|text|] == text;
    if i == 0 {
      k := 0;
      OneFirstLine(text, line);
    } else {
      assert n < i;
      var rest := text[n + 1..];
      LineBehind(text, n, i - n - 1, line);
      k := EveryLine(rest, i - n - 1, line);
      k := k + 1;
    }
  }

  lemma OneFirstLine(text: string, line: string)
    requires LineAt(text, 0, line)
    ensures text[..LineEnd(text)] == line
  {
    hide Terminator;
    var n := LineEnd(text);
    assert forall k :: 0 <= k < |line| ==> line[k] == text[k];
    assert |line| == n;
  }

  lemma {:induction false} StartsGrow(lines: seq<string>, j: nat, k: nat)
    requires j < k <= |lines|
    ensures Start(lines, j) < Start(lines, k)
  {
    if j > 0 { StartsGrow(lines[1..], j - 1, k - 1); }
  }

  /** At position i the text has a line that is the prefix and v; and no such line before with something wanted. */
  ghost predicate FirstMatch(text: string, prefix: string, wanted: string -> bool, i: nat, v: string) {
    && v != "" && wanted(v) && LineAt(text, i, prefix + v)
    && forall j, w :: 0 <= j < i && w != "" && LineAt(text, j, prefix + w) ==> !wanted(w)
  }

  /** A field is the first match of `^prefix(.+)$` in the text, in whatever line it is. */
  lemma FieldIsFirstMatch(text: string, prefix: string, wanted: string -> bool)
    ensures var field := Field(Lines(text), prefix, wanted);
            && (field.Some? ==> exists i :: FirstMatch(text, prefix, wanted, i, field.value))
            && (field.None? ==> forall i, w :: w != "" && LineAt(text, i, prefix + w) ==> !wanted(w))
  {
    hide LineAt, Lines, Start, Field;
    var lines := Lines(text);
    var field := Field(lines, prefix, wanted);
    if field.None? {
      forall i, w | w != "" && LineAt(text, i, prefix + w) ensures !wanted(w) {
        var k := EveryLine(text, i, prefix + w);
      }
    } else {
      var k :| FirstLine(lines, prefix, wanted, k, field.value);
      LinesAre(text, k);
      forall j, w | 0 <= j < Start(lines, k) && w != "" && LineAt(text, j, prefix + w) ensures !wanted(w) {
        var m := EveryLine(text, j, prefix + w);
        if m > k { StartsGrow(lines, k, m); }
      }
      assert FirstMatch(text, prefix, wanted, Start(lines, k), field.value);
    }
  }

  /** Line feed, carriage return, and the two separators of Unicode end a line. */
  lemma TerminatorIs(c: char)
    ensures Terminator(c) <==> c as int in {0x0a, 0x0d, 0x2028, 0x2029}
  {
  }

  /** A cursor is tev_ and 24 lower-case hexadecimal digits. */
  lemma CursorIs(s: string)
    ensures IsCursor(s) <==>
            exists digits ::
                && s == "tev_" + digits && |digits| == 24
                && forall c :: c in digits ==> c in "0123456789abcdef"
  {
    if IsCursor(s) {
      var digits := s[4..];
      assert s == "tev_" + digits;
      forall c | c in digits ensures c in "0123456789abcdef" {
        var i :| 0 <= i < 24 && digits[i] == c;
        assert Hex(s[i + 4]);
        HexDigits(c);
      }
    }
    if digits :| s == "tev_" + digits && |digits| == 24 && forall c :: c in digits ==> c in "0123456789abcdef" {
      forall i | 4 <= i < 28 ensures Hex(s[i]) {
        assert s[i] == digits[i - 4];
        HexDigits(s[i]);
      }
    }
  }

  lemma HexDigits(c: char)
    ensures Hex(c) <==> c in "0123456789abcdef"
  {
    var all := "0123456789abcdef";
    assert all[0] == '0' && all[1] == '1' && all[2] == '2' && all[3] == '3' && all[4] == '4' && all[5] == '5';
    assert all[6] == '6' && all[7] == '7' && all[8] == '8' && all[9] == '9' && all[10] == 'a' && all[11] == 'b';
    assert all[12] == 'c' && all[13] == 'd' && all[14] == 'e' && all[15] == 'f';
  }

  /** WHAT A FRAME SAYS, read off its text: its data is what the first `data: ` line holds, and without one the frame is
      silent; its kind is what the first `event: ` line holds, or "message"; its cursor is what the first `id: ` line
      with a cursor on it holds, if there is one. */
  lemma FrameSays<J>(parse: string -> Option<J>, frame: string)
    ensures ReadFrame(parse, frame).Silent? <==> forall i, v :: v != "" ==> !LineAt(frame, i, "data: " + v)
    ensures !ReadFrame(parse, frame).Silent? ==>
      exists i, data :: && FirstMatch(frame, "data: ", Anything, i, data)
                        && (ReadFrame(parse, frame).Unreadable? <==> parse(data).None?)
                        && (ReadFrame(parse, frame).Heard? ==> parse(data) == Some(ReadFrame(parse, frame).event.data))
    ensures ReadFrame(parse, frame).Heard? ==>
      var e := ReadFrame(parse, frame).event;
      && (|| (exists i :: FirstMatch(frame, "event: ", Anything, i, e.kind))
          || (e.kind == "message" && forall i, v :: v != "" ==> !LineAt(frame, i, "event: " + v)))
      && (match e.cursor
          case Some(id) => exists i :: FirstMatch(frame, "id: ", IsCursor, i, id)
          case None => forall i, v :: v != "" && LineAt(frame, i, "id: " + v) ==> !IsCursor(v))
  {
    hide LineAt, Lines, Field, IsCursor;
    FieldIsFirstMatch(frame, "data: ", Anything);
    FieldIsFirstMatch(frame, "event: ", Anything);
    FieldIsFirstMatch(frame, "id: ", IsCursor);
    var data := Field(Lines(frame), "data: ", Anything);
    if data.Some? {
      var i :| FirstMatch(frame, "data: ", Anything, i, data.value);
    }
  }

  predicate OneLine(s: string) {
    s != "" && forall i :: 0 <= i < |s| ==> !Terminator(s[i])
  }

  lemma LineThen(a: string, b: string)
    requires OneLine(a)
    ensures Lines(a + "\n" + b) == [a] + Lines(b) && Lines(a) == [a]
  {
    hide Lines;
    var text := a + "\n" + b;
    LinesUnfold(text);
    LinesUnfold(a);
    FirstTerminator(text, |a|);
    FirstTerminator(a, |a|);
    assert text[..|a|] == a && text[|a| + 1..] == b;
  }

  lemma FirstTerminator(text: string, n: nat)
    requires n <= |text| && (n < |text| ==> Terminator(text[n])) && forall i :: 0 <= i < n ==> !Terminator(text[i])
    ensures LineEnd(text) == n
  {
    var m := LineEnd(text);
    assert !(m < n) && !(n < m);
  }

  /** The lines a server writes for an event. */
  function EventLine(kind: string): string {
    "event: " + kind
  }

  function IdLine(id: string): string {
    "id: " + id
  }

  function DataLine(data: string): string {
    "data: " + data
  }

  /** ROUND TRIP. What a server writes as an event with a kind, a cursor and one line of data is read back as that
      event; without the kind it is a "message"; without the cursor it has none; and without data it is silent. */
  lemma FrameRoundTrip<J>(parse: string -> Option<J>, kind: string, id: string, data: string)
    requires OneLine(kind) && OneLine(data) && IsCursor(id)
    ensures ReadFrame(parse, EventLine(kind) + "\n" + (IdLine(id) + "\n" + DataLine(data)))
         == HeardAs(parse, kind, Some(id), data)
    ensures ReadFrame(parse, IdLine(id) + "\n" + DataLine(data)) == HeardAs(parse, "message", Some(id), data)
    ensures ReadFrame(parse, EventLine(kind) + "\n" + DataLine(data)) == HeardAs(parse, kind, None, data)
    ensures ReadFrame(parse, EventLine(kind) + "\n" + IdLine(id)) == Silent
  {
    hide Lines, IsCursor, Field, EventLine, IdLine, DataLine, OneLine;
    var e, i, d := EventLine(kind), IdLine(id), DataLine(data);
    CursorIsOneLine(id);
    EventLines(kind, id, data);
    LineThen(e, i + "\n" + d);
    LineThen(i, d);
    LineThen(d, "");
    LineThen(e, d);
    LineThen(e, i);
    assert [e] + ([i] + [d]) == [e, i, d] && [i] + [d] == [i, d] && [e] + [d] == [e, d] && [e] + [i] == [e, i];
    FieldOf([e, i, d], "event: ", kind, Anything, 0);
    FieldOf([e, i, d], "id: ", id, IsCursor, 1);
    FieldOf([e, i, d], "data: ", data, Anything, 2);
    NoField([i, d], "event: ", Anything);
    FieldOf([i, d], "id: ", id, IsCursor, 0);
    FieldOf([i, d], "data: ", data, Anything, 1);
    FieldOf([e, d], "event: ", kind, Anything, 0);
    NoField([e, d], "id: ", IsCursor);
    FieldOf([e, d], "data: ", data, Anything, 1);
    NoField([e, i], "data: ", Anything);
  }

  function HeardAs<J>(parse: string -> Option<J>, kind: string, cursor: Option<string>, data: string): Reading<J> {
    if parse(data).Some? then Heard(Event(kind, cursor, parse(data).value)) else Unreadable
  }

  lemma EventLines(kind: string, id: string, data: string)
    requires OneLine(kind) && OneLine(data) && OneLine(id)
    ensures var e, i, d := EventLine(kind), IdLine(id), DataLine(data);
            && e == "event: " + kind && i == "id: " + id && d == "data: " + data && kind != "" && id != "" && data != ""
            && OneLine(e) && OneLine(i) && OneLine(d) && e[0] == 'e' && i[0] == 'i' && d[0] == 'd'
            && "event: "[0] == 'e' && "id: "[0] == 'i' && "data: "[0] == 'd'
  {
    PrefixesAreLines();
  }

  lemma PrefixesAreLines()
    ensures OneLine("event: ") && OneLine("id: ") && OneLine("data: ")
  {
  }

  lemma CursorIsOneLine(id: string)
    requires IsCursor(id)
    ensures OneLine(id)
  {
    assert "tev_"[0] == 't' && "tev_"[1] == 'e' && "tev_"[2] == 'v' && "tev_"[3] == '_';
    forall i | 0 <= i < |id| ensures !Terminator(id[i]) {
      if i < 4 { assert id[i] == id[..4][i]; } else { assert Hex(id[i]); }
    }
  }

  lemma FieldOf(lines: seq<string>, prefix: string, v: string, wanted: string -> bool, k: nat)
    requires k < |lines| && lines[k] == prefix + v && v != "" && wanted(v) && prefix != ""
    requires forall j :: 0 <= j < k ==> lines[j] != "" && lines[j][0] != prefix[0]
    ensures Field(lines, prefix, wanted) == Some(v)
  {
    hide Field;
    var field := Field(lines, prefix, wanted);
    assert field.Some?;
    var m :| FirstLine(lines, prefix, wanted, m, field.value);
    assert lines[m][0] == prefix[0] && lines[k][0] == prefix[0];
    assert m == k;
    assert (prefix + v)[|prefix|..] == v && (prefix + field.value)[|prefix|..] == field.value;
  }

  lemma NoField(lines: seq<string>, prefix: string, wanted: string -> bool)
    requires prefix != "" && forall j :: 0 <= j < |lines| ==> lines[j] != "" && lines[j][0] != prefix[0]
    ensures Field(lines, prefix, wanted) == None
  {
  }

  // ---------------------------------------------------------------- delivery

  /** Events delivered, the cursor after them, and whether every frame could be read. */
  datatype Delivery<J> = Delivery(events: seq<Event<J>>, cursor: Option<string>, ok: bool)

  function Deliver<J>(parse: string -> Option<J>, frames: seq<string>, cursor: Option<string>): Delivery<J>
    decreases |frames|
  {
    if frames == [] then Delivery([], cursor, true)
    else
      match ReadFrame(parse, frames[0])
      case Silent => Deliver(parse, frames[1..], cursor)
      case Unreadable => Delivery([], cursor, false)
      case Heard(e) =>
        var rest := Deliver(parse, frames[1..], if e.cursor.Some? then e.cursor else cursor);
        rest.(events := [e] + rest.events)
  }

  function Both<J>(a: Delivery<J>, b: Delivery<J>): Delivery<J> {
    if !a.ok then a else Delivery(a.events + b.events, b.cursor, b.ok)
  }

  lemma {:induction false} DeliverGoesOn<J>(parse: string -> Option<J>, a: seq<string>, b: seq<string>,
                                            cursor: Option<string>)
    ensures var first := Deliver(parse, a, cursor);
        Deliver(parse, a + b, cursor) == Both(first, Deliver(parse, b, first.cursor))
    decreases |a|
  {
    hide ReadFrame;
    if a == [] {
      assert a + b == b;
    } else {
      assert (a + b)[0] == a[0] && (a + b)[1..] == a[1..] + b;
      match ReadFrame(parse, a[0])
      case Silent => DeliverGoesOn(parse, a[1..], b, cursor);
      case Unreadable =>
      case Heard(e) =>
        var next := if e.cursor.Some? then e.cursor else cursor;
        DeliverGoesOn(parse, a[1..], b, next);
        var first := Deliver(parse, a[1..], next);
        var second := Deliver(parse, b, first.cursor);
        assert [e] + (first.events + second.events) == ([e] + first.events) + second.events;
    }
  }

  /** One frame more: nothing happens after a frame that could not be read, silence changes nothing, and what is heard
      is delivered last and moves the cursor if it carries one. */
  lemma DeliverOneMore<J>(parse: string -> Option<J>, frames: seq<string>, frame: string, cursor: Option<string>)
    ensures var before, after := Deliver(parse, frames, cursor), Deliver(parse, frames + [frame], cursor);
            match ReadFrame(parse, frame)
            case Silent => after == before
            case Unreadable => after.events == before.events && after.cursor == before.cursor && !after.ok
            case Heard(e) =>
              if before.ok
              then after.events == before.events + [e] && after.ok
                   && after.cursor == match e.cursor { case Some(id) => Some(id) case None => before.cursor }
              else after == before
    ensures Deliver(parse, [], cursor) == Delivery([], cursor, true)
  {
    hide ReadFrame;
    DeliverGoesOn(parse, frames, [frame], cursor);
    assert [frame][1..] == [];
  }

  // ---------------------------------------------------------------- the stream

  /** Length in UTF-16 code units. */
  function Units(text: string): nat {
    if text == "" then 0 else (if text[0] as int >= 0x10000 then 2 else 1) + Units(text[1..])
  }

  function Concat(chunks: seq<string>): string {
    if chunks == [] then "" else chunks[0] + Concat(chunks[1..])
  }

  /** The call returns the cursor, or throws. */
  datatype Ending = Finished(cursor: Option<string>) | Failed

  datatype Outcome<J> = Outcome(events: seq<Event<J>>, ending: Ending)

  /** Reading chunk by chunk, from a buffer that holds no complete frame. */
  function Consumed<J>(parse: string -> Option<J>, buffer: string, chunks: seq<string>,
                       cursor: Option<string>): Outcome<J>
    decreases |chunks|
  {
    if chunks == [] then Outcome([], Finished(cursor))
    else
      var c := Cut(buffer + chunks[0]);
      var d := Deliver(parse, c.frames, cursor);
      if !d.ok || Units(c.rest) > LIMIT then Outcome(d.events, Failed)
      else
        var later := Consumed(parse, c.rest, chunks[1..], d.cursor);
        Outcome(d.events + later.events, later.ending)
  }

  /** After the first n chunks the incomplete remainder is within the limit. */
  predicate Fits(buffer: string, chunks: seq<string>, n: nat)
    requires n <= |chunks|
  {
    Units(Cut(buffer + Concat(chunks[..n])).rest) <= LIMIT
  }

  predicate AllFits(buffer: string, chunks: seq<string>) {
    forall n :: 0 < n <= |chunks| ==> Fits(buffer, chunks, n)
  }

  lemma FitsLater(buffer: string, chunks: seq<string>, n: nat)
    requires 0 < n <= |chunks|
    ensures Fits(buffer, chunks, n) == Fits(Cut(buffer + chunks[0]).rest, chunks[1..], n - 1)
  {
    hide Cut, Units;
    assert chunks[..n][1..] == chunks[1..][..n - 1];
    var more := Concat(chunks[1..][..n - 1]);
    assert buffer + (chunks[0] + more) == (buffer + chunks[0]) + more;
    CutGoesOn(buffer + chunks[0], more);
  }

  /** CHUNKS DO NOT MATTER. Reading finishes exactly when every frame of the whole text is readable and no remainder
      between chunks is too long; it has then delivered what the whole text delivers at once, and returns that
      cursor; and a reading that fails has delivered a first part of it. */
  lemma {:induction false} ConsumedIsDelivered<J>(parse: string -> Option<J>, buffer: string, chunks: seq<string>,
                                                  cursor: Option<string>)
    requires Cut(buffer) == Cutting([], buffer)
    ensures var all := Deliver(parse, Cut(buffer + Concat(chunks)).frames, cursor);
            var got := Consumed(parse, buffer, chunks, cursor);
            && (got.ending.Finished? <==> all.ok && AllFits(buffer, chunks))
            && (got.ending.Finished? ==> got == Outcome(all.events, Finished(all.cursor)))
            && got.events <= all.events
    decreases |chunks|
  {
    hide Cut, Units, Deliver;
    if chunks == [] {
      assert buffer + Concat(chunks) == buffer;
      DeliverNothing(parse, cursor);
    } else {
      var more := Concat(chunks[1..]);
      var c := Cut(buffer + chunks[0]);
      var d := Deliver(parse, c.frames, cursor);
      assert buffer + (chunks[0] + more) == (buffer + chunks[0]) + more;
      CutGoesOn(buffer + chunks[0], more);
      var then' := Cut(c.rest + more);
      DeliverGoesOn(parse, c.frames, then'.frames, cursor);
      RestIsCut(buffer + chunks[0]);
      ConsumedIsDelivered(parse, c.rest, chunks[1..], d.cursor);
      FitsFirst(buffer, chunks);
      forall n | 1 < n <= |chunks| ensures Fits(buffer, chunks, n) == Fits(c.rest, chunks[1..], n - 1) {
        FitsLater(buffer, chunks, n);
      }
      AllFit(buffer, chunks);
    }
  }

  lemma DeliverNothing<J>(parse: string -> Option<J>, cursor: Option<string>)
    ensures Deliver(parse, [], cursor) == Delivery([], cursor, true)
  {
  }

  lemma FitsFirst(buffer: string, chunks: seq<string>)
    requires chunks != []
    ensures Fits(buffer, chunks, 1) <==> Units(Cut(buffer + chunks[0]).rest) <= LIMIT
  {
    assert chunks[..1] == [chunks[0]] && Concat([chunks[0]]) == chunks[0] + "" == chunks[0];
  }

  lemma AllFit(buffer: string, chunks: seq<string>)
    requires chunks != []
    requires forall n :: 1 < n <= |chunks| ==>
        Fits(buffer, chunks, n) == Fits(Cut(buffer + chunks[0]).rest, chunks[1..], n - 1)
    ensures AllFits(buffer, chunks) <==> Fits(buffer, chunks, 1) && AllFits(Cut(buffer + chunks[0]).rest, chunks[1..])
  {
    hide Fits, Cut;
    var rest := Cut(buffer + chunks[0]).rest;
    if AllFits(buffer, chunks) {
      forall n | 0 < n <= |chunks[1..]| ensures Fits(rest, chunks[1..], n) {
        assert Fits(buffer, chunks, n + 1) == Fits(rest, chunks[1..], n + 1 - 1);
      }
    }
  }

  lemma RestIsCut(text: string)
    ensures Cut(Cut(text).rest) == Cutting([], Cut(text).rest)
  {
    CutIsWhole(text);
  }

  /** CHUNK INVARIANCE. Two ways of cutting one text that both finish deliver the same events and return the same
      cursor. */
  lemma ChunkInvariance<J>(parse: string -> Option<J>, a: seq<string>, b: seq<string>, cursor: Option<string>)
    requires Concat(a) == Concat(b)
    ensures var x, y := Consumed(parse, "", a, cursor), Consumed(parse, "", b, cursor);
            && (x.ending.Finished? && y.ending.Finished? ==> x == y)
            && (x.events <= y.events || y.events <= x.events)
  {
    hide Cut, Consumed, Deliver, Fits;
    assert Cut("") == Cutting([], "") by { EmptyCut(); }
    ConsumedIsDelivered(parse, "", a, cursor);
    ConsumedIsDelivered(parse, "", b, cursor);
  }

  lemma EmptyCut()
    ensures Cut("") == Cutting([], "")
  {
  }

  /** An incomplete last frame is never delivered and never moves the cursor. */
  lemma IncompleteFrameIsSilent<J>(parse: string -> Option<J>, frames: seq<string>, rest: string, chunks: seq<string>,
                                   cursor: Option<string>)
    requires FirstBreak(rest).None? && (forall k :: 0 <= k < |frames| ==> IsFrame(frames[k]))
    requires Concat(chunks) == Join(frames) + rest
    ensures var got, all := Consumed(parse, "", chunks, cursor), Deliver(parse, frames, cursor);
            got.events <= all.events && (got.ending.Finished? ==> got == Outcome(all.events, Finished(all.cursor)))
  {
    hide Cut, Consumed, Deliver, Fits, FirstBreak, IsFrame;
    assert Cut("") == Cutting([], "") by { EmptyCut(); }
    ConsumedIsDelivered(parse, "", chunks, cursor);
    assert "" + Concat(chunks) == Concat(chunks);
    CutIsOnly(frames, rest);
  }

  lemma {:induction false} UnitsCount(text: string)
    ensures Units(text) == |text| + |Astral(text)|
  {
    if text != "" { UnitsCount(text[1..]); }
  }

  /** The characters that take two units. */
  function Astral(text: string): seq<char> {
    if text == "" then "" else (if text[0] > '\U{ffff}' then [text[0]] else "") + Astral(text[1..])
  }

  /** One incomplete frame is waited for up to 65536 units, astral characters counting twice, and refused beyond. */
  lemma FrameLimit<J>(parse: string -> Option<J>, text: string, cursor: Option<string>)
    requires FirstBreak(text).None?
    ensures Consumed(parse, "", [text], cursor) ==
            Outcome([], if |text| + |Astral(text)| <= 65536 then Finished(cursor) else Failed)
  {
    hide Units, FirstBreak;
    UnitsCount(text);
    assert "" + text == text && Cut(text) == Cutting([], text);
    DeliverNothing(parse, cursor);
    var rest: seq<string> := [text][1..];
    assert rest == [];
    assert Consumed(parse, text, rest, cursor) == Outcome([], Finished(cursor));
  }

  /** `consumeTaskEvents`: chunk by chunk, frame by frame. */
  method ConsumeTaskEvents<J>(parse: string -> Option<J>, chunks: seq<string>, from: Option<string>)
    returns (events: seq<Event<J>>, ending: Ending)
    ensures Outcome(events, ending) == Consumed(parse, "", chunks, from)
  {
    hide Cut, Deliver, Units;
    var buffer, cursor := "", from;
    events := [];
    assert chunks[0..] == chunks;
    for n := 0 to |chunks|
      invariant Consumed(parse, "", chunks, from) == After(events, Consumed(parse, buffer, chunks[n..], cursor))
    {
      var ok;
      ghost var before, d := events, Deliver(parse, Cut(buffer + chunks[n]).frames, cursor);
      assert chunks[n..][0] == chunks[n] && chunks[n..][1..] == chunks[n + 1..];
      buffer, events, cursor, ok := TakeFrames(parse, buffer + chunks[n], events, cursor);
      ghost var later := Consumed(parse, buffer, chunks[n + 1..], cursor).events;
      assert before + (d.events + later) == (before + d.events) + later;
      if !ok || Units(buffer) > LIMIT { return events, Failed; }
    }
    ending := Finished(cursor);
  }

  function After<J>(events: seq<Event<J>>, later: Outcome<J>): Outcome<J> {
    Outcome(events + later.events, later.ending)
  }

  /** The inner loop: every complete frame of the buffer. */
  method TakeFrames<J>(parse: string -> Option<J>, text: string, sofar: seq<Event<J>>, from: Option<string>)
      returns (buffer: string, events: seq<Event<J>>, cursor: Option<string>, ok: bool)
    ensures var d := Deliver(parse, Cut(text).frames, from);
        ok == d.ok && events == sofar + d.events && cursor == d.cursor
    ensures ok ==> buffer == Cut(text).rest
  {
    hide ReadFrame, FirstBreak;
    buffer, events, cursor := text, sofar, from;
    while FirstBreak(buffer).Some?
      invariant var d, left := Deliver(parse, Cut(text).frames, from), Deliver(parse, Cut(buffer).frames, cursor);
                d.ok == left.ok && d.cursor == left.cursor && sofar + d.events == events + left.events
      invariant Cut(buffer).rest == Cut(text).rest
      decreases |buffer|
    {
      var end := FirstBreak(buffer).value;
      var frame := buffer[..end];
      buffer := buffer[end + 2..];
      match ReadFrame(parse, frame) {
        case Silent =>
        case Unreadable => return buffer, events, cursor, false;
        case Heard(e) =>
          events := events + [e];
          if e.cursor.Some? { cursor := e.cursor; }
      }
    }
    ok := true;
  }
}
