/**
 The text a stream writes, and the event stream parser of sections 9.2.5 and
 9.2.6 of the WHATWG HTML Living Standard that reads it.
 */
module SseFraming {
  import opened Text

  // ----- what is written ----------------------------------------------------------------------

  datatype Frame = Comment(text: string) | Data(payload: string) | Control(kind: string, text: string)

  /** `strings.TrimSuffix(line, "\r")`: one carriage return at the end is dropped. */
  function TrimCr(line: string): string {
    if line != "" && line[|line| - 1] == '\r' then line[..|line| - 1] else line
  }

  function Trimmed(lines: seq<string>): (trimmed: seq<string>)
    ensures |trimmed| == |lines| && forall i :: 0 <= i < |lines| ==> trimmed[i] == TrimCr(lines[i])
  {
    seq(|lines|, i requires 0 <= i < |lines| => TrimCr(lines[i]))
  }

  function DataLine(line: string): string {
    "data: " + line + "\n"
  }

  function DataLines(lines: seq<string>): string {
    if lines == [] then "" else DataLine(lines[0]) + DataLines(lines[1..])
  }

  /** `writeSSEData`. */
  method WriteData(payload: string) returns (out: string)
    ensures out == FrameText(Data(payload))
  {
    var lines := Split(payload, '\n');
    out := "";
    for i := 0 to |lines|
      invariant out == DataLines(Trimmed(lines)[..i])
    {
      DataLinesNext(Trimmed(lines), i);
      out := out + ("data: " + TrimCr(lines[i]) + "\n");
    }
    assert Trimmed(lines)[..|lines|] == Trimmed(lines);
    out := out + "\n";
  }

  lemma {:induction false} DataLinesNext(lines: seq<string>, i: nat)
    requires i < |lines|
    ensures DataLines(lines[..i + 1]) == DataLines(lines[..i]) + DataLine(lines[i])
  {
    if i == 0 {
      assert lines[..1] == [lines[0]] && lines[..0] == [] && [lines[0]][1..] == [];
    } else {
      DataLinesNext(lines[1..], i - 1);
      assert lines[..i + 1][1..] == lines[1..][..i] && lines[..i][1..] == lines[1..][..i - 1];
      DataLinesCons(lines[..i + 1]);
      DataLinesCons(lines[..i]);
    }
  }

  lemma DataLinesCons(lines: seq<string>)
    requires lines != []
    ensures DataLines(lines) == DataLine(lines[0]) + DataLines(lines[1..])
  {
  }

  function FrameText(f: Frame): string {
    match f
    case Comment(text) => ": " + text + "\n\n"
    case Data(payload) => DataLines(Trimmed(Split(payload, '\n'))) + "\n"
    case Control(kind, text) => "event: " + kind + "\ndata: " + text + "\n\n"
  }

  function StreamText(frames: seq<Frame>): string {
    if frames == [] then "" else FrameText(frames[0]) + StreamText(frames[1..])
  }

  // ----- the parser of section 9.2 ------------------------------------------------------------

  datatype Event = Event(kind: string, data: string)

  predicate IsEol(c: char) {
    c == '\n' || c == '\r'
  }

  /** The end of the line that starts at `i`: the first CR or LF, or the end of the stream. */
  function LineEnd(s: string, i: nat): (e: nat)
    requires i <= |s|
    ensures i <= e <= |s| && (e < |s| ==> IsEol(s[e])) && forall k :: i <= k < e ==> !IsEol(s[k])
    decreases |s| - i
  {
    if i == |s| || IsEol(s[i]) then i else LineEnd(s, i + 1)
  }

  /** Where the line after the one that ends at `e` starts: CRLF ends one line. */
  function Next(s: string, e: nat): (n: nat)
    requires e < |s|
    ensures e < n <= |s|
  {
    if s[e] == '\r' && e + 1 < |s| && s[e + 1] == '\n' then e + 2 else e + 1
  }

  /** The lines ended by LF, CR or CRLF; an unended last line dispatches nothing and is left out. */
  function Lines(s: string): seq<string>
    decreases |s|
  {
    var e := LineEnd(s, 0);
    if e == |s| then [] else [s[..e]] + Lines(s[Next(s, e)..])
  }

  /** The data and event type buffers. */
  datatype Buffers = Buffers(data: string, kind: string)

  function ColonAt(line: string): nat {
    IndexFrom(line, ':', 0)
  }

  function FieldValue(line: string): string {
    var at := ColonAt(line);
    if at == |line| then ""
    else if at + 1 < |line| && line[at + 1] == ' ' then line[at + 2..]
    else line[at + 1..]
  }

  /** A line that is not blank; `id` and `retry` do not change what is dispatched. */
  function ReadLine(b: Buffers, line: string): Buffers {
    var name := line[..ColonAt(line)];
    if name == "event" then b.(kind := FieldValue(line))
    else if name == "data" then b.(data := b.data + FieldValue(line) + "\n")
    else b
  }

  function Dispatch(b: Buffers): seq<Event> {
    if b.data == "" then []
    else
      var data := if b.data[|b.data| - 1] == '\n' then b.data[..|b.data| - 1] else b.data;
      [Event(if b.kind == "" then "message" else b.kind, data)]
  }

  function Process(lines: seq<string>, b: Buffers): seq<Event> {
    if lines == [] then []
    else if lines[0] == "" then Dispatch(b) + Process(lines[1..], Buffers("", ""))
    else Process(lines[1..], ReadLine(b, lines[0]))
  }

  /** The events of a stream. */
  function Decode(s: string): seq<Event> {
    Process(Lines(s), Buffers("", ""))
  }

  // ----- lines --------------------------------------------------------------------------------

  predicate NoEol(s: string) {
    forall i :: 0 <= i < |s| ==> !IsEol(s[i])
  }

  lemma {:induction false} LineEndIs(s: string, i: nat, e: nat)
    requires i <= e < |s| && IsEol(s[e]) && forall k :: i <= k < e ==> !IsEol(s[k])
    ensures LineEnd(s, i) == e
    decreases e - i
  {
    if i < e { LineEndIs(s, i + 1, e); }
  }

  lemma LinesCons(line: string, rest: string)
    requires NoEol(line)
    ensures Lines(line + "\n" + rest) == [line] + Lines(rest)
  {
    var s := line + "\n" + rest;
    assert forall k :: 0 <= k < |line| ==> s[k] == line[k];
    LineEndIs(s, 0, |line|);
    assert s[..|line|] == line && s[|line| + 1..] == rest;
  }

  /** The first line of a text that ends with a line feed, whatever follows the text. */
  lemma FirstLine(a: string, b: string, e: nat, n: nat)
    requires a != "" && a[|a| - 1] == '\n' && e == LineEnd(a, 0) < |a| && n == Next(a, e)
    ensures LineEnd(a + b, 0) == e && Next(a + b, e) == n && (a + b)[..e] == a[..e] && (a + b)[n..] == a[n..] + b
    ensures a[n..] == "" || a[n..][|a[n..]| - 1] == '\n'
  {
    var s := a + b;
    assert forall k :: 0 <= k < |a| ==> s[k] == a[k];
    LineEndIs(s, 0, e);
    if n < |a| { assert a[n..][|a| - n - 1] == a[|a| - 1]; }
  }

  lemma EndsSomewhere(a: string)
    requires a != "" && a[|a| - 1] == '\n'
    ensures LineEnd(a, 0) < |a|
  {
    var e := LineEnd(a, 0);
    if e == |a| { assert IsEol(a[|a| - 1]); }
  }

  /** Cutting after a line feed cuts between lines. */
  lemma {:induction false} LinesAppend(a: string, b: string)
    requires a == "" || a[|a| - 1] == '\n'
    ensures Lines(a + b) == Lines(a) + Lines(b)
    decreases |a|
  {
    if a == "" {
      assert a + b == b;
    } else {
      EndsSomewhere(a);
      var e := LineEnd(a, 0);
      var n := Next(a, e);
      FirstLine(a, b, e, n);
      LinesAppend(a[n..], b);
      LinesOpen(a, e, n);
      LinesOpen(a + b, e, n);
      Regroup(a[..e], Lines(a[n..]), Lines(b));
    }
  }

  lemma Regroup(line: string, x: seq<string>, y: seq<string>)
    ensures [line] + (x + y) == [line] + x + y
  {
  }

  lemma LinesOpen(s: string, e: nat, n: nat)
    requires e == LineEnd(s, 0) < |s| && n == Next(s, e)
    ensures Lines(s) == [s[..e]] + Lines(s[n..])
  {
  }

  function After(lines: seq<string>, b: Buffers): Buffers {
    if lines == [] then b
    else if lines[0] == "" then After(lines[1..], Buffers("", ""))
    else After(lines[1..], ReadLine(b, lines[0]))
  }

  lemma {:induction false} ProcessAppend(x: seq<string>, y: seq<string>, b: Buffers)
    ensures Process(x + y, b) == Process(x, b) + Process(y, After(x, b))
    decreases |x|
  {
    if x == [] {
      assert x + y == y;
    } else {
      assert (x + y)[1..] == x[1..] + y && (x + y)[0] == x[0];
      ProcessAppend(x[1..], y, if x[0] == "" then Buffers("", "") else ReadLine(b, x[0]));
    }
  }

  lemma {:induction false} AfterBlank(x: seq<string>, b: Buffers)
    ensures After(x + [""], b) == Buffers("", "")
    decreases |x|
  {
    if x == [] {
      assert x + [""] == [""] && [""][1..] == [];
    } else {
      assert (x + [""])[1..] == x[1..] + [""] && (x + [""])[0] == x[0];
      AfterBlank(x[1..], if x[0] == "" then Buffers("", "") else ReadLine(b, x[0]));
    }
  }

  lemma BlankLast(a: string)
    requires a == "" || a[|a| - 1] == '\n'
    ensures Lines(a + "\n") == Lines(a) + [""]
  {
    LinesAppend(a, "\n");
    LinesCons("", "");
    assert "" + "\n" + "" == "\n" && Lines("") == [];
  }

  /** Text that ends with a blank line is decoded on its own. */
  lemma DecodeAppend(a: string, b: string)
    requires a == "" || a[|a| - 1] == '\n'
    ensures Decode(a + "\n" + b) == Decode(a + "\n") + Decode(b)
  {
    LinesAppend(a + "\n", b);
    BlankLast(a);
    AfterBlank(Lines(a), Buffers("", ""));
    ProcessAppend(Lines(a + "\n"), Lines(b), Buffers("", ""));
  }

  // ----- frames -------------------------------------------------------------------------------

  lemma {:induction false} DataLinesEnd(lines: seq<string>)
    ensures DataLines(lines) == "" || DataLines(lines)[|DataLines(lines)| - 1] == '\n'
  {
    if lines != [] {
      DataLinesEnd(lines[1..]);
      var first := DataLine(lines[0]);
      assert first[|first| - 1] == '\n';
    }
  }

  /** What a frame's text is before its closing blank line. */
  lemma FrameBody(f: Frame) returns (body: string)
    ensures FrameText(f) == body + "\n" && (body == "" || body[|body| - 1] == '\n')
  {
    match f
    case Comment(text) => body := ": " + text + "\n";
    case Data(payload) =>
      body := DataLines(Trimmed(Split(payload, '\n')));
      DataLinesEnd(Trimmed(Split(payload, '\n')));
    case Control(kind, text) => body := "event: " + kind + "\ndata: " + text + "\n";
  }

  function Flatten(events: seq<seq<Event>>): seq<Event> {
    if events == [] then [] else events[0] + Flatten(events[1..])
  }

  function FrameEvents(frames: seq<Frame>): seq<seq<Event>> {
    seq(|frames|, i requires 0 <= i < |frames| => Decode(FrameText(frames[i])))
  }

  lemma FrameEventsRest(frames: seq<Frame>)
    requires frames != []
    ensures FrameEvents(frames) == [Decode(FrameText(frames[0]))] + FrameEvents(frames[1..])
    ensures FrameEvents(frames)[1..] == FrameEvents(frames[1..])
  {
  }

  /** A stream decodes frame by frame: what one frame holds never changes how another is read. */
  lemma {:induction false} FramesIndependent(frames: seq<Frame>)
    ensures Decode(StreamText(frames)) == Flatten(FrameEvents(frames))
  {
    if frames == [] {
      assert Lines("") == [];
    } else {
      var body := FrameBody(frames[0]);
      var rest := StreamText(frames[1..]);
      DecodeAppend(body, rest);
      FramesIndependent(frames[1..]);
      FrameEventsRest(frames);
    }
  }

  lemma FieldIs(name: string, value: string)
    requires Free(name, ':')
    ensures ColonAt(name + ": " + value) == |name| && FieldValue(name + ": " + value) == value
    ensures (name + ": " + value)[..|name|] == name
  {
    var line := name + ": " + value;
    assert forall k :: 0 <= k < |name| ==> line[k] == name[k];
    IndexFromIs(line, ':', 0, |name|);
    assert line[|name| + 2..] == value;
  }

  lemma CommentDecodes(text: string)
    requires NoEol(text)
    ensures Decode(FrameText(Comment(text))) == []
  {
    var line := ": " + text;
    assert FrameText(Comment(text)) == line + "\n" + ("" + "\n" + "");
    LinesCons(line, "" + "\n" + "");
    LinesCons("", "");
    assert Lines("") == [];
    FieldIs("", text);
    assert line == "" + ": " + text && line[..0] == "";
    var ls := [line] + ([""] + []);
    assert ls[0] == line && ls[1..] == [""] && [""][1..] == [];
    assert Process(ls, Buffers("", "")) == Process([""], Buffers("", ""));
  }

  /** A line that is not blank is read before what follows it. */
  lemma ProcessLine(line: string, rest: string, b: Buffers)
    requires NoEol(line) && line != ""
    ensures Process(Lines(line + "\n" + rest), b) == Process(Lines(rest), ReadLine(b, line))
  {
    LinesCons(line, rest);
    var all := [line] + Lines(rest);
    assert all[0] == line && all[1..] == Lines(rest);
  }

  lemma FieldNoEol(name: string, value: string)
    requires NoEol(name) && NoEol(value)
    ensures NoEol(name + ": " + value)
  {
  }

  /** A blank line at the end dispatches what was read. */
  lemma ProcessBlank(b: Buffers)
    ensures Process(Lines("\n"), b) == Dispatch(b)
  {
    LinesCons("", "");
    assert "" + "\n" + "" == "\n" && Lines("") == [] && [""] + [] == [""];
    assert [""][1..] == [];
    assert Process([""], b) == Dispatch(b) + [];
  }

  lemma ReadEvent(kind: string, b: Buffers)
    ensures ReadLine(b, "event" + ": " + kind) == b.(kind := kind)
  {
    FieldIs("event", kind);
  }

  lemma ReadData(value: string, b: Buffers)
    ensures ReadLine(b, "data" + ": " + value) == b.(data := b.data + value + "\n")
  {
    FieldIs("data", value);
  }

  lemma ControlText(kind: string, text: string)
    ensures FrameText(Control(kind, text)) == ("event" + ": " + kind) + "\n" + (("data" + ": " + text) + "\n" + "\n")
  {
  }

  lemma ControlDecodes(kind: string, text: string)
    requires NoEol(kind) && NoEol(text) && kind != ""
    ensures Decode(FrameText(Control(kind, text))) == [Event(kind, text)]
  {
    ControlText(kind, text);
    FieldNoEol("event", kind);
    FieldNoEol("data", text);
    ProcessLine("event" + ": " + kind, ("data" + ": " + text) + "\n" + "\n", Buffers("", ""));
    ReadEvent(kind, Buffers("", ""));
    ProcessLine("data" + ": " + text, "\n", Buffers("", kind));
    ReadData(text, Buffers("", kind));
    var b := Buffers("" + text + "\n", kind);
    ProcessBlank(b);
    assert b.data[..|b.data| - 1] == text;
  }

  lemma DataLinesFirst(lines: seq<string>, rest: string)
    requires lines != []
    ensures DataLines(lines) + rest == ("data" + ": " + lines[0]) + "\n" + (DataLines(lines[1..]) + rest)
  {
  }

  lemma EndedFirst(data: string, lines: seq<string>)
    requires lines != []
    ensures data + lines[0] + "\n" + Ended(lines[1..]) == data + Ended(lines)
  {
  }

  /** Several data lines in a row add up in the data buffer. */
  lemma {:induction false} DataLinesProcess(lines: seq<string>, b: Buffers, rest: string)
    requires forall i :: 0 <= i < |lines| ==> NoEol(lines[i])
    ensures Process(Lines(DataLines(lines) + rest), b) == Process(Lines(rest), b.(data := b.data + Ended(lines)))
    decreases |lines|
  {
    if lines == [] {
      assert DataLines(lines) + rest == rest && b.data + "" == b.data;
    } else {
      DataLinesFirst(lines, rest);
      FieldNoEol("data", lines[0]);
      ProcessLine("data" + ": " + lines[0], DataLines(lines[1..]) + rest, b);
      ReadData(lines[0], b);
      DataLinesProcess(lines[1..], b.(data := b.data + lines[0] + "\n"), rest);
      EndedFirst(b.data, lines);
    }
  }

  /** The lines, each ended by a line feed. */
  function Ended(lines: seq<string>): string {
    if lines == [] then "" else lines[0] + "\n" + Ended(lines[1..])
  }

  lemma {:induction false} EndedIsJoin(lines: seq<string>)
    requires lines != []
    ensures Ended(lines) == Join(lines, '\n') + "\n"
  {
    if |lines| == 1 {
      assert lines[1..] == [];
      assert lines[0] + "\n" + "" == lines[0] + "\n";
    } else {
      EndedIsJoin(lines[1..]);
    }
  }

  /** The payload as it can come back: every line without one carriage return at its end. */
  function Canonical(payload: string): string {
    Join(Trimmed(Split(payload, '\n')), '\n')
  }

  lemma DataDecodes(payload: string)
    requires forall i :: 0 <= i < |Split(payload, '\n')| ==> NoEol(TrimCr(Split(payload, '\n')[i]))
    ensures Decode(FrameText(Data(payload))) == [Event("message", Canonical(payload))]
  {
    var lines := Trimmed(Split(payload, '\n'));
    DataLinesProcess(lines, Buffers("", ""), "\n");
    EndedIsJoin(lines);
    var b := Buffers("" + Ended(lines), "");
    ProcessBlank(b);
    assert b.data == Canonical(payload) + "\n";
    assert b.data[..|b.data| - 1] == Canonical(payload);
  }

  // ----- carriage returns ---------------------------------------------------------------------

  lemma {:induction false} LinesNoEol(s: string)
    ensures forall k :: 0 <= k < |Lines(s)| ==> NoEol(Lines(s)[k])
    decreases |s|
  {
    var e := LineEnd(s, 0);
    if e < |s| { LinesNoEol(s[Next(s, e)..]); }
  }

  lemma ReadLineNoCr(b: Buffers, line: string)
    requires Free(b.data, '\r') && NoEol(line)
    ensures Free(ReadLine(b, line).data, '\r')
  {
  }

  /** No event ever carries a carriage return. */
  lemma {:induction false} ProcessNoCr(lines: seq<string>, b: Buffers)
    requires Free(b.data, '\r') && forall k :: 0 <= k < |lines| ==> NoEol(lines[k])
    ensures forall k :: 0 <= k < |Process(lines, b)| ==> Free(Process(lines, b)[k].data, '\r')
  {
    if lines != [] {
      if lines[0] == "" {
        ProcessNoCr(lines[1..], Buffers("", ""));
      } else {
        ReadLineNoCr(b, lines[0]);
        ProcessNoCr(lines[1..], ReadLine(b, lines[0]));
      }
    }
  }

  lemma DecodedNoCr(s: string, e: Event)
    requires Decode(s) == [e]
    ensures Free(e.data, '\r')
  {
    LinesNoEol(s);
    ProcessNoCr(Lines(s), Buffers("", ""));
    assert Process(Lines(s), Buffers("", ""))[0] == e;
  }

  lemma {:induction false} JoinFree(parts: seq<string>, c: char, x: char)
    requires c != x
    ensures Free(Join(parts, c), x) <==> forall k :: 0 <= k < |parts| ==> Free(parts[k], x)
  {
    if |parts| > 1 {
      var rest := Join(parts[1..], c);
      JoinFree(parts[1..], c, x);
      var all := parts[0] + [c] + rest;
      FreeConcat(parts[0] + [c], rest, x);
      FreeConcat(parts[0], [c], x);
      assert forall k :: 1 <= k < |parts| ==> parts[k] == parts[1..][k - 1];
      assert forall k :: 0 <= k < |parts| - 1 ==> parts[1..][k] == parts[k + 1];
    }
  }

  lemma FreeConcat(a: string, b: string, x: char)
    ensures Free(a + b, x) <==> Free(a, x) && Free(b, x)
  {
    var s := a + b;
    if Free(s, x) {
      forall i | 0 <= i < |a| ensures a[i] != x { assert s[i] == a[i]; }
      forall i | 0 <= i < |b| ensures b[i] != x { assert s[|a| + i] == b[i]; }
    }
  }

  /** A payload arrives as one event with its canonical text exactly when that text has no carriage return. */
  lemma DataDecodesIff(payload: string)
    ensures Decode(FrameText(Data(payload))) == [Event("message", Canonical(payload))]
            <==> Free(Canonical(payload), '\r')
  {
    var parts := Split(payload, '\n');
    if Free(Canonical(payload), '\r') {
      JoinFree(Trimmed(parts), '\n', '\r');
      SplitParts(payload, '\n', 0);
      forall i | 0 <= i < |parts| ensures NoEol(TrimCr(parts[i])) {
        assert Free(Trimmed(parts)[i], '\r') && Free(parts[i], '\n');
      }
      DataDecodes(payload);
    }
    if Decode(FrameText(Data(payload))) == [Event("message", Canonical(payload))] {
      DecodedNoCr(FrameText(Data(payload)), Event("message", Canonical(payload)));
    }
  }

  /** A payload comes back unchanged exactly when it has no carriage return. */
  lemma DataUnchangedIff(payload: string)
    ensures Decode(FrameText(Data(payload))) == [Event("message", payload)] <==> Free(payload, '\r')
  {
    var parts := Split(payload, '\n');
    SplitParts(payload, '\n', 0);
    assert payload[0..] == payload;
    if Free(payload, '\r') {
      JoinFree(parts, '\n', '\r');
      forall i | 0 <= i < |parts| ensures Trimmed(parts)[i] == parts[i] {
        assert Free(parts[i], '\r');
      }
      assert Trimmed(parts) == parts;
      DataDecodesIff(payload);
    }
    if Decode(FrameText(Data(payload))) == [Event("message", payload)] {
      DecodedNoCr(FrameText(Data(payload)), Event("message", payload));
    }
  }

  /** A carriage return at `k` is followed by a line feed or by the end. */
  predicate EndsLine(s: string, k: nat) {
    k + 1 >= |s| || s[k + 1] == '\n'
  }

  /** From `i` on, carriage returns stand only before a line feed or at the end. */
  predicate CrAtLineEnds(s: string, i: nat) {
    forall k :: i <= k < |s| && s[k] == '\r' ==> EndsLine(s, k)
  }

  function KeepChar(c: char): string {
    if c == '\r' then "" else [c]
  }

  function WithoutCr(s: string): string {
    if s == "" then "" else KeepChar(s[0]) + WithoutCr(s[1..])
  }

  lemma Associative(a: string, b: string, c: string)
    ensures a + (b + c) == a + b + c
  {
  }

  lemma {:induction false} WithoutCrConcat(a: string, b: string)
    ensures WithoutCr(a + b) == WithoutCr(a) + WithoutCr(b)
    decreases |a|
  {
    if a == "" {
      assert a + b == b;
    } else {
      assert (a + b)[1..] == a[1..] + b && (a + b)[0] == a[0];
      WithoutCrConcat(a[1..], b);
      Associative(KeepChar(a[0]), WithoutCr(a[1..]), WithoutCr(b));
    }
  }

  lemma {:induction false} WithoutCrFree(s: string)
    requires Free(s, '\r')
    ensures WithoutCr(s) == s
  {
    if s != "" {
      WithoutCrFree(s[1..]);
      assert KeepChar(s[0]) == [s[0]] && s == [s[0]] + s[1..];
    }
  }

  /** Within one line, trimming leaves no carriage return exactly if the only one is at its end. */
  lemma LineCr(s: string, i: nat, e: nat)
    requires i <= e <= |s| && (e < |s| ==> s[e] == '\n') && forall k :: i <= k < e ==> s[k] != '\n'
    ensures Free(TrimCr(s[i..e]), '\r') <==> forall k :: i <= k < e && s[k] == '\r' ==> EndsLine(s, k)
  {
    var line := s[i..e];
    assert forall k :: i <= k < e ==> line[k - i] == s[k];
    assert forall k :: i <= k < e ==> (EndsLine(s, k) <==> k + 1 == e);
    var trimmed := TrimCr(line);
    assert forall k :: i <= k < e - 1 ==> trimmed[k - i] == s[k];
    assert forall j :: 0 <= j < |trimmed| ==> trimmed[j] == s[i + j];
    if |trimmed| == e - i && i < e { assert trimmed[e - 1 - i] == s[e - 1]; }
  }

  lemma LoneReturn()
    ensures WithoutCr("\r") == ""
  {
    assert "\r"[1..] == "";
  }

  lemma LineWithoutCr(line: string)
    requires Free(TrimCr(line), '\r')
    ensures WithoutCr(line) == TrimCr(line)
  {
    var trimmed := TrimCr(line);
    WithoutCrFree(trimmed);
    if trimmed != line {
      assert line == trimmed + "\r";
      WithoutCrConcat(trimmed, "\r");
      LoneReturn();
    }
  }

  lemma {:induction false} PartsCr(s: string, i: nat)
    requires i <= |s|
    ensures var parts := SplitFrom(s, '\n', i);
            CrAtLineEnds(s, i) <==> AllTrimmedFree(parts)
    decreases |s| - i
  {
    var e := IndexFrom(s, '\n', i);
    LineCr(s, i, e);
    if e == |s| {
      var parts := SplitFrom(s, '\n', i);
      assert s[i..] == s[i..e];
      assert parts == [s[i..e]] && parts[1..] == [];
      FirstAndRest(parts);
    } else {
      PartsCr(s, e + 1);
      var parts, rest := SplitFrom(s, '\n', i), SplitFrom(s, '\n', e + 1);
      assert parts[0] == s[i..e] && parts[1..] == rest;
      FirstAndRest(parts);
      CrSplit(s, i, e);
    }
  }

  lemma CrSplit(s: string, i: nat, e: nat)
    requires i <= e < |s| && s[e] == '\n'
    ensures CrAtLineEnds(s, i) <==>
              (forall k :: i <= k < e && s[k] == '\r' ==> EndsLine(s, k)) && CrAtLineEnds(s, e + 1)
  {
  }

  predicate AllTrimmedFree(parts: seq<string>) {
    forall k :: 0 <= k < |parts| ==> Free(TrimCr(parts[k]), '\r')
  }

  lemma FirstAndRest(parts: seq<string>)
    requires parts != []
    ensures AllTrimmedFree(parts) <==> Free(TrimCr(parts[0]), '\r') && AllTrimmedFree(parts[1..])
  {
    assert forall k :: 1 <= k < |parts| ==> parts[k] == parts[1..][k - 1];
    assert forall k :: 0 <= k < |parts| - 1 ==> parts[1..][k] == parts[k + 1];
  }

  lemma TrimmedRest(parts: seq<string>)
    requires parts != []
    ensures Trimmed(parts) == [TrimCr(parts[0])] + Trimmed(parts[1..])
  {
  }

  lemma {:induction false} PartsWithoutCr(s: string, i: nat)
    requires i <= |s| && AllTrimmedFree(SplitFrom(s, '\n', i))
    ensures Join(Trimmed(SplitFrom(s, '\n', i)), '\n') == WithoutCr(s[i..])
    decreases |s| - i
  {
    var e := IndexFrom(s, '\n', i);
    var parts := SplitFrom(s, '\n', i);
    FirstAndRest(parts);
    if e == |s| {
      assert parts == [s[i..]];
      LineWithoutCr(s[i..]);
      assert Trimmed(parts) == [TrimCr(s[i..])];
    } else {
      var line, rest := s[i..e], SplitFrom(s, '\n', e + 1);
      assert parts[0] == line && parts[1..] == rest;
      PartsWithoutCr(s, e + 1);
      LineWithoutCr(line);
      TrimmedRest(parts);
      JoinCons(TrimCr(line), Trimmed(rest), '\n');
      WithoutCrLine(s, i, e);
    }
  }

  lemma WithoutCrLine(s: string, i: nat, e: nat)
    requires i <= e < |s| && s[e] == '\n'
    ensures WithoutCr(s[i..]) == WithoutCr(s[i..e]) + ['\n'] + WithoutCr(s[e + 1..])
  {
    CutAt(s, i, e);
    WithoutCrConcat(s[i..e] + ['\n'], s[e + 1..]);
    WithoutCrConcat(s[i..e], ['\n']);
    WithoutCrFree(['\n']);
  }

  /**
   Payloads whose carriage returns stand only before a line feed or at the end
   arrive as one event without those carriage returns; no other payload arrives
   as one event with its canonical text.
   */
  lemma DataRoundTrip(payload: string)
    ensures Decode(FrameText(Data(payload))) == [Event("message", Canonical(payload))] <==> CrAtLineEnds(payload, 0)
    ensures CrAtLineEnds(payload, 0) ==> Canonical(payload) == WithoutCr(payload)
  {
    var parts := Split(payload, '\n');
    DataDecodesIff(payload);
    JoinFree(Trimmed(parts), '\n', '\r');
    PartsCr(payload, 0);
    if CrAtLineEnds(payload, 0) {
      PartsWithoutCr(payload, 0);
      assert payload[0..] == payload;
    }
  }

  /** A carriage return that no line feed follows ends a line. */
  lemma LinesReturn(line: string, rest: string)
    requires NoEol(line) && rest != "" && rest[0] != '\n'
    ensures Lines(line + "\r" + rest) == [line] + Lines(rest)
  {
    var s := line + "\r" + rest;
    assert forall k :: 0 <= k < |line| ==> s[k] == line[k];
    LineEndIs(s, 0, |line|);
    assert s[|line| + 1] == rest[0];
    assert s[..|line|] == line && s[|line| + 1..] == rest;
  }

  lemma OneLinePayload(payload: string)
    requires Free(payload, '\n') && TrimCr(payload) == payload
    ensures FrameText(Data(payload)) == "data" + ": " + payload + "\n" + "\n"
  {
    SplitJoin([payload], '\n');
    assert Trimmed([payload]) == [payload] && [payload][1..] == [];
    assert DataLines([payload]) == DataLine(payload) + "";
  }

  /** A line without a colon that names no field of the buffers is ignored. */
  lemma Ignored(line: string, b: Buffers)
    requires Free(line, ':') && line != "data" && line != "event"
    ensures ReadLine(b, line) == b
  {
    IndexFromIs(line, ':', 0, |line|);
    assert line[..|line|] == line;
  }

  /**
   A carriage return inside a payload cuts it: the client gets what stands before,
   and what stands after reads as a line of its own.
   */
  lemma InnerReturnCuts(before: string, after: string)
    requires NoEol(before) && NoEol(after) && after != "" && Free(after, ':') && after != "data" && after != "event"
    ensures var payload := before + "\r" + after;
            !CrAtLineEnds(payload, 0) && Decode(FrameText(Data(payload))) == [Event("message", before)]
  {
    var payload := before + "\r" + after;
    assert payload[|before|] == '\r' && payload[|before| + 1] == after[0] && !EndsLine(payload, |before|);
    assert payload[|payload| - 1] == after[|after| - 1];
    OneLinePayload(payload);
    var line, rest := "data" + ": " + before, after + "\n" + "\n";
    FieldNoEol("data", before);
    assert FrameText(Data(payload)) == line + "\r" + rest;
    LinesReturn(line, rest);
    CutLine(line, after, rest, before);
  }

  lemma CutLine(line: string, after: string, rest: string, before: string)
    requires line == "data" + ": " + before && rest == after + "\n" + "\n" && NoEol(after) && after != ""
    requires Free(after, ':') && after != "data" && after != "event"
    ensures Process([line] + Lines(rest), Buffers("", "")) == [Event("message", before)]
  {
    var lines, b := [line] + Lines(rest), Buffers("" + before + "\n", "");
    assert lines[0] == line && lines[1..] == Lines(rest);
    ReadData(before, Buffers("", ""));
    ProcessLine(after, "\n", b);
    Ignored(after, b);
    ProcessBlank(b);
    assert b.data[..|b.data| - 1] == before;
  }
}
