/**
 * The event stream on the wire: the printer of services/api/netops_api/api/events.py and the
 * incremental parser of packages/api-client/src/generated.ts. Text is a string of characters
 * and `data` is JSON text, which the printer writes without a raw newline.
 */
module Sse {
  import opened Base

  datatype StreamEvent = StreamEvent(id: string, data: string)

  /** What parsing one frame gives; `JSON.parse` raises on text that is not JSON. */
  datatype Parsed = Undefined | Event(event: StreamEvent) | SyntaxError

  /** What a consumer of the generator sees: the events yielded, and whether it then raised. */
  datatype Outcome = Outcome(events: seq<StreamEvent>, raised: bool) {
    function Then(later: Outcome): Outcome {
      if raised then this else Outcome(events + later.events, later.raised)
    }
  }

  // ---------------------------------------------------------------- the printer

  predicate OneLine(s: string) {
    '\n' !in s
  }

  predicate Printable(e: StreamEvent) {
    OneLine(e.id) && OneLine(e.data)
  }

  function FrameHead(e: StreamEvent): string {
    "id: " + e.id + "\nevent: case\ndata: "
  }

  function FrameBody(e: StreamEvent): string {
    FrameHead(e) + e.data
  }

  function Print(events: seq<StreamEvent>): string {
    if events == [] then "" else FrameBody(events[0]) + "\n\n" + Print(events[1..])
  }

  // ---------------------------------------------------------------- one frame

  /** `text.split('\n')`. */
  function Lines(text: string): (lines: seq<string>)
    ensures lines != []
    decreases |text|
  {
    if text == "" then [""]
    else if text[0] == '\n' then [""] + Lines(text[1..])
    else
      var rest := Lines(text[1..]);
      [[text[0]] + rest[0]] + rest[1..]
  }

  predicate HasField(line: string, name: string) {
    name <= line
  }

  function FieldValue(line: string, name: string): string
    requires HasField(line, name)
  {
    line[|name|..]
  }

  /** The value of the last line with this prefix. */
  function LastField(lines: seq<string>, name: string): Option<string> {
    if lines == [] then None
    else
      var last := lines[|lines| - 1];
      if HasField(last, name) then Some(FieldValue(last, name)) else LastField(lines[..|lines| - 1], name)
  }

  /** The values of all lines with this prefix, in order. */
  function AllFields(lines: seq<string>, name: string): seq<string> {
    if lines == [] then []
    else
      var last := lines[|lines| - 1];
      AllFields(lines[..|lines| - 1], name) + (if HasField(last, name) then [FieldValue(last, name)] else [])
  }

  /** `parts.join('\n')`. */
  function Join(parts: seq<string>): string {
    if parts == [] then "" else if |parts| == 1 then parts[0] else parts[0] + "\n" + Join(parts[1..])
  }

  function Assemble(id: Option<string>, event: Option<string>, data: seq<string>, json: string -> bool): Parsed {
    if id.None? || event != Some("case") || data == [] then Undefined
    else if json(Join(data)) then Event(StreamEvent(id.value, Join(data)))
    else SyntaxError
  }

  /** The fields of a frame do not depend on one another. */
  function ParseFrame(frame: string, json: string -> bool): Parsed {
    var lines := Lines(frame);
    Assemble(LastField(lines, "id: "), LastField(lines, "event: "), AllFields(lines, "data: "), json)
  }

  method ParseCaseEventFrame(frame: string, json: string -> bool) returns (parsed: Parsed)
    ensures parsed == ParseFrame(frame, json)
  {
    hide HasField, LastField, AllFields, Lines, Assemble;
    var id: Option<string>, event: Option<string>, data: seq<string> := None, None, [];
    var lines := Lines(frame);
    NoFields();
    assert lines[..0] == [];
    for i := 0 to |lines|
      invariant id == LastField(lines[..i], "id: ")
      invariant event == LastField(lines[..i], "event: ")
      invariant data == AllFields(lines[..i], "data: ")
    {
      var line := lines[i];
      FieldAppend(lines[..i], line, "id: ");
      FieldAppend(lines[..i], line, "event: ");
      FieldAppend(lines[..i], line, "data: ");
      FieldsExclusive(line);
      assert lines[..i + 1] == lines[..i] + [line];
      if HasField(line, "id: ") {
        id := Some(FieldValue(line, "id: "));
      } else if HasField(line, "event: ") {
        event := Some(FieldValue(line, "event: "));
      } else if HasField(line, "data: ") {
        data := data + [FieldValue(line, "data: ")];
      }
    }
    assert lines[..|lines|] == lines;
    parsed := Assemble(id, event, data, json);
  }

  lemma NoFields()
    ensures forall name :: LastField([], name) == None && AllFields([], name) == []
  {
  }

  lemma FieldAppend(front: seq<string>, line: string, name: string)
    ensures LastField(front + [line], name)
            == if HasField(line, name) then Some(FieldValue(line, name)) else LastField(front, name)
    ensures AllFields(front + [line], name)
            == if HasField(line, name) then AllFields(front, name) + [FieldValue(line, name)]
               else AllFields(front, name)
  {
    assert (front + [line])[..|front|] == front;
  }

  lemma FieldsExclusive(line: string)
    ensures HasField(line, "id: ") ==> !HasField(line, "event: ") && !HasField(line, "data: ")
    ensures HasField(line, "event: ") ==> !HasField(line, "data: ")
  {
    assert HasField(line, "id: ") ==> line[0] == 'i';
    assert HasField(line, "event: ") ==> line[0] == 'e';
    assert HasField(line, "data: ") ==> line[0] == 'd';
  }

  // ---------------------------------------------------------------- frames of a text

  predicate SeparatorAt(s: string, i: nat) {
    i + 2 <= |s| && s[i] == '\n' && s[i + 1] == '\n'
  }

  /** `s.indexOf('\n\n')`. */
  function FindSeparator(s: string): (r: Option<nat>)
    ensures r.Some? ==> SeparatorAt(s, r.value) && forall j :: 0 <= j < r.value ==> !SeparatorAt(s, j)
    ensures r.None? ==> forall j: nat :: !SeparatorAt(s, j)
  {
    FindFrom(s, 0)
  }

  function FindFrom(s: string, i: nat): (r: Option<nat>)
    requires forall j :: 0 <= j < i ==> !SeparatorAt(s, j)
    ensures r.Some? ==> SeparatorAt(s, r.value) && forall j :: 0 <= j < r.value ==> !SeparatorAt(s, j)
    ensures r.None? ==> forall j: nat :: !SeparatorAt(s, j)
    decreases |s| - i
  {
    if i + 2 > |s| then None
    else if SeparatorAt(s, i) then Some(i)
    else FindFrom(s, i + 1)
  }

  datatype Split = Split(frames: seq<string>, residue: string) {
    function Prepend(earlier: seq<string>): Split {
      Split(earlier + frames, residue)
    }
  }

  /** The complete frames of a text, and what follows the last separator. */
  function SplitFrames(s: string): Split
    decreases |s|
  {
    var separator := FindSeparator(s);
    if separator.None? then Split([], s)
    else
      SplitFrames(s[separator.value + 2..]).Prepend([s[..separator.value]])
  }

  lemma SeparatorStays(a: string, b: string)
    requires FindSeparator(a).Some?
    ensures FindSeparator(a + b) == FindSeparator(a)
  {
    var i := FindSeparator(a).value;
    assert SeparatorAt(a + b, i);
    assert forall j :: 0 <= j < i ==> SeparatorAt(a + b, j) == SeparatorAt(a, j);
  }

  lemma SplitOnce(s: string)
    ensures var separator := FindSeparator(s);
            SplitFrames(s)
            == if separator.None? then Split([], s)
               else SplitFrames(s[separator.value + 2..]).Prepend([s[..separator.value]])
  {
  }

  /** Frames that are complete stay complete when more text arrives; only the residue goes on. */
  lemma {:induction false} SplitConcat(a: string, b: string)
    ensures SplitFrames(a + b) == SplitFrames(SplitFrames(a).residue + b).Prepend(SplitFrames(a).frames)
    decreases |a|
  {
    hide SplitFrames;
    SplitOnce(a);
    var separator := FindSeparator(a);
    if separator.Some? {
      var i := separator.value;
      SeparatorStays(a, b);
      SplitOnce(a + b);
      assert (a + b)[..i] == a[..i];
      assert (a + b)[i + 2..] == a[i + 2..] + b;
      SplitConcat(a[i + 2..], b);
    }
  }

  /** Frames are parsed in order until one raises. */
  function Consume(frames: seq<string>, json: string -> bool): Outcome {
    if frames == [] then Outcome([], false)
    else
      match ParseFrame(frames[0], json)
      case SyntaxError => Outcome([], true)
      case Undefined => Consume(frames[1..], json)
      case Event(e) => Outcome([e], false).Then(Consume(frames[1..], json))
  }

  lemma {:induction false} ConsumeConcat(a: seq<string>, b: seq<string>, json: string -> bool)
    ensures Consume(a + b, json) == Consume(a, json).Then(Consume(b, json))
    decreases |a|
  {
    hide ParseFrame;
    if a == [] {
      assert a + b == b;
    } else {
      ConsumeConcat(a[1..], b, json);
      assert (a + b)[1..] == a[1..] + b;
    }
  }

  lemma ConsumeOne(done: seq<string>, frame: string, json: string -> bool)
    requires !Consume(done, json).raised
    ensures var before := Consume(done, json).events;
            Consume(done + [frame], json)
            == match ParseFrame(frame, json)
               case SyntaxError => Outcome(before, true)
               case Undefined => Outcome(before, false)
               case Event(e) => Outcome(before + [e], false)
  {
    hide ParseFrame;
    ConsumeConcat(done, [frame], json);
    assert [frame][1..] == [];
    assert Consume([], json) == Outcome([], false);
  }

  // ---------------------------------------------------------------- the incremental parser

  /** What a text means, however it is cut into chunks. */
  function Decode(text: string, json: string -> bool): Outcome {
    var split := SplitFrames(text);
    Consume(split.frames + [split.residue], json)
  }

  /** `streamCaseEvents`: the outcome depends on the text alone, not on where it was cut. */
  method StreamCaseEvents(chunks: seq<string>, json: string -> bool) returns (outcome: Outcome)
    ensures outcome == Decode(Concat(chunks), json)
  {
    hide ParseFrame, Consume, SplitFrames;
    var pending := "";
    var events: seq<StreamEvent> := [];
    ghost var done: seq<string> := [];
    NothingRead(json);
    assert chunks[..0] == [];
    for n := 0 to |chunks|
      invariant SplitFrames(Concat(chunks[..n])) == Split(done, pending)
      invariant Consume(done, json) == Outcome(events, false)
    {
      ConcatOneMore(chunks, n);
      SplitConcat(Concat(chunks[..n]), chunks[n]);
      pending := pending + chunks[n];
      var more: bool;
      ghost var text := Concat(chunks[..n + 1]);
      var separator := FindSeparator(pending);
      while separator.Some?
        invariant separator == FindSeparator(pending)
        invariant SplitFrames(text) == SplitFrames(pending).Prepend(done)
        invariant Consume(done, json) == Outcome(events, false)
        decreases |pending|
      {
        var frame := pending[..separator.value];
        SplitOnce(pending);
        ConsumeOne(done, frame, json);
        pending := pending[separator.value + 2..];
        var parsed := ParseCaseEventFrame(frame, json);
        done := done + [frame];
        if parsed.SyntaxError? {
          RaisedEarly(chunks, n + 1, done, SplitFrames(pending).frames, json);
          return Outcome(events, true);
        }
        if parsed.Event? {
          events := events + [parsed.event];
        }
        separator := FindSeparator(pending);
      }
      SplitOnce(pending);
      assert done + [] == done;
    }
    assert chunks[..|chunks|] == chunks;
    ConsumeOne(done, pending, json);
    var parsed := ParseCaseEventFrame(pending, json);
    if parsed.SyntaxError? {
      return Outcome(events, true);
    }
    return Outcome(if parsed.Event? then events + [parsed.event] else events, false);
  }

  lemma NothingRead(json: string -> bool)
    ensures SplitFrames(Concat<char>([])) == Split([], "") && Consume([], json) == Outcome([], false)
  {
  }

  /** When a frame raises, whatever comes later is never looked at. */
  lemma RaisedEarly(chunks: seq<string>, n: nat, done: seq<string>, rest: seq<string>, json: string -> bool)
    requires n <= |chunks| && Consume(done, json).raised
    requires SplitFrames(Concat(chunks[..n])).frames == done + rest
    ensures Decode(Concat(chunks), json) == Consume(done, json)
  {
    hide SplitFrames, Consume;
    FramesStay(chunks, n);
    var split := SplitFrames(Concat(chunks));
    var tail := rest + split.frames[|done + rest|..] + [split.residue];
    assert split.frames + [split.residue] == done + tail;
    ConsumeConcat(done, tail, json);
  }

  lemma {:induction false} FramesStay(chunks: seq<string>, n: nat)
    requires n <= |chunks|
    ensures SplitFrames(Concat(chunks[..n])).frames <= SplitFrames(Concat(chunks)).frames
    decreases |chunks| - n
  {
    hide SplitFrames;
    if n == |chunks| {
      assert chunks[..n] == chunks;
    } else {
      ConcatOneMore(chunks, n);
      SplitConcat(Concat(chunks[..n]), chunks[n]);
      FramesStay(chunks, n + 1);
    }
  }

  // ---------------------------------------------------------------- round trip

  lemma {:induction false} LinesOne(s: string)
    requires OneLine(s)
    ensures Lines(s) == [s]
  {
    if s != "" {
      LinesOne(s[1..]);
      assert [s[0]] + s[1..] == s;
    }
  }

  lemma {:induction false} LinesCons(s: string, rest: string)
    requires OneLine(s)
    ensures Lines(s + "\n" + rest) == [s] + Lines(rest)
    decreases |s|
  {
    if s == "" {
      assert s + "\n" + rest == ['\n'] + rest;
    } else {
      LinesCons(s[1..], rest);
      assert (s + "\n" + rest)[1..] == s[1..] + "\n" + rest;
      assert [s[0]] + s[1..] == s;
    }
  }

  function IdLine(e: StreamEvent): string {
    "id: " + e.id
  }

  function DataLine(data: string): string {
    "data: " + data
  }

  lemma HeadLines(e: StreamEvent, rest: string)
    requires Printable(e)
    ensures Lines(FrameHead(e) + rest) == [IdLine(e), "event: case"] + Lines(DataLine(rest))
  {
    hide Lines;
    LinesCons("event: case", DataLine(rest));
    LinesCons(IdLine(e), "event: case" + "\n" + DataLine(rest));
    assert FrameHead(e) + rest == IdLine(e) + "\n" + ("event: case" + "\n" + DataLine(rest));
  }

  lemma ThreeFields(e: StreamEvent, third: string, name: string)
    ensures var lines := [IdLine(e), "event: case", third];
            && LastField(lines, name)
               == (if HasField(third, name) then Some(FieldValue(third, name))
                   else LastField([IdLine(e), "event: case"], name))
            && AllFields(lines, name)
               == AllFields([IdLine(e), "event: case"], name)
                  + (if HasField(third, name) then [FieldValue(third, name)] else [])
  {
    var front := [IdLine(e), "event: case"];
    assert [IdLine(e), "event: case", third] == front + [third];
    FieldAppend(front, third, name);
  }

  lemma TwoFields(e: StreamEvent)
    ensures var lines := [IdLine(e), "event: case"];
            && LastField(lines, "id: ") == Some(e.id)
            && LastField(lines, "event: ") == Some("case")
            && AllFields(lines, "data: ") == []
  {
    NoFields();
    assert [IdLine(e), "event: case"] == ([] + [IdLine(e)]) + ["event: case"];
    IdFields(e);
    CaseFields([] + [IdLine(e)]);
  }

  lemma IdFields(e: StreamEvent)
    ensures LastField([] + [IdLine(e)], "id: ") == Some(e.id) && AllFields([] + [IdLine(e)], "data: ") == []
  {
    FieldsExclusive(IdLine(e));
    FieldAppend([], IdLine(e), "id: ");
    FieldAppend([], IdLine(e), "data: ");
    assert IdLine(e)[4..] == e.id;
  }

  lemma CaseFields(front: seq<string>)
    ensures var lines := front + ["event: case"];
            && LastField(lines, "id: ") == LastField(front, "id: ")
            && LastField(lines, "event: ") == Some("case")
            && AllFields(lines, "data: ") == AllFields(front, "data: ")
  {
    var line := "event: case";
    FieldsExclusive(line);
    assert line[..7] == "event: " && line[7..] == "case";
    FieldAppend(front, line, "id: ");
    FieldAppend(front, line, "event: ");
    FieldAppend(front, line, "data: ");
  }

  lemma DataFields(data: string)
    ensures HasField(DataLine(data), "data: ") && FieldValue(DataLine(data), "data: ") == data
    ensures !HasField(DataLine(data), "id: ") && !HasField(DataLine(data), "event: ")
  {
    assert DataLine(data)[..6] == "data: ";
    FieldsExclusive(DataLine(data));
  }

  /** A frame whose data line is cut after any number of characters is parsed with the data so far. */
  lemma DataLineParses(e: StreamEvent, data: string, json: string -> bool)
    requires Printable(e) && OneLine(data)
    ensures ParseFrame(FrameHead(e) + data, json) == if json(data) then Event(StreamEvent(e.id, data)) else SyntaxError
  {
    hide LastField, AllFields, HasField, IdLine, DataLine;
    HeadLines(e, data);
    assert OneLine(DataLine(data)) by { DataLineIsOneLine(data); }
    LinesOne(DataLine(data));
    var lines := [IdLine(e), "event: case", DataLine(data)];
    assert Lines(FrameHead(e) + data) == lines;
    TwoFields(e);
    DataFields(data);
    ThreeFields(e, DataLine(data), "id: ");
    ThreeFields(e, DataLine(data), "event: ");
    ThreeFields(e, DataLine(data), "data: ");
    assert AllFields(lines, "data: ") == [data];
  }

  lemma DataLineIsOneLine(data: string)
    requires OneLine(data)
    ensures OneLine(DataLine(data))
  {
  }

  /** Before the data line has begun, a cut frame carries no event. */
  lemma HeadAloneIsUndefined(e: StreamEvent, p: string, json: string -> bool)
    requires Printable(e) && p <= FrameHead(e) && p != FrameHead(e)
    ensures ParseFrame(p, json) == Undefined
  {
    hide LastField, AllFields, HasField;
    var first := IdLine(e);
    var second := first + "\n" + "event: case";
    assert FrameHead(e) == second + "\n" + "data: ";
    NoFields();
    if |p| <= |first| {
      assert p == first[..|p|];
      LinesOne(p);
      assert [] + [p] == [p];
      NotData(p, first, "data: ");
      FieldAppend([], p, "data: ");
    } else if |p| <= |second| {
      var q := "event: case"[..|p| - |first| - 1];
      assert p == first + "\n" + q;
      CutInSecondLine(e, q);
    } else {
      var q := "data: "[..|p| - |second| - 1];
      assert p == second + "\n" + q;
      assert p == FrameHead(e)[..|p|];
      CutInThirdLine(e, q);
    }
  }

  lemma NotData(p: string, line: string, name: string)
    requires p <= line && line != "" && name != "" && line[0] != name[0]
    ensures !HasField(p, name)
  {
  }

  lemma CutInSecondLine(e: StreamEvent, q: string)
    requires Printable(e) && q <= "event: case"
    ensures AllFields(Lines(IdLine(e) + "\n" + q), "data: ") == []
  {
    hide LastField, AllFields, HasField;
    LinesCons(IdLine(e), q);
    LinesOne(q);
    IdFields(e);
    NotData(q, "event: case", "data: ");
    FieldAppend([] + [IdLine(e)], q, "data: ");
    assert [IdLine(e)] + [q] == ([] + [IdLine(e)]) + [q];
  }

  lemma CutInThirdLine(e: StreamEvent, q: string)
    requires Printable(e) && q <= "data: " && |q| < 6
    ensures AllFields(Lines(IdLine(e) + "\n" + "event: case" + "\n" + q), "data: ") == []
  {
    hide LastField, AllFields, Lines;
    LinesCons("event: case", q);
    LinesCons(IdLine(e), "event: case" + "\n" + q);
    assert IdLine(e) + "\n" + "event: case" + "\n" + q == IdLine(e) + "\n" + ("event: case" + "\n" + q);
    LinesOfCut(q);
    TwoFields(e);
    var front := [IdLine(e), "event: case"];
    assert [IdLine(e)] + (["event: case"] + [q]) == front + [q];
    FieldAppend(front, q, "data: ");
  }

  lemma LinesOfCut(q: string)
    requires q <= "data: "
    ensures Lines(q) == [q]
  {
    LinesOne(q);
  }

  // ---------------------------------------------------------------- a printed text, complete or cut

  ghost predicate NoSeparator(s: string) {
    forall j: nat :: !SeparatorAt(s, j)
  }

  lemma BodyHasNoBlankLine(e: StreamEvent)
    requires Printable(e)
    ensures NoSeparator(FrameBody(e) + "\n")
  {
    var s := FrameBody(e) + "\n";
    var n, m := |IdLine(e)|, |IdLine(e)| + 1 + |"event: case"|;
    assert s == IdLine(e) + "\n" + "event: case" + "\n" + DataLine(e.data) + "\n";
    assert s[n + 1] == 'e' && s[m + 1] == 'd';
    forall j: nat
      ensures !SeparatorAt(s, j)
    {
      if j + 2 <= |s| && j != n && j != m {
        CharOfBody(e, j);
      }
    }
  }

  lemma CharOfBody(e: StreamEvent, j: nat)
    requires Printable(e) && j < |FrameBody(e)|
    requires j != |IdLine(e)| && j != |IdLine(e)| + 1 + |"event: case"|
    ensures FrameBody(e)[j] != '\n'
  {
    var s := FrameBody(e);
    var n, m := |IdLine(e)|, |IdLine(e)| + 1 + |"event: case"|;
    assert s[..n] == IdLine(e);
    assert s[n + 1..m] == "event: case";
    assert s[m + 1..] == DataLine(e.data);
    if j < n {
      assert s[j] == IdLine(e)[j];
    } else if j < m {
      assert s[j] == "event: case"[j - n - 1];
    } else {
      assert s[j] == DataLine(e.data)[j - m - 1];
    }
  }

  lemma BodyThenSeparator(e: StreamEvent, rest: string)
    requires Printable(e)
    ensures FindSeparator(FrameBody(e) + "\n\n" + rest) == Some(|FrameBody(e)|)
  {
    BodyHasNoBlankLine(e);
    var body := FrameBody(e);
    var s := body + "\n\n" + rest;
    assert SeparatorAt(s, |body|);
    forall j | 0 <= j < |body|
      ensures !SeparatorAt(s, j)
    {
      assert s[j] == (body + "\n")[j] && s[j + 1] == (body + "\n")[j + 1];
      assert !SeparatorAt(body + "\n", j);
    }
  }

  function Bodies(events: seq<StreamEvent>): seq<string> {
    seq(|events|, i requires 0 <= i < |events| => FrameBody(events[i]))
  }

  /** The frames of a printed text are the printed bodies, whatever follows. */
  lemma {:induction false} FramesOfPrint(events: seq<StreamEvent>, tail: string)
    requires forall i :: 0 <= i < |events| ==> Printable(events[i])
    ensures SplitFrames(Print(events) + tail) == SplitFrames(tail).Prepend(Bodies(events))
    decreases |events|
  {
    hide FrameBody, SplitFrames, Printable;
    if events == [] {
      assert Print(events) + tail == tail;
      assert Bodies(events) == [];
    } else {
      var body := FrameBody(events[0]);
      var rest := Print(events[1..]) + tail;
      assert Print(events) + tail == body + "\n\n" + rest;
      BodyThenSeparator(events[0], rest);
      SplitOnce(body + "\n\n" + rest);
      assert (body + "\n\n" + rest)[..|body|] == body;
      assert (body + "\n\n" + rest)[|body| + 2..] == rest;
      FramesOfPrint(events[1..], tail);
      assert Bodies(events) == [body] + Bodies(events[1..]);
    }
  }

  lemma {:induction false} ConsumeBodies(events: seq<StreamEvent>, json: string -> bool)
    requires forall i :: 0 <= i < |events| ==> Printable(events[i]) && json(events[i].data)
    ensures Consume(Bodies(events), json) == Outcome(events, false)
    decreases |events|
  {
    hide ParseFrame, FrameBody, FrameHead, Printable, OneLine;
    if events != [] {
      BodyParses(events[0], json);
      ConsumeBodies(events[1..], json);
      assert Bodies(events)[1..] == Bodies(events[1..]);
    }
  }

  lemma BodyParses(e: StreamEvent, json: string -> bool)
    requires Printable(e) && json(e.data)
    ensures ParseFrame(FrameBody(e), json) == Event(e)
  {
    DataLineParses(e, e.data, json);
  }

  /** A text that ends within a frame: the complete frames, then what the cut frame parses to. */
  lemma DecodeCut(events: seq<StreamEvent>, p: string, json: string -> bool)
    requires forall i :: 0 <= i < |events| ==> Printable(events[i]) && json(events[i].data)
    requires NoSeparator(p)
    ensures Decode(Print(events) + p, json) == Outcome(events, false).Then(Consume([p], json))
  {
    hide SplitFrames, Consume, Printable, FrameBody;
    FramesOfPrint(events, p);
    SplitOnce(p);
    ConsumeBodies(events, json);
    assert Bodies(events) + [] == Bodies(events);
    ConsumeConcat(Bodies(events), [p], json);
  }

  lemma ConsumeSingle(p: string, json: string -> bool)
    ensures Consume([p], json)
            == match ParseFrame(p, json)
               case SyntaxError => Outcome([], true)
               case Undefined => Outcome([], false)
               case Event(e) => Outcome([e], false)
  {
    hide ParseFrame;
    assert [p][1..] == [];
    assert Consume([], json) == Outcome([], false);
  }

  /**
   * Round trip: a consumer of any chunking of the printed stream sees exactly the printed
   * events, in order, and the parser is left with nothing.
   */
  lemma PrintedStreamRoundTrips(events: seq<StreamEvent>, json: string -> bool)
    requires forall i :: 0 <= i < |events| ==> Printable(events[i]) && json(events[i].data)
    ensures Decode(Print(events), json) == Outcome(events, false)
    ensures SplitFrames(Print(events)).residue == ""
  {
    hide Consume, Printable, FrameBody, ParseFrame;
    assert Print(events) + "" == Print(events);
    DecodeCut(events, "", json);
    FramesOfPrint(events, "");
    ConsumeSingle("", json);
    EmptyFrame(json);
  }

  lemma EmptyFrame(json: string -> bool)
    ensures ParseFrame("", json) == Undefined
  {
    assert Lines("") == [""];
    NoFields();
    assert [""] == [] + [""];
    FieldAppend([], "", "data: ");
  }

  /**
   * A truncated stream yields the complete frames. The frame that was cut adds nothing while its
   * data line has not begun; once it has, the partial data is parsed, so the consumer gets the
   * event if the data is whole and a syntax error otherwise.
   */
  lemma TruncatedStream(events: seq<StreamEvent>, next: StreamEvent, p: string, json: string -> bool)
    requires forall i :: 0 <= i < |events| ==> Printable(events[i]) && json(events[i].data)
    requires Printable(next) && json(next.data)
    requires forall n :: 0 <= n < |next.data| ==> !json(next.data[..n])
    requires p <= FrameBody(next) + "\n"
    ensures Decode(Print(events) + p, json)
            == if |p| < |FrameHead(next)| then Outcome(events, false)
               else if |p| < |FrameBody(next)| then Outcome(events, true)
               else Outcome(events + [next], false)
  {
    hide Consume, Decode, ParseFrame;
    CutHasNoBlankLine(next, p);
    DecodeCut(events, p, json);
    ConsumeSingle(p, json);
    CutFrame(next, p, json);
  }

  lemma CutHasNoBlankLine(next: StreamEvent, p: string)
    requires Printable(next) && p <= FrameBody(next) + "\n"
    ensures NoSeparator(p)
  {
    BodyHasNoBlankLine(next);
    forall j: nat
      ensures !SeparatorAt(p, j)
    {
      assert !SeparatorAt(FrameBody(next) + "\n", j);
    }
  }

  lemma CutFrame(next: StreamEvent, p: string, json: string -> bool)
    requires Printable(next) && json(next.data)
    requires forall n :: 0 <= n < |next.data| ==> !json(next.data[..n])
    requires p <= FrameBody(next) + "\n"
    ensures ParseFrame(p, json)
            == if |p| < |FrameHead(next)| then Undefined
               else if |p| < |FrameBody(next)| then SyntaxError
               else Event(next)
  {
    hide ParseFrame, FrameHead;
    if |p| < |FrameHead(next)| {
      HeadAloneIsUndefined(next, p, json);
    } else if |p| <= |FrameBody(next)| {
      var n := |p| - |FrameHead(next)|;
      assert p == FrameHead(next) + next.data[..n];
      DataLineParses(next, next.data[..n], json);
      assert next.data[..|next.data|] == next.data;
    } else {
      assert p == FrameBody(next) + "\n";
      BodyWithNewline(next, json);
      BodyParses(next, json);
    }
  }

  lemma BodyWithNewline(e: StreamEvent, json: string -> bool)
    requires Printable(e)
    ensures ParseFrame(FrameBody(e) + "\n", json) == ParseFrame(FrameBody(e), json)
  {
    hide LastField, AllFields, HasField, IdLine, DataLine;
    HeadLines(e, e.data + "\n");
    HeadLines(e, e.data);
    DataLineIsOneLine(e.data);
    LinesOne(DataLine(e.data));
    LinesCons(DataLine(e.data), "");
    DataLineNewline(e.data);
    assert FrameBody(e) + "\n" == FrameHead(e) + (e.data + "\n");
    var lines := [IdLine(e), "event: case", DataLine(e.data)];
    assert [IdLine(e), "event: case"] + ([DataLine(e.data)] + [""]) == lines + [""];
    assert [IdLine(e), "event: case"] + [DataLine(e.data)] == lines;
    BlankLineHasNoField();
    FieldAppend(lines, "", "id: ");
    FieldAppend(lines, "", "event: ");
    FieldAppend(lines, "", "data: ");
  }

  lemma DataLineNewline(data: string)
    ensures DataLine(data + "\n") == DataLine(data) + "\n" + ""
  {
  }

  lemma BlankLineHasNoField()
    ensures !HasField("", "id: ") && !HasField("", "event: ") && !HasField("", "data: ")
  {
  }

  // ---------------------------------------------------------------- which frames are events

  ghost predicate HasLine(lines: seq<string>, name: string) {
    exists i :: 0 <= i < |lines| && name <= lines[i]
  }

  /** The last line of this name has this value. */
  ghost predicate LastLineIs(lines: seq<string>, name: string, value: string) {
    exists i :: 0 <= i < |lines| && lines[i] == name + value && forall j :: i < j < |lines| ==> !(name <= lines[j])
  }

  lemma {:induction false} LastFieldMeaning(lines: seq<string>, name: string)
    ensures LastField(lines, name).Some? <==> HasLine(lines, name)
    ensures forall value :: LastField(lines, name) == Some(value) <==> LastLineIs(lines, name, value)
  {
    if lines != [] {
      var n := |lines| - 1;
      var front := lines[..n];
      LastFieldMeaning(front, name);
      assert forall i :: 0 <= i < n ==> front[i] == lines[i];
      if HasField(lines[n], name) {
        var value := FieldValue(lines[n], name);
        assert lines[n] == name + value;
        assert LastLineIs(lines, name, value);
      } else {
        SameLastLine(lines, name);
      }
    }
  }

  lemma SameLastLine(lines: seq<string>, name: string)
    requires lines != [] && !HasField(lines[|lines| - 1], name)
    ensures HasLine(lines, name) <==> HasLine(lines[..|lines| - 1], name)
    ensures forall value :: LastLineIs(lines, name, value) <==> LastLineIs(lines[..|lines| - 1], name, value)
  {
    var n := |lines| - 1;
    var front := lines[..n];
    if HasLine(front, name) {
      var i :| 0 <= i < n && name <= front[i];
      assert name <= lines[i];
    }
    forall value
      ensures LastLineIs(lines, name, value) <==> LastLineIs(front, name, value)
    {
      if LastLineIs(front, name, value) {
        var i :| 0 <= i < n && front[i] == name + value && forall j :: i < j < n ==> !(name <= front[j]);
        assert lines[i] == name + value;
        assert forall j :: i < j < |lines| ==> j == n || lines[j] == front[j];
      }
      if LastLineIs(lines, name, value) {
        var i :| 0 <= i < |lines| && lines[i] == name + value && forall j :: i < j < |lines| ==> !(name <= lines[j]);
        assert name <= lines[i];
        assert front[i] == name + value;
      }
    }
  }

  lemma {:induction false} AllFieldsMeaning(lines: seq<string>, name: string)
    ensures AllFields(lines, name) != [] <==> HasLine(lines, name)
  {
    if lines != [] {
      var n := |lines| - 1;
      AllFieldsMeaning(lines[..n], name);
      if HasField(lines[n], name) {
        assert name <= lines[n];
      } else {
        SameLastLine(lines, name);
      }
    }
  }

  /**
   * A frame is an event exactly when it has an id, its last event line says case, and it has data; the
   * last id counts.
   */
  lemma FrameMeaning(frame: string, json: string -> bool)
    ensures var lines := Lines(frame);
            ParseFrame(frame, json) == Undefined
            <==> !HasLine(lines, "id: ") || !LastLineIs(lines, "event: ", "case") || !HasLine(lines, "data: ")
    ensures ParseFrame(frame, json).Event? ==>
      && LastLineIs(Lines(frame), "id: ", ParseFrame(frame, json).event.id)
      && json(ParseFrame(frame, json).event.data)
  {
    hide LastField, AllFields, HasLine, LastLineIs, Lines;
    var lines := Lines(frame);
    LastFieldMeaning(lines, "id: ");
    LastFieldMeaning(lines, "event: ");
    AllFieldsMeaning(lines, "data: ");
  }

  /** Joining undoes splitting: the data lines of a frame are the lines of its data. */
  lemma {:induction false} JoinedLinesSplit(parts: seq<string>)
    requires parts != [] && forall i :: 0 <= i < |parts| ==> OneLine(parts[i])
    ensures Lines(Join(parts)) == parts
    decreases |parts|
  {
    hide Lines, OneLine;
    if |parts| == 1 {
      LinesOne(parts[0]);
    } else {
      JoinedLinesSplit(parts[1..]);
      LinesCons(parts[0], Join(parts[1..]));
      assert parts == [parts[0]] + parts[1..];
    }
  }
}
