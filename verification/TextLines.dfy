/**
 * Python's `str.splitlines` on texts whose only line breaks are LF, CR and CRLF, and the
 * body and ending of each line (services/api/netops_api/ingestion/redaction.py).
 */
module TextLines {

  predicate IsBreak(c: char) {
    c == '\n' || c == '\r'
  }

  predicate NoBreak(s: string) {
    forall i :: 0 <= i < |s| ==> !IsBreak(s[i])
  }

  /** Where the line that starts the text ends, its break included; CRLF is one break. */
  function LineEnd(s: string, i: nat): (end: nat)
    requires i <= |s|
    ensures i <= end <= |s|
    ensures i < |s| ==> i < end
    decreases |s| - i
  {
    if i == |s| then i
    else if s[i] == '\n' then i + 1
    else if s[i] == '\r' then (if i + 1 < |s| && s[i + 1] == '\n' then i + 2 else i + 1)
    else LineEnd(s, i + 1)
  }

  /** `text.splitlines(keepends=True)`. */
  function SplitLines(s: string): seq<string>
    decreases |s|
  {
    if s == "" then []
    else
      var end := LineEnd(s, 0);
      [s[..end]] + SplitLines(s[end..])
  }

  datatype Line = Line(body: string, ending: string) {
    function Text(): string {
      body + ending
    }
  }

  /** `_split_line_ending`. */
  function SplitLineEnding(line: string): Line {
    var n := |line|;
    if n >= 2 && line[n - 2] == '\r' && line[n - 1] == '\n' then Line(line[..n - 2], "\r\n")
    else if n >= 1 && IsBreak(line[n - 1]) then Line(line[..n - 1], [line[n - 1]])
    else Line(line, "")
  }

  function Endings(lines: seq<string>): seq<Line> {
    seq(|lines|, i requires 0 <= i < |lines| => SplitLineEnding(lines[i]))
  }

  function ParseLines(s: string): seq<Line> {
    Endings(SplitLines(s))
  }

  function JoinLines(lines: seq<Line>): string {
    if lines == [] then "" else lines[0].Text() + JoinLines(lines[1..])
  }

  // ---------------------------------------------------------------- what a split text looks like

  predicate IsEnding(s: string) {
    s == "\n" || s == "\r" || s == "\r\n"
  }

  /** A body without breaks, closed by a break, or non-empty and the last of its text. */
  predicate IsLine(line: Line, last: bool) {
    NoBreak(line.body) && (IsEnding(line.ending) || (last && line.ending == "" && line.body != ""))
  }

  /** A lone CR is not followed by a lone LF: together they would be one break. */
  predicate KeptApart(line: Line, next: Line) {
    line.ending == "\r" ==> !(next.body == "" && next.ending == "\n")
  }

  predicate IsSplit(lines: seq<Line>) {
    && (forall i :: 0 <= i < |lines| ==> IsLine(lines[i], i == |lines| - 1))
    && (forall i :: 0 <= i < |lines| - 1 ==> KeptApart(lines[i], lines[i + 1]))
  }

  ghost predicate IsFirstLine(s: string, end: nat)
    requires end <= |s|
  {
    var line := SplitLineEnding(s[..end]);
    && line.Text() == s[..end]
    && IsLine(line, end == |s|)
    && (line.ending == "\r" && end < |s| ==> s[end] != '\n')
  }

  lemma LineOf(s: string, i: nat, ending: string)
    requires i + |ending| <= |s| && NoBreak(s[..i]) && s[i..i + |ending|] == ending
    requires IsEnding(ending) || (ending == "" && i == |s| > 0)
    requires ending == "\r" && i + 1 < |s| ==> s[i + 1] != '\n'
    ensures IsFirstLine(s, i + |ending|)
  {
    var end := i + |ending|;
    var t := s[..end];
    assert t[..i] == s[..i] && t[i..] == ending;
    assert i > 0 ==> t[i - 1] == s[..i][i - 1];
    if ending == "" {
      assert SplitLineEnding(t) == Line(t, "");
    } else {
      assert SplitLineEnding(t) == Line(s[..i], ending);
    }
  }

  /** The first line of a text, and what follows it. */
  lemma {:induction false} FirstLine(s: string, i: nat)
    requires i <= |s| && NoBreak(s[..i]) && s != ""
    ensures IsFirstLine(s, LineEnd(s, i))
    decreases |s| - i
  {
    hide IsFirstLine;
    if i == |s| {
      LineOf(s, i, "");
    } else if !IsBreak(s[i]) {
      assert s[..i + 1] == s[..i] + [s[i]];
      FirstLine(s, i + 1);
    } else if s[i] == '\n' {
      LineOf(s, i, "\n");
    } else if i + 1 < |s| && s[i + 1] == '\n' {
      LineOf(s, i, "\r\n");
    } else {
      LineOf(s, i, "\r");
    }
  }

  lemma EndingsCons(first: string, rest: seq<string>)
    ensures Endings([first] + rest) == [SplitLineEnding(first)] + Endings(rest)
  {
    hide SplitLineEnding;
  }

  lemma FirstOfSplit(s: string)
    requires s != ""
    ensures LineEnd(s, 0) > 0
    ensures ParseLines(s) == [SplitLineEnding(s[..LineEnd(s, 0)])] + ParseLines(s[LineEnd(s, 0)..])
  {
    hide SplitLineEnding, LineEnd, Endings;
    EndingsCons(s[..LineEnd(s, 0)], SplitLines(s[LineEnd(s, 0)..]));
  }

  /** Splitting loses nothing and leaves the lines apart. */
  lemma {:induction false} SplitIsSplit(s: string)
    ensures IsSplit(ParseLines(s)) && JoinLines(ParseLines(s)) == s
    ensures s != "" ==> ParseLines(s) != [] && ParseLines(s)[0] == SplitLineEnding(s[..LineEnd(s, 0)])
    decreases |s|
  {
    hide SplitLineEnding, LineEnd, IsLine, IsFirstLine, KeptApart, IsSplit, ParseLines, JoinLines;
    if s == "" {
      NothingSplit();
    } else {
      var end := LineEnd(s, 0);
      FirstLine(s, 0);
      FirstOfSplit(s);
      SplitIsSplit(s[end..]);
      var line, rest := SplitLineEnding(s[..end]), ParseLines(s[end..]);
      FirstStaysApart(s, end, rest);
      ConsIsSplit(line, rest);
      assert s[..end] + s[end..] == s;
    }
  }

  lemma NothingSplit()
    ensures ParseLines("") == [] && IsSplit([]) && JoinLines([]) == ""
  {
  }

  lemma FirstStaysApart(s: string, end: nat, rest: seq<Line>)
    requires 0 < end <= |s| && IsFirstLine(s, end) && rest == ParseLines(s[end..])
    requires s[end..] != "" ==> rest != [] && rest[0] == SplitLineEnding(s[end..][..LineEnd(s[end..], 0)])
    ensures var line := SplitLineEnding(s[..end]);
            && line.Text() == s[..end]
            && IsLine(line, rest == [])
            && (rest != [] ==> KeptApart(line, rest[0]))
  {
    hide SplitLineEnding, LineEnd, IsLine, Line.Text;
    if s[end..] != "" {
      StartsWithBreak(s[end..]);
    } else {
      NothingSplit();
    }
  }

  lemma ConsIsSplit(line: Line, rest: seq<Line>)
    requires IsSplit(rest) && IsLine(line, rest == []) && (rest != [] ==> KeptApart(line, rest[0]))
    ensures IsSplit([line] + rest)
    ensures JoinLines([line] + rest) == line.Text() + JoinLines(rest)
  {
    hide IsLine, KeptApart;
    assert ([line] + rest)[1..] == rest;
  }

  lemma StartsWithBreak(s: string)
    requires s != ""
    ensures var line := SplitLineEnding(s[..LineEnd(s, 0)]);
            line.body == "" && line.ending == "\n" ==> s[0] == '\n'
  {
    FirstLine(s, 0);
  }

  lemma {:induction false} LineEndOfBody(line: Line, rest: string, i: nat)
    requires IsLine(line, rest == "") && i <= |line.body|
    requires line.ending == "\r" && rest != "" ==> rest[0] != '\n'
    ensures LineEnd(line.Text() + rest, i) == |line.Text()|
    decreases |line.body| - i
  {
    var s := line.Text() + rest;
    if i < |line.body| {
      assert s[i] == line.body[i];
      LineEndOfBody(line, rest, i + 1);
    } else if line.ending != "" {
      assert s[i] == line.ending[0];
      assert |line.ending| == 2 ==> s[i + 1] == line.ending[1];
    }
  }

  lemma SplitLineEndingOfText(line: Line)
    requires IsLine(line, true)
    ensures SplitLineEnding(line.Text()) == line
  {
    var s := line.Text();
    assert s[..|line.body|] == line.body;
    if line.ending == "\n" || line.ending == "" {
      assert |line.body| > 0 ==> s[|line.body| - 1] == line.body[|line.body| - 1];
    }
  }

  /** Lines that are apart come back from the text they are joined to. */
  lemma {:induction false} JoinedLinesSplitBack(lines: seq<Line>)
    requires IsSplit(lines)
    ensures ParseLines(JoinLines(lines)) == lines
    ensures lines != [] ==> JoinLines(lines) != ""
    ensures lines != [] && JoinLines(lines)[0] == '\n' ==> lines[0].body == "" && lines[0].ending == "\n"
    decreases |lines|
  {
    hide IsSplit, ParseLines, SplitLineEnding, LineEnd, IsLine, KeptApart, Line.Text;
    if lines == [] {
      NothingSplit();
    } else {
      var line, rest := lines[0], lines[1..];
      TailIsSplit(lines);
      JoinedLinesSplitBack(rest);
      TextThenRest(line, rest, JoinLines(rest));
      assert lines == [line] + rest;
    }
  }

  lemma TextThenRest(line: Line, rest: seq<Line>, text: string)
    requires IsLine(line, rest == []) && (rest != [] ==> KeptApart(line, rest[0]))
    requires ParseLines(text) == rest && (rest == [] <==> text == "")
    requires text != "" && text[0] == '\n' ==> rest[0].body == "" && rest[0].ending == "\n"
    ensures ParseLines(line.Text() + text) == [line] + rest
    ensures line.Text() + text != ""
    ensures (line.Text() + text)[0] == '\n' ==> line.body == "" && line.ending == "\n"
  {
    hide ParseLines, SplitLineEnding, LineEnd;
    var s := line.Text() + text;
    LineEndOfBody(line, text, 0);
    SplitLineEndingOfText(line);
    TextOfLine(line);
    hide IsLine, Line.Text;
    FirstOfSplit(s);
    assert s[..|line.Text()|] == line.Text();
    assert s[|line.Text()|..] == text;
  }

  lemma TailIsSplit(lines: seq<Line>)
    requires IsSplit(lines) && lines != []
    ensures IsSplit(lines[1..])
    ensures IsLine(lines[0], lines[1..] == []) && (lines[1..] != [] ==> KeptApart(lines[0], lines[1..][0]))
  {
    hide IsLine, KeptApart;
    var rest := lines[1..];
    forall i | 0 <= i < |rest| - 1
      ensures KeptApart(rest[i], rest[i + 1])
    {
      assert KeptApart(lines[i + 1], lines[i + 2]);
    }
    forall i | 0 <= i < |rest|
      ensures IsLine(rest[i], i == |rest| - 1)
    {
      assert IsLine(lines[i + 1], i + 1 == |lines| - 1);
    }
    assert IsLine(lines[0], 0 == |lines| - 1);
    assert |lines| > 1 ==> KeptApart(lines[0], lines[0 + 1]);
  }

  lemma TextOfLine(line: Line)
    requires IsLine(line, true)
    ensures line.Text() != ""
    ensures line.Text()[0] == '\n' ==> line.body == "" && line.ending == "\n"
  {
  }
}
