/**
 * Deterministic redaction of a device configuration
 * (services/api/netops_api/ingestion/redaction.py). The inline patterns are arbitrary match
 * finders, so what is proved holds of any list of patterns; the private-key markers are
 * matched as the source matches them.
 */
module Redaction {
  import opened Base
  import opened TextLines

  datatype Rule =
    | IkeV1PreSharedKey
    | IkeV2PreSharedKey
    | UsernameSecret
    | Password
    | SnmpCommunity
    | PrivateKeyBlock
    | BearerToken
    | ApiKey

  function RuleId(rule: Rule): string {
    match rule
    case IkeV1PreSharedKey => "cisco.ikev1_pre_shared_key"
    case IkeV2PreSharedKey => "cisco.ikev2_pre_shared_key"
    case UsernameSecret => "cisco.username_secret"
    case Password => "cisco.password"
    case SnmpCommunity => "cisco.snmp_community"
    case PrivateKeyBlock => "credential.private_key_block"
    case BearerToken => "credential.bearer_token"
    case ApiKey => "credential.api_key"
  }

  /** The rules in the order of their ids. */
  const RULES_BY_ID: seq<Rule> := [
    IkeV1PreSharedKey, IkeV2PreSharedKey, Password, SnmpCommunity, UsernameSecret, ApiKey, BearerToken, PrivateKeyBlock]

  function Marker(rule: Rule): string {
    "<redacted:" + RuleId(rule) + ">"
  }

  // ---------------------------------------------------------------- private-key markers

  function ToUpper(c: char): char {
    if 'a' <= c <= 'z' then c - 'a' + 'A' else c
  }

  function Upper(s: string): string {
    seq(|s|, i requires 0 <= i < |s| => ToUpper(s[i]))
  }

  predicate UpperAlphanumeric(c: char) {
    'A' <= c <= 'Z' || '0' <= c <= '9'
  }

  /** `^\s*-----<word>(?: [A-Z0-9]+)? PRIVATE KEY-----\s*$`, ignoring case. */
  predicate IsKeyMarker(body: string, word: string) {
    var s, head, tail := Upper(Strip(body)), "-----" + word, " PRIVATE KEY-----";
    && |head| + |tail| <= |s|
    && s[..|head|] == head
    && s[|s| - |tail|..] == tail
    && var algorithm := s[|head|..|s| - |tail|];
       algorithm == ""
       || (|algorithm| > 1 && algorithm[0] == ' '
           && forall i :: 1 <= i < |algorithm| ==> UpperAlphanumeric(algorithm[i]))
  }

  predicate Begins(body: string) {
    IsKeyMarker(body, "BEGIN")
  }

  predicate Ends(body: string) {
    IsKeyMarker(body, "END")
  }

  /** `_redact_entire_line`: the indentation stays. */
  function RedactEntireLine(body: string): string {
    body[..|body| - |LStrip(body)|] + Marker(PrivateKeyBlock)
  }

  // ---------------------------------------------------------------- inline patterns

  /** The secret group of one match. */
  datatype Span = Span(start: nat, end: nat)

  /** A pattern finds its matches from left to right, without overlap. */
  datatype InlineRule = InlineRule(rule: Rule, matches: string -> seq<Span>)

  predicate SpansIn(spans: seq<Span>, length: nat) {
    && (forall i :: 0 <= i < |spans| ==> spans[i].start <= spans[i].end <= length)
    && (forall i, j :: 0 <= i < j < |spans| ==> spans[i].end <= spans[j].start)
  }

  ghost predicate IsPattern(rule: InlineRule) {
    && rule.rule != PrivateKeyBlock
    && forall s :: SpansIn(rule.matches(s), |s|)
  }

  /** `pattern.subn`: every secret is replaced by the marker, everything else stays. */
  function Substitute(s: string, spans: seq<Span>, marker: string): string
    requires SpansIn(spans, |s|)
    decreases |spans|
  {
    if spans == [] then s
    else
      var last := spans[|spans| - 1];
      Substitute(s[..last.start], spans[..|spans| - 1], marker) + marker + s[last.end..]
  }

  ghost predicate ArePatterns(rules: seq<InlineRule>) {
    forall i :: 0 <= i < |rules| ==> IsPattern(rules[i])
  }

  /** The body after the first patterns, each applied to what the ones before it left. */
  ghost function AfterRules(body: string, rules: seq<InlineRule>): string
    requires ArePatterns(rules)
  {
    if rules == [] then body
    else
      var n := |rules| - 1;
      var before := AfterRules(body, rules[..n]);
      Substitute(before, rules[n].matches(before), Marker(rules[n].rule))
  }

  // ---------------------------------------------------------------- counters

  /** One call of `_record_match`. */
  datatype Match = Match(rule: Rule, lineNumber: nat, occurrences: nat)

  datatype RuleCounter = RuleCounter(lineNumbers: set<nat>, occurrenceCount: nat)

  datatype Counts = Counts(counters: map<Rule, RuleCounter>, redactedLines: set<nat>) {
    function Counter(rule: Rule): RuleCounter {
      if rule in counters then counters[rule] else RuleCounter({}, 0)
    }

    function After(m: Match): Counts {
      var c := Counter(m.rule);
      Counts(counters[m.rule := RuleCounter(c.lineNumbers + {m.lineNumber}, c.occurrenceCount + m.occurrences)],
             redactedLines + {m.lineNumber})
    }
  }

  function CountsOf(matches: seq<Match>): Counts {
    if matches == [] then Counts(map[], {})
    else CountsOf(matches[..|matches| - 1]).After(matches[|matches| - 1])
  }

  class Tally {
    var counters: map<Rule, RuleCounter>
    var redactedLines: set<nat>

    constructor ()
      ensures Value() == CountsOf([])
    {
      counters, redactedLines := map[], {};
    }

    function Value(): Counts
      reads this
    {
      Counts(counters, redactedLines)
    }

    method RecordMatch(rule: Rule, lineNumber: nat, occurrences: nat)
      modifies this
      ensures Value() == old(Value()).After(Match(rule, lineNumber, occurrences))
    {
      var counter := if rule in counters then counters[rule] else RuleCounter({}, 0);
      counters := counters[rule :=
        RuleCounter(counter.lineNumbers + {lineNumber}, counter.occurrenceCount + occurrences)];
      redactedLines := redactedLines + {lineNumber};
    }
  }

  datatype RuleSummary = RuleSummary(rule: Rule, lineCount: nat, occurrenceCount: nat)

  datatype Report = Report(sourceLineCount: nat, redactedLineCount: nat, rules: seq<RuleSummary>)

  function Summaries(rules: seq<Rule>, counts: Counts): seq<RuleSummary> {
    if rules == [] then []
    else
      var rest := Summaries(rules[1..], counts);
      if rules[0] in counts.counters
      then
        var c := counts.counters[rules[0]];
        [RuleSummary(rules[0], |c.lineNumbers|, c.occurrenceCount)] + rest
      else rest
  }

  function ReportOf(lineCount: nat, counts: Counts): Report {
    Report(lineCount, |counts.redactedLines|, Summaries(RULES_BY_ID, counts))
  }

  // ---------------------------------------------------------------- which lines are redacted whole

  ghost predicate OpenSince(lines: seq<Line>, b: nat, i: nat)
    requires i <= |lines|
  {
    b < i && Begins(lines[b].body) && forall e :: b <= e < i ==> !Ends(lines[e].body)
  }

  /** Some earlier line begins a private key that no line since has ended. */
  ghost predicate KeyOpen(lines: seq<Line>, i: nat)
    requires i <= |lines|
  {
    exists b: nat :: OpenSince(lines, b, i)
  }

  ghost predicate RedactedWhole(lines: seq<Line>, i: nat)
    requires i < |lines|
  {
    Begins(lines[i].body) || KeyOpen(lines, i)
  }

  ghost function RedactedBody(lines: seq<Line>, rules: seq<InlineRule>, i: nat): string
    requires i < |lines| && ArePatterns(rules)
  {
    if RedactedWhole(lines, i) then RedactEntireLine(lines[i].body) else AfterRules(lines[i].body, rules)
  }

  ghost function RedactedLines(lines: seq<Line>, rules: seq<InlineRule>): seq<Line>
    requires ArePatterns(rules)
  {
    seq(|lines|, i requires 0 <= i < |lines| => Line(RedactedBody(lines, rules, i), lines[i].ending))
  }

  /** The matches that the patterns record on one line, which is not redacted whole. */
  ghost function InlineMatches(body: string, rules: seq<InlineRule>, lineNumber: nat): seq<Match>
    requires ArePatterns(rules)
  {
    if rules == [] then []
    else
      var n := |rules| - 1;
      var found := |rules[n].matches(AfterRules(body, rules[..n]))|;
      InlineMatches(body, rules[..n], lineNumber)
        + (if found > 0 then [Match(rules[n].rule, lineNumber, found)] else [])
  }

  ghost function LineMatches(lines: seq<Line>, rules: seq<InlineRule>, i: nat): seq<Match>
    requires i < |lines| && ArePatterns(rules)
  {
    if RedactedWhole(lines, i)
    then [Match(PrivateKeyBlock, i + 1, if Begins(lines[i].body) then 1 else 0)]
    else InlineMatches(lines[i].body, rules, i + 1)
  }

  ghost function MatchesUpTo(lines: seq<Line>, rules: seq<InlineRule>, n: nat): seq<Match>
    requires n <= |lines| && ArePatterns(rules)
  {
    if n == 0 then [] else MatchesUpTo(lines, rules, n - 1) + LineMatches(lines, rules, n - 1)
  }

  // ---------------------------------------------------------------- the redactor

  lemma KeyOpenNext(lines: seq<Line>, i: nat)
    requires i < |lines|
    ensures KeyOpen(lines, i + 1) <==> RedactedWhole(lines, i) && !Ends(lines[i].body)
  {
    hide Begins, Ends;
    if KeyOpen(lines, i + 1) {
      var b: nat :| OpenSince(lines, b, i + 1);
      if b < i {
        assert OpenSince(lines, b, i);
      }
    }
    if RedactedWhole(lines, i) && !Ends(lines[i].body) {
      if Begins(lines[i].body) {
        assert OpenSince(lines, i, i + 1);
      } else {
        var b: nat :| OpenSince(lines, b, i);
        assert OpenSince(lines, b, i + 1);
      }
    }
  }

  lemma AfterRulesNext(body: string, rules: seq<InlineRule>, j: nat, lineNumber: nat)
    requires j < |rules| && ArePatterns(rules)
    ensures ArePatterns(rules[..j]) && ArePatterns(rules[..j + 1])
    ensures var before := AfterRules(body, rules[..j]); var found := rules[j].matches(before);
            && AfterRules(body, rules[..j + 1]) == Substitute(before, found, Marker(rules[j].rule))
            && InlineMatches(body, rules[..j + 1], lineNumber)
               == InlineMatches(body, rules[..j], lineNumber)
                  + (if |found| > 0 then [Match(rules[j].rule, lineNumber, |found|)] else [])
  {
    assert rules[..j + 1][..j] == rules[..j];
    assert IsPattern(rules[j]);
  }

  lemma CountsAppend(matches: seq<Match>, m: Match)
    ensures CountsOf(matches + [m]) == CountsOf(matches).After(m)
  {
    assert (matches + [m])[..|matches|] == matches;
  }

  /** Applies the patterns to one line, recording what each replaced. */
  method RedactInline(body: string, rules: seq<InlineRule>, lineNumber: nat, tally: Tally, ghost before: seq<Match>)
    returns (redacted: string)
    requires ArePatterns(rules) && tally.Value() == CountsOf(before)
    modifies tally
    ensures redacted == AfterRules(body, rules)
    ensures tally.Value() == CountsOf(before + InlineMatches(body, rules, lineNumber))
  {
    hide CountsOf, AfterRules, InlineMatches, IsPattern, SpansIn, Substitute;
    redacted := body;
    NoRules(body, rules, lineNumber);
    assert before + [] == before;
    for j := 0 to |rules|
      invariant redacted == AfterRules(body, rules[..j])
      invariant tally.Value() == CountsOf(before + InlineMatches(body, rules[..j], lineNumber))
    {
      AfterRulesNext(body, rules, j, lineNumber);
      var rule := rules[j];
      var found := rule.matches(redacted);
      PatternSpans(rule, redacted);
      redacted := Substitute(redacted, found, Marker(rule.rule));
      if |found| > 0 {
        CountsAppend(before + InlineMatches(body, rules[..j], lineNumber), Match(rule.rule, lineNumber, |found|));
        tally.RecordMatch(rule.rule, lineNumber, |found|);
        assert before + InlineMatches(body, rules[..j], lineNumber) + [Match(rule.rule, lineNumber, |found|)]
            == before + InlineMatches(body, rules[..j + 1], lineNumber);
      } else {
        assert InlineMatches(body, rules[..j], lineNumber) + [] == InlineMatches(body, rules[..j], lineNumber);
      }
    }
    assert rules[..|rules|] == rules;
  }

  lemma NoRules(body: string, rules: seq<InlineRule>, lineNumber: nat)
    requires ArePatterns(rules)
    ensures forall j :: 0 <= j <= |rules| ==> ArePatterns(rules[..j])
    ensures rules[..0] == [] && AfterRules(body, []) == body && InlineMatches(body, [], lineNumber) == []
  {
  }

  lemma PatternSpans(rule: InlineRule, s: string)
    requires IsPattern(rule)
    ensures SpansIn(rule.matches(s), |s|)
  {
  }

  method RedactCiscoConfig(source: string, rules: seq<InlineRule>) returns (content: string, report: Report)
    requires ArePatterns(rules)
    ensures var lines := ParseLines(source);
            && content == JoinLines(RedactedLines(lines, rules))
            && report == ReportOf(|lines|, CountsOf(MatchesUpTo(lines, rules, |lines|)))
  {
    hide CountsOf, AfterRules, InlineMatches, IsPattern, ParseLines, Begins, Ends, KeyOpen, RedactEntireLine, Line.Text;
    var tally := new Tally();
    var privateKeyOpen := false;
    content := "";
    var sourceLines := ParseLines(source);
    NothingOpen(sourceLines);
    for i := 0 to |sourceLines|
      invariant privateKeyOpen == KeyOpen(sourceLines, i)
      invariant content == JoinLines(RedactedLines(sourceLines, rules)[..i])
      invariant tally.Value() == CountsOf(MatchesUpTo(sourceLines, rules, i))
    {
      var body, ending := sourceLines[i].body, sourceLines[i].ending;
      var beginsPrivateKey := Begins(body);
      var endsPrivateKey := Ends(body);
      ghost var before := MatchesUpTo(sourceLines, rules, i);
      KeyOpenNext(sourceLines, i);
      JoinOneMore(RedactedLines(sourceLines, rules), i);
      if privateKeyOpen || beginsPrivateKey {
        CountsAppend(before, Match(PrivateKeyBlock, i + 1, if beginsPrivateKey then 1 else 0));
        tally.RecordMatch(PrivateKeyBlock, i + 1, if beginsPrivateKey then 1 else 0);
        content := content + Line(RedactEntireLine(body), ending).Text();
        privateKeyOpen := !endsPrivateKey;
      } else {
        var redacted := RedactInline(body, rules, i + 1, tally, before);
        content := content + Line(redacted, ending).Text();
      }
    }
    var all := RedactedLines(sourceLines, rules);
    assert all[..|sourceLines|] == all;
    report := ReportOf(|sourceLines|, Counts(tally.counters, tally.redactedLines));
  }

  lemma NothingOpen(lines: seq<Line>)
    ensures !KeyOpen(lines, 0)
  {
  }

  lemma {:induction false} JoinConcat(a: seq<Line>, b: seq<Line>)
    ensures JoinLines(a + b) == JoinLines(a) + JoinLines(b)
    decreases |a|
  {
    hide Line.Text;
    if a == [] {
      assert a + b == b;
    } else {
      JoinConcat(a[1..], b);
      assert (a + b)[1..] == a[1..] + b;
    }
  }

  lemma JoinOneMore(lines: seq<Line>, i: nat)
    requires i < |lines|
    ensures JoinLines(lines[..i + 1]) == JoinLines(lines[..i]) + lines[i].Text()
  {
    hide Line.Text;
    assert lines[..i + 1] == lines[..i] + [lines[i]];
    JoinConcat(lines[..i], [lines[i]]);
    assert [lines[i]][1..] == [];
  }

  // ---------------------------------------------------------------- line structure

  lemma MarkerHasNoBreak(rule: Rule)
    ensures NoBreak(Marker(rule)) && Marker(rule) != ""
  {
    RuleIdHasNoBreak(rule);
  }

  lemma RuleIdHasNoBreak(rule: Rule)
    ensures NoBreak(RuleId(rule))
  {
    hide RuleId, NoBreak;
    if rule.PrivateKeyBlock? || rule.BearerToken? || rule.ApiKey? {
      CredentialIdHasNoBreak(rule);
    } else {
      CiscoIdHasNoBreak(rule);
    }
  }

  lemma CredentialIdHasNoBreak(rule: Rule)
    requires rule.PrivateKeyBlock? || rule.BearerToken? || rule.ApiKey?
    ensures NoBreak(RuleId(rule))
  {
    var id := RuleId(rule);
    assert '\n' !in id && '\r' !in id;
  }

  lemma CiscoIdHasNoBreak(rule: Rule)
    requires !rule.PrivateKeyBlock? && !rule.BearerToken? && !rule.ApiKey?
    ensures NoBreak(RuleId(rule))
  {
    var id := RuleId(rule);
    assert '\n' !in id && '\r' !in id;
  }

  lemma {:induction false} SubstituteKeepsBody(s: string, spans: seq<Span>, marker: string)
    requires SpansIn(spans, |s|) && NoBreak(s) && NoBreak(marker) && marker != ""
    ensures NoBreak(Substitute(s, spans, marker))
    ensures Substitute(s, spans, marker) == "" ==> s == ""
    ensures spans == [] ==> Substitute(s, spans, marker) == s
    decreases |spans|
  {
    if spans != [] {
      var last := spans[|spans| - 1];
      SubstituteKeepsBody(s[..last.start], spans[..|spans| - 1], marker);
    }
  }

  lemma {:induction false} RulesKeepBody(body: string, rules: seq<InlineRule>)
    requires ArePatterns(rules) && NoBreak(body)
    ensures NoBreak(AfterRules(body, rules)) && (AfterRules(body, rules) == "" ==> body == "")
    decreases |rules|
  {
    hide NoBreak, Substitute, Marker, SpansIn;
    if rules != [] {
      var n := |rules| - 1;
      RulesKeepBody(body, rules[..n]);
      assert IsPattern(rules[n]);
      var before := AfterRules(body, rules[..n]);
      MarkerHasNoBreak(rules[n].rule);
      SubstituteKeepsBody(before, rules[n].matches(before), Marker(rules[n].rule));
    }
  }

  lemma WholeLineKeepsBody(body: string)
    requires NoBreak(body)
    ensures NoBreak(RedactEntireLine(body)) && RedactEntireLine(body) != ""
  {
    hide Marker;
    MarkerHasNoBreak(PrivateKeyBlock);
  }

  lemma RedactedBodyIsBody(lines: seq<Line>, rules: seq<InlineRule>, i: nat)
    requires i < |lines| && ArePatterns(rules) && NoBreak(lines[i].body)
    ensures NoBreak(RedactedBody(lines, rules, i))
    ensures RedactedBody(lines, rules, i) == "" ==> lines[i].body == ""
  {
    hide AfterRules, RedactEntireLine, NoBreak, RedactedWhole;
    RulesKeepBody(lines[i].body, rules);
    WholeLineKeepsBody(lines[i].body);
  }

  lemma RedactedLinesAreSplit(lines: seq<Line>, rules: seq<InlineRule>)
    requires ArePatterns(rules) && IsSplit(lines)
    ensures IsSplit(RedactedLines(lines, rules))
  {
    hide RedactedBody, NoBreak, IsPattern;
    var redacted := RedactedLines(lines, rules);
    forall i | 0 <= i < |lines|
      ensures IsLine(redacted[i], i == |redacted| - 1)
      ensures redacted[i].body == "" ==> lines[i].body == ""
    {
      assert IsLine(lines[i], i == |lines| - 1);
      RedactedBodyIsBody(lines, rules, i);
    }
    hide IsLine;
    forall i | 0 <= i < |lines| - 1
      ensures KeptApart(redacted[i], redacted[i + 1])
    {
      assert KeptApart(lines[i], lines[i + 1]);
    }
  }

  /** Splitting the output again gives the same number of lines with the same endings in order. */
  lemma RedactionKeepsLineStructure(source: string, rules: seq<InlineRule>)
    requires ArePatterns(rules)
    ensures var lines := ParseLines(source); var output := ParseLines(JoinLines(RedactedLines(lines, rules)));
            && |output| == |lines|
            && forall i :: 0 <= i < |lines| ==>
                 output[i].ending == lines[i].ending && output[i].body == RedactedBody(lines, rules, i)
  {
    hide RedactedBody, IsSplit, ParseLines, JoinLines;
    SplitIsSplit(source);
    RedactedLinesAreSplit(ParseLines(source), rules);
    JoinedLinesSplitBack(RedactedLines(ParseLines(source), rules));
  }

  // ---------------------------------------------------------------- what the report counts

  function LinesOf(matches: seq<Match>, rule: Rule): set<nat> {
    set m | m in matches && m.rule == rule :: m.lineNumber
  }

  function AllLines(matches: seq<Match>): set<nat> {
    set m | m in matches :: m.lineNumber
  }

  lemma LinesOneMore(matches: seq<Match>, m: Match, rule: Rule)
    ensures LinesOf(matches + [m], rule)
            == if m.rule == rule then LinesOf(matches, rule) + {m.lineNumber} else LinesOf(matches, rule)
    ensures AllLines(matches + [m]) == AllLines(matches) + {m.lineNumber}
  {
  }

  /** The counters hold the recorded lines of each rule, and the redacted lines are their union. */
  lemma {:induction false} CountsHoldLines(matches: seq<Match>, rule: Rule)
    ensures CountsOf(matches).Counter(rule).lineNumbers == LinesOf(matches, rule)
    ensures CountsOf(matches).redactedLines == AllLines(matches)
    ensures rule in CountsOf(matches).counters <==> LinesOf(matches, rule) != {}
  {
    hide LinesOf, AllLines;
    if matches == [] {
      NoLines(rule);
    } else {
      var n := |matches| - 1;
      CountsHoldLines(matches[..n], rule);
      LinesOneMore(matches[..n], matches[n], rule);
      assert matches[..n] + [matches[n]] == matches;
    }
  }

  lemma NoLines(rule: Rule)
    ensures LinesOf([], rule) == {} && AllLines([]) == {}
  {
  }

  /** The bounds between the lines and the occurrences of one rule, over lines 1..n. */
  ghost predicate Bounded(counts: Counts, rule: Rule, n: nat) {
    var c := counts.Counter(rule);
    && (forall l :: l in c.lineNumbers ==> 1 <= l <= n)
    && (if rule == PrivateKeyBlock then c.occurrenceCount <= |c.lineNumbers| else |c.lineNumbers| <= c.occurrenceCount)
  }

  lemma WholeLineBounded(counts: Counts, rule: Rule, n: nat, occurrences: nat)
    requires Bounded(counts, rule, n) && occurrences <= 1
    ensures Bounded(counts.After(Match(PrivateKeyBlock, n + 1, occurrences)), rule, n + 1)
  {
  }

  lemma InlineMatchBounded(counts: Counts, rule: Rule, lineNumber: nat, m: Match)
    requires Bounded(counts, rule, lineNumber) && m.rule != PrivateKeyBlock
    requires m.lineNumber == lineNumber >= 1 && m.occurrences > 0
    ensures Bounded(counts.After(m), rule, lineNumber)
  {
  }

  lemma {:induction false} InlineBounded(
      before: seq<Match>, body: string, rules: seq<InlineRule>, rule: Rule, lineNumber: nat)
    requires ArePatterns(rules) && lineNumber >= 1 && Bounded(CountsOf(before), rule, lineNumber)
    ensures Bounded(CountsOf(before + InlineMatches(body, rules, lineNumber)), rule, lineNumber)
    decreases |rules|
  {
    hide CountsOf, InlineMatches, Bounded, Counts.After, IsPattern;
    if rules == [] {
      NoRules(body, rules, lineNumber);
      assert before + [] == before;
    } else {
      var n := |rules| - 1;
      AfterRulesNext(body, rules, n, lineNumber);
      assert rules[..n + 1] == rules;
      InlineBounded(before, body, rules[..n], rule, lineNumber);
      var sofar := before + InlineMatches(body, rules[..n], lineNumber);
      var found := |rules[n].matches(AfterRules(body, rules[..n]))|;
      if found > 0 {
        var m := Match(rules[n].rule, lineNumber, found);
        CountsAppend(sofar, m);
        PatternIsInline(rules[n]);
        InlineMatchBounded(CountsOf(sofar), rule, lineNumber, m);
        assert before + InlineMatches(body, rules, lineNumber) == sofar + [m];
      } else {
        assert before + InlineMatches(body, rules, lineNumber) == sofar;
      }
    }
  }

  lemma PatternIsInline(rule: InlineRule)
    requires IsPattern(rule)
    ensures rule.rule != PrivateKeyBlock
  {
  }

  lemma BoundedLater(counts: Counts, rule: Rule, n: nat)
    requires Bounded(counts, rule, n)
    ensures Bounded(counts, rule, n + 1)
  {
  }

  lemma {:induction false} CountsBounded(lines: seq<Line>, rules: seq<InlineRule>, n: nat, rule: Rule)
    requires n <= |lines| && ArePatterns(rules)
    ensures Bounded(CountsOf(MatchesUpTo(lines, rules, n)), rule, n)
  {
    hide CountsOf, InlineMatches, Begins, Bounded, KeyOpen, IsPattern, Counts.After;
    if n == 0 {
      NothingBounded(rule);
    } else {
      var before := MatchesUpTo(lines, rules, n - 1);
      CountsBounded(lines, rules, n - 1, rule);
      if RedactedWhole(lines, n - 1) {
        var occurrences := if Begins(lines[n - 1].body) then 1 else 0;
        CountsAppend(before, Match(PrivateKeyBlock, n, occurrences));
        WholeLineBounded(CountsOf(before), rule, n - 1, occurrences);
      } else {
        BoundedLater(CountsOf(before), rule, n - 1);
        InlineBounded(before, lines[n - 1].body, rules, rule, n);
      }
    }
  }

  lemma NothingBounded(rule: Rule)
    ensures Bounded(CountsOf([]), rule, 0)
  {
  }

  lemma {:induction false} InlineMatchesAreInline(body: string, rules: seq<InlineRule>, lineNumber: nat)
    requires ArePatterns(rules)
    ensures forall m :: m in InlineMatches(body, rules, lineNumber) ==>
      m.rule != PrivateKeyBlock && m.lineNumber == lineNumber
    ensures NoBreak(body) && InlineMatches(body, rules, lineNumber) == [] ==> AfterRules(body, rules) == body
    decreases |rules|
  {
    hide NoBreak, Marker, Substitute;
    if rules != [] {
      var n := |rules| - 1;
      assert IsPattern(rules[n]);
      InlineMatchesAreInline(body, rules[..n], lineNumber);
      if NoBreak(body) && InlineMatches(body, rules, lineNumber) == [] {
        MarkerHasNoBreak(rules[n].rule);
        SubstituteKeepsBody(body, [], Marker(rules[n].rule));
      }
    }
  }

  lemma {:induction false} MatchesOfLine(lines: seq<Line>, rules: seq<InlineRule>, n: nat, m: Match)
    requires n <= |lines| && ArePatterns(rules)
    ensures m in MatchesUpTo(lines, rules, n)
            <==> 1 <= m.lineNumber <= n && m in LineMatches(lines, rules, m.lineNumber - 1)
  {
    hide InlineMatches, KeyOpen, Begins, IsPattern;
    if n > 0 {
      MatchesOfLine(lines, rules, n - 1, m);
      InlineMatchesAreInline(lines[n - 1].body, rules, n);
    }
  }

  /** A line counts for the private-key rule exactly when it is replaced whole. */
  lemma PrivateKeyLinesAreWhole(lines: seq<Line>, rules: seq<InlineRule>, i: nat)
    requires i < |lines| && ArePatterns(rules)
    ensures var counts := CountsOf(MatchesUpTo(lines, rules, |lines|));
            i + 1 in counts.Counter(PrivateKeyBlock).lineNumbers <==> RedactedWhole(lines, i)
  {
    hide CountsOf, InlineMatches, MatchesUpTo, KeyOpen, Begins, IsPattern;
    var matches := MatchesUpTo(lines, rules, |lines|);
    CountsHoldLines(matches, PrivateKeyBlock);
    InlineMatchesAreInline(lines[i].body, rules, i + 1);
    if RedactedWhole(lines, i) {
      var m := Match(PrivateKeyBlock, i + 1, if Begins(lines[i].body) then 1 else 0);
      MatchesOfLine(lines, rules, |lines|, m);
    }
    if i + 1 in LinesOf(matches, PrivateKeyBlock) {
      var m :| m in matches && m.rule == PrivateKeyBlock && m.lineNumber == i + 1;
      MatchesOfLine(lines, rules, |lines|, m);
    }
  }

  /** A line that is not counted as redacted is copied unchanged. */
  lemma UncountedLinesAreCopied(source: string, rules: seq<InlineRule>, i: nat)
    requires ArePatterns(rules) && i < |ParseLines(source)|
    requires var lines := ParseLines(source); i + 1 !in CountsOf(MatchesUpTo(lines, rules, |lines|)).redactedLines
    ensures var lines := ParseLines(source); RedactedLines(lines, rules)[i] == lines[i]
  {
    hide CountsOf, InlineMatches, MatchesUpTo, KeyOpen, Begins, IsPattern, ParseLines, AfterRules;
    var lines := ParseLines(source);
    SplitIsSplit(source);
    assert IsLine(lines[i], i == |lines| - 1);
    var matches := MatchesUpTo(lines, rules, |lines|);
    CountsHoldLines(matches, PrivateKeyBlock);
    InlineMatchesAreInline(lines[i].body, rules, i + 1);
    var here := LineMatches(lines, rules, i);
    if here != [] {
      MatchesOfLine(lines, rules, |lines|, here[0]);
    }
  }

  // ---------------------------------------------------------------- the report

  lemma {:induction false} SummariesMeaning(rules: seq<Rule>, counts: Counts)
    ensures forall s :: s in Summaries(rules, counts) <==>
      s.rule in rules && s.rule in counts.counters
      && s == RuleSummary(s.rule, |counts.Counter(s.rule).lineNumbers|, counts.Counter(s.rule).occurrenceCount)
  {
    if rules != [] {
      SummariesMeaning(rules[1..], counts);
    }
  }

  lemma SubsetSize(some: set<nat>, all: set<nat>)
    requires some <= all
    ensures |some| <= |all|
  {
    if some != {} {
      var x :| x in some;
      SubsetSize(some - {x}, all - {x});
    }
  }

  lemma {:induction false} NumbersUpTo(lines: set<nat>, n: nat)
    requires forall l :: l in lines ==> 1 <= l <= n
    ensures |lines| <= n
  {
    if n in lines {
      NumbersUpTo(lines - {n}, n - 1);
    } else if n > 0 {
      NumbersUpTo(lines, n - 1);
    } else {
      assert lines == {};
    }
  }

  lemma RedactedLinesInRange(lines: seq<Line>, rules: seq<InlineRule>)
    requires ArePatterns(rules)
    ensures var matches := MatchesUpTo(lines, rules, |lines|);
            forall l :: l in AllLines(matches) ==> 1 <= l <= |lines|
  {
    hide MatchesUpTo, LineMatches, IsPattern;
    var matches := MatchesUpTo(lines, rules, |lines|);
    forall m | m in matches
      ensures 1 <= m.lineNumber <= |lines|
    {
      MatchesOfLine(lines, rules, |lines|, m);
    }
  }

  /** What a reader of the report may conclude, rule by rule and over all rules. */
  lemma ReportIsConsistent(source: string, rules: seq<InlineRule>, s: RuleSummary)
    requires ArePatterns(rules)
    requires var lines := ParseLines(source);
             s in ReportOf(|lines|, CountsOf(MatchesUpTo(lines, rules, |lines|))).rules
    ensures var lines := ParseLines(source); var matches := MatchesUpTo(lines, rules, |lines|);
            var report := ReportOf(|lines|, CountsOf(matches));
            && report.redactedLineCount == |AllLines(matches)|
            && s.lineCount == |LinesOf(matches, s.rule)|
            && LinesOf(matches, s.rule) <= AllLines(matches)
            && 1 <= s.lineCount <= report.redactedLineCount <= report.sourceLineCount
            && (if s.rule == PrivateKeyBlock then s.occurrenceCount <= s.lineCount
                else s.lineCount <= s.occurrenceCount)
  {
    hide CountsOf, MatchesUpTo, ParseLines, IsPattern;
    var lines := ParseLines(source);
    var matches := MatchesUpTo(lines, rules, |lines|);
    SummariesMeaning(RULES_BY_ID, CountsOf(matches));
    CountsHoldLines(matches, s.rule);
    CountsBounded(lines, rules, |lines|, s.rule);
    assert LinesOf(matches, s.rule) <= AllLines(matches);
    SubsetSize(LinesOf(matches, s.rule), AllLines(matches));
    RedactedLinesInRange(lines, rules);
    NumbersUpTo(AllLines(matches), |lines|);
  }

  ghost predicate ReportedLine(report: Report, matches: seq<Match>, l: nat) {
    exists s :: s in report.rules && l in LinesOf(matches, s.rule)
  }

  lemma MatchIsReported(matches: seq<Match>, lineCount: nat, m: Match)
    requires m in matches
    ensures ReportedLine(ReportOf(lineCount, CountsOf(matches)), matches, m.lineNumber)
  {
    hide CountsOf;
    CountsHoldLines(matches, m.rule);
    assert m.lineNumber in LinesOf(matches, m.rule);
    EveryRuleListed(m.rule);
    var c := CountsOf(matches).Counter(m.rule);
    SummariesMeaning(RULES_BY_ID, CountsOf(matches));
    assert RuleSummary(m.rule, |c.lineNumbers|, c.occurrenceCount) in Summaries(RULES_BY_ID, CountsOf(matches));
  }

  lemma EveryRuleListed(rule: Rule)
    ensures rule in RULES_BY_ID
  {
    assert RULES_BY_ID[0] == IkeV1PreSharedKey && RULES_BY_ID[1] == IkeV2PreSharedKey && RULES_BY_ID[2] == Password
        && RULES_BY_ID[3] == SnmpCommunity && RULES_BY_ID[4] == UsernameSecret && RULES_BY_ID[5] == ApiKey
        && RULES_BY_ID[6] == BearerToken && RULES_BY_ID[7] == PrivateKeyBlock;
  }

  /** The redacted lines are the union of the line sets of the reported rules. */
  lemma RedactedLinesAreUnion(source: string, rules: seq<InlineRule>)
    requires ArePatterns(rules)
    ensures var lines := ParseLines(source); var matches := MatchesUpTo(lines, rules, |lines|);
            var report := ReportOf(|lines|, CountsOf(matches));
            && CountsOf(matches).redactedLines == AllLines(matches)
            && report.redactedLineCount == |AllLines(matches)|
            && forall l :: l in AllLines(matches) <==> ReportedLine(report, matches, l)
  {
    hide CountsOf, MatchesUpTo, ParseLines, IsPattern, ReportOf;
    var lines := ParseLines(source);
    var matches := MatchesUpTo(lines, rules, |lines|);
    CountsHoldLines(matches, PrivateKeyBlock);
    RedactedCount(|lines|, matches);
    forall l | l in AllLines(matches)
      ensures ReportedLine(ReportOf(|lines|, CountsOf(matches)), matches, l)
    {
      var m :| m in matches && m.lineNumber == l;
      MatchIsReported(matches, |lines|, m);
    }
  }

  lemma RedactedCount(lineCount: nat, matches: seq<Match>)
    ensures ReportOf(lineCount, CountsOf(matches)).redactedLineCount == |AllLines(matches)|
  {
    hide CountsOf;
    CountsHoldLines(matches, PrivateKeyBlock);
  }

  // ---------------------------------------------------------------- what is left of a secret

  /** A line of a private key leaves nothing but its indentation and the marker. */
  lemma WholeLineShowsNothing(lines: seq<Line>, rules: seq<InlineRule>, i: nat) returns (n: nat)
    requires i < |lines| && ArePatterns(rules) && RedactedWhole(lines, i)
    ensures n <= |lines[i].body| && (forall j :: 0 <= j < n ==> lines[i].body[j] in " \t\n\r")
    ensures n == |lines[i].body| || lines[i].body[n] !in " \t\n\r"
    ensures RedactedLines(lines, rules)[i].ending == lines[i].ending
    ensures RedactedLines(lines, rules)[i].body
            == lines[i].body[..n] + "<redacted:credential.private_key_block>"
  {
    hide RedactedWhole, AfterRules;
    var body := lines[i].body;
    LStripIsSuffix(body);
    n := |body| - |LStrip(body)|;
    PrivateKeyMarker();
  }

  lemma PrivateKeyMarker()
    ensures Marker(PrivateKeyBlock) == "<redacted:credential.private_key_block>"
  {
  }

  /** The text from position `from`, with every later span replaced by the marker. */
  function Woven(s: string, spans: seq<Span>, marker: string, from: nat): string
    requires SpansIn(spans, |s|) && from <= |s| && (spans != [] ==> from <= spans[0].start)
    decreases |spans|
  {
    if spans == [] then s[from..]
    else s[from..spans[0].start] + marker + Woven(s, spans[1..], marker, spans[0].end)
  }

  lemma PartsOfSpans(spans: seq<Span>, length: nat)
    requires SpansIn(spans, length) && spans != []
    ensures SpansIn(spans[1..], length) && SpansIn(spans[..|spans| - 1], spans[|spans| - 1].start)
  {
  }

  lemma {:induction false} WovenLast(s: string, spans: seq<Span>, marker: string, from: nat)
    requires SpansIn(spans, |s|) && spans != [] && from <= spans[0].start
    ensures var last := spans[|spans| - 1];
            && SpansIn(spans[..|spans| - 1], last.start)
            && (|spans| > 1 ==> from <= spans[..|spans| - 1][0].start)
            && Woven(s, spans, marker, from)
               == Woven(s[..last.start], spans[..|spans| - 1], marker, from) + marker + s[last.end..]
    decreases |spans|
  {
    var last := spans[|spans| - 1];
    PartsOfSpans(spans, |s|);
    if |spans| == 1 {
      assert spans[1..] == [] && spans[..0] == [];
      assert s[..last.start][from..] == s[from..last.start];
    } else {
      WovenLast(s, spans[1..], marker, spans[0].end);
      var front := spans[..|spans| - 1];
      assert spans[1..][..|spans| - 2] == front[1..];
      assert s[..last.start][from..spans[0].start] == s[from..spans[0].start];
    }
  }

  /**
   * Substitution keeps exactly the text before, between and after the matched spans, in order,
   * with one marker in the place of each: nothing of a span is left.
   */
  lemma {:induction false} SubstituteWeaves(s: string, spans: seq<Span>, marker: string)
    requires SpansIn(spans, |s|)
    ensures Substitute(s, spans, marker) == Woven(s, spans, marker, 0)
    decreases |spans|
  {
    if spans == [] {
      assert s[0..] == s;
    } else {
      var last := spans[|spans| - 1];
      PartsOfSpans(spans, |s|);
      SubstituteWeaves(s[..last.start], spans[..|spans| - 1], marker);
      WovenLast(s, spans, marker, 0);
    }
  }

  lemma IkeV1Marker()
    ensures Marker(IkeV1PreSharedKey) == "<redacted:cisco.ikev1_pre_shared_key>"
  {
  }

  lemma IkeV2Marker()
    ensures Marker(IkeV2PreSharedKey) == "<redacted:cisco.ikev2_pre_shared_key>"
  {
  }

  lemma UsernameMarker()
    ensures Marker(UsernameSecret) == "<redacted:cisco.username_secret>"
  {
  }

  lemma PasswordMarker()
    ensures Marker(Password) == "<redacted:cisco.password>"
  {
  }

  lemma CommunityMarker()
    ensures Marker(SnmpCommunity) == "<redacted:cisco.snmp_community>"
  {
  }

  lemma BearerMarker()
    ensures Marker(BearerToken) == "<redacted:credential.bearer_token>"
  {
  }

  lemma ApiKeyMarker()
    ensures Marker(ApiKey) == "<redacted:credential.api_key>"
  {
  }

  /** The text that takes the place of a secret, rule by rule. */
  function MarkerText(rule: Rule): string {
    match rule
    case IkeV1PreSharedKey => "<redacted:cisco.ikev1_pre_shared_key>"
    case IkeV2PreSharedKey => "<redacted:cisco.ikev2_pre_shared_key>"
    case UsernameSecret => "<redacted:cisco.username_secret>"
    case Password => "<redacted:cisco.password>"
    case SnmpCommunity => "<redacted:cisco.snmp_community>"
    case PrivateKeyBlock => "<redacted:credential.private_key_block>"
    case BearerToken => "<redacted:credential.bearer_token>"
    case ApiKey => "<redacted:credential.api_key>"
  }

  lemma MarkersAre(rule: Rule)
    ensures Marker(rule) == MarkerText(rule)
  {
    hide Marker;
    match rule
    case IkeV1PreSharedKey => IkeV1Marker();
    case IkeV2PreSharedKey => IkeV2Marker();
    case UsernameSecret => UsernameMarker();
    case Password => PasswordMarker();
    case SnmpCommunity => CommunityMarker();
    case PrivateKeyBlock => PrivateKeyMarker();
    case BearerToken => BearerMarker();
    case ApiKey => ApiKeyMarker();
  }

  /** One pattern's work on a line: the text outside its matches, woven with its rule's marker. */
  lemma PatternWork(body: string, rules: seq<InlineRule>)
    requires ArePatterns(rules) && rules != []
    ensures var n := |rules| - 1; var before := AfterRules(body, rules[..n]); var spans := rules[n].matches(before);
            && SpansIn(spans, |before|)
            && AfterRules(body, rules) == Woven(before, spans, MarkerText(rules[n].rule), 0)
  {
    hide Substitute, Woven, Marker, MarkerText;
    var n := |rules| - 1;
    assert IsPattern(rules[n]);
    var before := AfterRules(body, rules[..n]);
    MarkersAre(rules[n].rule);
    SubstituteWeaves(before, rules[n].matches(before), Marker(rules[n].rule));
  }

  // ---------------------------------------------------------------- which lines are markers of a key

  /** An algorithm name such as RSA, in capitals and digits; none at all is allowed too. */
  predicate IsAlgorithm(s: string) {
    forall i :: 0 <= i < |s| ==> 65 <= s[i] as int <= 90 || 48 <= s[i] as int <= 57
  }

  function Infix(algorithm: string): string {
    if algorithm == "" then "" else " " + algorithm
  }

  ghost predicate IsMarkerText(text: string, head: string) {
    exists algorithm :: IsAlgorithm(algorithm) && text == head + Infix(algorithm) + " PRIVATE KEY-----"
  }

  lemma MarkerTextFound(text: string, head: string, middle: string)
    requires text == head + middle + " PRIVATE KEY-----"
    requires middle == ""
             || (|middle| > 1 && middle[0] == ' ' && forall i :: 1 <= i < |middle| ==> UpperAlphanumeric(middle[i]))
    ensures IsMarkerText(text, head)
  {
    var algorithm := if middle == "" then "" else middle[1..];
    assert middle == Infix(algorithm);
    assert IsAlgorithm(algorithm);
  }

  lemma MarkerTextTaken(s: string, head: string)
    requires IsMarkerText(s, head)
    ensures var tail := " PRIVATE KEY-----";
            && |head| + |tail| <= |s| && s[..|head|] == head && s[|s| - |tail|..] == tail
            && var middle := s[|head|..|s| - |tail|];
               middle == ""
               || (|middle| > 1 && middle[0] == ' '
                   && forall i :: 1 <= i < |middle| ==> UpperAlphanumeric(middle[i]))
  {
    var tail := " PRIVATE KEY-----";
    var algorithm :| IsAlgorithm(algorithm) && s == head + Infix(algorithm) + tail;
    Around(head, Infix(algorithm), tail);
    var middle := Infix(algorithm);
    forall i | 1 <= i < |middle|
      ensures UpperAlphanumeric(middle[i])
    {
      assert middle[i] == algorithm[i - 1];
    }
  }

  lemma Around(head: string, middle: string, tail: string)
    ensures var s := head + middle + tail;
            s[..|head|] == head && s[|head|..|s| - |tail|] == middle && s[|s| - |tail|..] == tail
  {
  }

  lemma KeyMarkerIff(body: string, word: string)
    ensures IsKeyMarker(body, word) <==> IsMarkerText(Upper(Strip(body)), "-----" + word)
  {
    hide IsMarkerText, Upper, Strip;
    var s, head, tail := Upper(Strip(body)), "-----" + word, " PRIVATE KEY-----";
    if IsKeyMarker(body, word) {
      var middle := s[|head|..|s| - |tail|];
      assert s == head + middle + tail;
      MarkerTextFound(s, head, middle);
    }
    if IsMarkerText(s, head) {
      MarkerTextTaken(s, head);
    }
  }

  /**
   * A line begins or ends a private key when, white space at its ends and letter case apart, it is one
   * of the PEM markers.
   */
  lemma PemMarkers(body: string)
    ensures Begins(body) <==> IsMarkerText(Upper(Strip(body)), "-----BEGIN")
    ensures Ends(body) <==> IsMarkerText(Upper(Strip(body)), "-----END")
  {
    hide IsKeyMarker, IsMarkerText;
    KeyMarkerIff(body, "BEGIN");
    KeyMarkerIff(body, "END");
    assert "-----" + "BEGIN" == "-----BEGIN" && "-----" + "END" == "-----END";
  }

  /** Letter case: in ASCII a capital is 32 below its letter, and every other character stays. */
  lemma UpperLetters(c: char)
    ensures ToUpper(c) as int == if 97 <= c as int <= 122 then c as int - 32 else c as int
  {
  }

  // ---------------------------------------------------------------- what the counts count

  /** How often a rule matched, over all recorded matches. */
  function OccurrencesOf(matches: seq<Match>, rule: Rule): nat {
    if matches == [] then 0
    else
      var m := matches[|matches| - 1];
      OccurrencesOf(matches[..|matches| - 1], rule) + (if m.rule == rule then m.occurrences else 0)
  }

  lemma {:induction false} CountsHoldOccurrences(matches: seq<Match>, rule: Rule)
    ensures CountsOf(matches).Counter(rule).occurrenceCount == OccurrencesOf(matches, rule)
  {
    if matches != [] {
      CountsHoldOccurrences(matches[..|matches| - 1], rule);
    }
  }

  lemma {:induction false} OccurrencesConcat(a: seq<Match>, b: seq<Match>, rule: Rule)
    ensures OccurrencesOf(a + b, rule) == OccurrencesOf(a, rule) + OccurrencesOf(b, rule)
    decreases |b|
  {
    if b == [] {
      assert a + b == a;
    } else {
      var n := |b| - 1;
      OccurrencesConcat(a, b[..n], rule);
      assert (a + b)[..|a| + n] == a + b[..n];
    }
  }

  /** The lines before n that begin a private key. */
  function BeginLines(lines: seq<Line>, n: nat): nat
    requires n <= |lines|
  {
    if n == 0 then 0 else BeginLines(lines, n - 1) + (if Begins(lines[n - 1].body) then 1 else 0)
  }

  lemma {:induction false} InlineHasNoKey(body: string, rules: seq<InlineRule>, lineNumber: nat)
    requires ArePatterns(rules)
    ensures OccurrencesOf(InlineMatches(body, rules, lineNumber), PrivateKeyBlock) == 0
    decreases |rules|
  {
    hide IsPattern, AfterRules, InlineMatches;
    if rules == [] {
      NoRules(body, rules, lineNumber);
    } else {
      var n := |rules| - 1;
      PatternIsInline(rules[n]);
      AfterRulesNext(body, rules, n, lineNumber);
      assert rules[..n + 1] == rules;
      InlineHasNoKey(body, rules[..n], lineNumber);
      var before := InlineMatches(body, rules[..n], lineNumber);
      var found := |rules[n].matches(AfterRules(body, rules[..n]))|;
      if found > 0 {
        assert (before + [Match(rules[n].rule, lineNumber, found)])[..|before|] == before;
      } else {
        assert before + [] == before;
      }
    }
  }

  lemma KeyOccurrencesOfLine(lines: seq<Line>, rules: seq<InlineRule>, i: nat)
    requires i < |lines| && ArePatterns(rules)
    ensures OccurrencesOf(LineMatches(lines, rules, i), PrivateKeyBlock) == if Begins(lines[i].body) then 1 else 0
  {
    hide IsPattern, InlineMatches, Begins, KeyOpen;
    if RedactedWhole(lines, i) {
      OneMatch(Match(PrivateKeyBlock, i + 1, if Begins(lines[i].body) then 1 else 0));
    } else {
      InlineHasNoKey(lines[i].body, rules, i + 1);
    }
  }

  lemma OneMatch(m: Match)
    ensures OccurrencesOf([m], m.rule) == m.occurrences
  {
    assert [m][..0] == [];
  }

  /** The private-key rule occurs once for every BEGIN line, however many lines it takes out. */
  lemma {:induction false} KeyOccurrencesAreBeginLines(lines: seq<Line>, rules: seq<InlineRule>, n: nat)
    requires n <= |lines| && ArePatterns(rules)
    ensures OccurrencesOf(MatchesUpTo(lines, rules, n), PrivateKeyBlock) == BeginLines(lines, n)
  {
    hide IsPattern, LineMatches, Begins, OccurrencesOf;
    if n == 0 {
      NoOccurrences();
    } else {
      KeyOccurrencesAreBeginLines(lines, rules, n - 1);
      OccurrencesConcat(MatchesUpTo(lines, rules, n - 1), LineMatches(lines, rules, n - 1), PrivateKeyBlock);
      KeyOccurrencesOfLine(lines, rules, n - 1);
    }
  }

  lemma NoOccurrences()
    ensures OccurrencesOf([], PrivateKeyBlock) == 0
  {
  }

  /** The report, number by number. */
  lemma ReportCounts(source: string, rules: seq<InlineRule>, s: RuleSummary)
    requires ArePatterns(rules)
    requires var lines := ParseLines(source);
             s in ReportOf(|lines|, CountsOf(MatchesUpTo(lines, rules, |lines|))).rules
    ensures var lines := ParseLines(source); var matches := MatchesUpTo(lines, rules, |lines|);
            && ReportOf(|lines|, CountsOf(matches)).sourceLineCount == |lines|
            && s.occurrenceCount == OccurrencesOf(matches, s.rule)
            && (s.rule == PrivateKeyBlock ==> s.occurrenceCount == BeginLines(lines, |lines|))
  {
    hide CountsOf, MatchesUpTo, ParseLines, IsPattern;
    var lines := ParseLines(source);
    var matches := MatchesUpTo(lines, rules, |lines|);
    SummariesMeaning(RULES_BY_ID, CountsOf(matches));
    CountsHoldOccurrences(matches, s.rule);
    KeyOccurrencesAreBeginLines(lines, rules, |lines|);
  }

  // ---------------------------------------------------------------- the order of the report

  /** The order of two ids that differ first at character k. */
  predicate DiffersAt(a: string, b: string, k: nat) {
    && k < |a| && k < |b| && a[k] < b[k]
    && forall i :: 0 <= i < k ==> a[i] == b[i]
  }

  ghost predicate Before(a: string, b: string) {
    exists k :: DiffersAt(a, b, k)
  }

  lemma BeforeTransitive(a: string, b: string, c: string)
    requires Before(a, b) && Before(b, c)
    ensures Before(a, c)
  {
    var i: nat :| DiffersAt(a, b, i);
    var j: nat :| DiffersAt(b, c, j);
    assert DiffersAt(a, c, if i < j then i else j);
  }

  ghost predicate SortedRules(rules: seq<Rule>) {
    forall i, j :: 0 <= i < j < |rules| ==> Before(RuleId(rules[i]), RuleId(rules[j]))
  }

  lemma {:induction false} NeighboursSort(rules: seq<Rule>)
    requires forall i :: 0 <= i < |rules| - 1 ==> Before(RuleId(rules[i]), RuleId(rules[i + 1]))
    ensures SortedRules(rules)
  {
    hide RuleId, Before;
    if |rules| > 1 {
      var front := rules[..|rules| - 1];
      NeighboursSort(front);
      forall i, j | 0 <= i < j < |rules|
        ensures Before(RuleId(rules[i]), RuleId(rules[j]))
      {
        if j < |front| {
          assert front[i] == rules[i] && front[j] == rules[j];
        } else if i < |front| - 1 {
          assert front[i] == rules[i] && front[|front| - 1] == rules[j - 1];
          BeforeTransitive(RuleId(rules[i]), RuleId(rules[j - 1]), RuleId(rules[j]));
        }
      }
    }
  }

  lemma CiscoRulesAscend()
    ensures Before(RuleId(IkeV1PreSharedKey), RuleId(IkeV2PreSharedKey))
    ensures Before(RuleId(IkeV2PreSharedKey), RuleId(Password))
    ensures Before(RuleId(Password), RuleId(SnmpCommunity))
    ensures Before(RuleId(SnmpCommunity), RuleId(UsernameSecret))
  {
    assert DiffersAt(RuleId(IkeV1PreSharedKey), RuleId(IkeV2PreSharedKey), 10);
    assert DiffersAt(RuleId(IkeV2PreSharedKey), RuleId(Password), 6);
    assert DiffersAt(RuleId(Password), RuleId(SnmpCommunity), 6);
    assert DiffersAt(RuleId(SnmpCommunity), RuleId(UsernameSecret), 6);
  }

  lemma CredentialRulesAscend()
    ensures Before(RuleId(UsernameSecret), RuleId(ApiKey))
    ensures Before(RuleId(ApiKey), RuleId(BearerToken))
    ensures Before(RuleId(BearerToken), RuleId(PrivateKeyBlock))
  {
    assert DiffersAt(RuleId(UsernameSecret), RuleId(ApiKey), 1);
    assert DiffersAt(RuleId(ApiKey), RuleId(BearerToken), 11);
    assert DiffersAt(RuleId(BearerToken), RuleId(PrivateKeyBlock), 11);
  }

  lemma RulesAreSorted()
    ensures SortedRules(RULES_BY_ID)
  {
    hide RuleId, Before, SortedRules;
    CiscoRulesAscend();
    CredentialRulesAscend();
    NeighboursSort(RULES_BY_ID);
  }

  ghost predicate SortedSummaries(listed: seq<RuleSummary>) {
    forall i, j :: 0 <= i < j < |listed| ==> Before(RuleId(listed[i].rule), RuleId(listed[j].rule))
  }

  lemma {:induction false} SummariesAreSorted(rules: seq<Rule>, counts: Counts)
    requires SortedRules(rules)
    ensures SortedSummaries(Summaries(rules, counts))
  {
    hide RuleId, Before;
    if rules != [] {
      var rest := Summaries(rules[1..], counts);
      SummariesAreSorted(rules[1..], counts);
      SummariesMeaning(rules[1..], counts);
      forall j | 0 <= j < |rest|
        ensures Before(RuleId(rules[0]), RuleId(rest[j].rule))
      {
        assert rest[j] in rest;
        var k :| 0 <= k < |rules[1..]| && rules[1..][k] == rest[j].rule;
        assert rules[k + 1] == rest[j].rule;
      }
      if rules[0] in counts.counters {
        var head := Summaries(rules, counts)[0];
        assert head.rule == rules[0] && Summaries(rules, counts) == [head] + rest;
        HeadSorts(head, rest);
      }
    }
  }

  lemma HeadSorts(head: RuleSummary, rest: seq<RuleSummary>)
    requires SortedSummaries(rest)
    requires forall j :: 0 <= j < |rest| ==> Before(RuleId(head.rule), RuleId(rest[j].rule))
    ensures SortedSummaries([head] + rest)
  {
    hide RuleId, Before;
  }

  /** The report lists its rules by strictly ascending id, each once. */
  lemma ReportIsSorted(lineCount: nat, counts: Counts)
    ensures SortedSummaries(ReportOf(lineCount, counts).rules)
  {
    RulesAreSorted();
    hide RuleId, Before, SortedRules, Summaries;
    SummariesAreSorted(RULES_BY_ID, counts);
  }
}
