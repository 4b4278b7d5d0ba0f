/**
 * The streaming parser for the Cisco IOS IPsec subset
 * (services/api/netops_api/parsers/cisco_ios/). The regular expressions are stated over
 * whitespace-separated tokens, in the alphabet where whitespace is space and tab.
 */
module CiscoIos {
  import opened Base
  import opened TextLines

  datatype LifetimeUnit = Seconds | Kilobytes

  datatype AssociationKind = CryptoMap | IpsecProfile

  datatype SourceLine = SourceLine(number: nat, text: string, indentation: nat, tokens: seq<string>)

  datatype WarningCode = MalformedLifetime | InvalidLifetime(unit: LifetimeUnit, value: string, command: string)

  datatype ParseWarning = ParseWarning(code: WarningCode, lineNumber: nat)

  datatype LifetimeSetting = LifetimeSetting(unit: LifetimeUnit, value: int, lineNumber: nat)

  datatype PeerAddress = PeerAddress(value: string, lineNumber: nat)

  /** Stands for `kind:name` or `kind:name:sequence`, from which the three can be read back. */
  datatype Identifier = Identifier(kind: AssociationKind, name: string, sequence: Option<nat>)

  datatype IpsecAssociation = IpsecAssociation(
    kind: AssociationKind,
    name: string,
    declarationLine: nat,
    sequence: Option<nat>,
    peerAddresses: seq<PeerAddress>,
    lifetimeSettings: seq<LifetimeSetting>)
  {
    function Id(): Identifier {
      Identifier(kind, name, sequence)
    }

    function EffectiveOverride(unit: LifetimeUnit): Option<LifetimeSetting> {
      LastOfUnit(lifetimeSettings, unit)
    }
  }

  datatype Config = Config(
    sourceLines: seq<SourceLine>,
    globalLifetimes: seq<LifetimeSetting>,
    associations: seq<IpsecAssociation>,
    warnings: seq<ParseWarning>)
  {
    function GlobalLifetime(unit: LifetimeUnit): Option<LifetimeSetting> {
      LastOfUnit(globalLifetimes, unit)
    }
  }

  /** The scan in reverse order: a later command replaces an earlier one. */
  function LastOfUnit(settings: seq<LifetimeSetting>, unit: LifetimeUnit): Option<LifetimeSetting> {
    if settings == [] then None
    else if settings[|settings| - 1].unit == unit then Some(settings[|settings| - 1])
    else LastOfUnit(settings[..|settings| - 1], unit)
  }

  // ---------------------------------------------------------------- characters and tokens

  predicate IsBlank(c: char) {
    c == ' ' || c == '\t'
  }

  function ToLower(c: char): char {
    if 'A' <= c <= 'Z' then c - 'A' + 'a' else c
  }

  function Lower(s: string): string {
    seq(|s|, i requires 0 <= i < |s| => ToLower(s[i]))
  }

  predicate IsDigit(c: char) {
    '0' <= c <= '9'
  }

  predicate IsWordChar(c: char) {
    'a' <= c <= 'z' || 'A' <= c <= 'Z' || IsDigit(c) || c == '_'
  }

  function LeadingBlanks(s: string): (n: nat)
    ensures n <= |s| && (n < |s| ==> !IsBlank(s[n]))
  {
    if s == "" || !IsBlank(s[0]) then 0 else 1 + LeadingBlanks(s[1..])
  }

  function WordLength(s: string): (n: nat)
    ensures n <= |s| && (s != "" && !IsBlank(s[0]) ==> n > 0)
  {
    if s == "" || IsBlank(s[0]) then 0 else 1 + WordLength(s[1..])
  }

  /** `text.split()`. */
  function Words(s: string): (words: seq<string>)
    ensures forall w :: w in words ==> w != ""
    decreases |s|
  {
    var t := s[LeadingBlanks(s)..];
    if t == "" then [] else [t[..WordLength(t)]] + Words(t[WordLength(t)..])
  }

  function ToSourceLine(number: nat, text: string): SourceLine {
    SourceLine(number, text, LeadingBlanks(text), Words(text))
  }

  /** The length of the digits that a token starts with. */
  function DigitsLength(s: string): (n: nat)
    ensures n <= |s|
  {
    if s == "" || !IsDigit(s[0]) then 0 else 1 + DigitsLength(s[1..])
  }

  function DigitsValue(s: string): nat {
    if s == "" then 0
    else DigitsValue(s[..|s| - 1]) * 10 + (if IsDigit(s[|s| - 1]) then (s[|s| - 1] - '0') as nat else 0)
  }

  /** `\b` after the first n characters of a token, the last of which is a word character. */
  predicate BoundaryAt(s: string, n: nat) {
    n >= |s| || !IsWordChar(s[n])
  }

  /** Digits that single underscores may separate. */
  predicate IsNumeral(s: string) {
    && s != "" && IsDigit(s[0]) && IsDigit(s[|s| - 1])
    && (forall i :: 0 <= i < |s| ==> IsDigit(s[i]) || s[i] == '_')
    && (forall i :: 0 <= i < |s| - 1 ==> s[i] == '_' ==> s[i + 1] != '_')
  }

  function DigitsOnly(s: string): string {
    if s == "" then ""
    else DigitsOnly(s[..|s| - 1]) + (if IsDigit(s[|s| - 1]) then [s[|s| - 1]] else "")
  }

  /** Python's `int(text)`; None when it raises, as it also does for more than 4300 digits. */
  function ParseInt(s: string): Option<int> {
    var negative := s != "" && s[0] == '-';
    var numeral := if s != "" && (s[0] == '-' || s[0] == '+') then s[1..] else s;
    if !IsNumeral(numeral) || |DigitsOnly(numeral)| > 4300 then None
    else
      var value := DigitsValue(DigitsOnly(numeral));
      Some(if negative then -(value as int) else value)
  }

  // ---------------------------------------------------------------- commands

  predicate Spells(tokens: seq<string>, i: nat, word: string) {
    i < |tokens| && Lower(tokens[i]) == word
  }

  function UnitOf(token: string): Option<LifetimeUnit> {
    if Lower(token) == "seconds" then Some(Seconds)
    else if Lower(token) == "kilobytes" then Some(Kilobytes)
    else None
  }

  /** `crypto ipsec profile NAME`. */
  predicate IsProfile(tokens: seq<string>) {
    |tokens| == 4 && Spells(tokens, 0, "crypto") && Spells(tokens, 1, "ipsec") && Spells(tokens, 2, "profile")
  }

  /** `crypto map NAME SEQ ...` and `crypto dynamic-map NAME SEQ ...`. */
  predicate IsCryptoMap(tokens: seq<string>) {
    && |tokens| >= 4 && Spells(tokens, 0, "crypto")
    && (Spells(tokens, 1, "map") || Spells(tokens, 1, "dynamic-map"))
    && DigitsLength(tokens[3]) > 0 && BoundaryAt(tokens[3], DigitsLength(tokens[3]))
  }

  datatype LifetimeMatch = LifetimeMatch(unit: LifetimeUnit, value: string)

  /** `crypto ipsec security-association lifetime UNIT VALUE`. */
  function GlobalLifetimeMatch(tokens: seq<string>): Option<LifetimeMatch> {
    if && |tokens| == 6
       && Spells(tokens, 0, "crypto") && Spells(tokens, 1, "ipsec")
       && Spells(tokens, 2, "security-association") && Spells(tokens, 3, "lifetime")
       && UnitOf(tokens[4]).Some?
    then Some(LifetimeMatch(UnitOf(tokens[4]).value, tokens[5]))
    else None
  }

  /** `set security-association lifetime UNIT VALUE`. */
  function SetLifetimeMatch(tokens: seq<string>): Option<LifetimeMatch> {
    if && |tokens| == 5
       && Spells(tokens, 0, "set") && Spells(tokens, 1, "security-association") && Spells(tokens, 2, "lifetime")
       && UnitOf(tokens[3]).Some?
    then Some(LifetimeMatch(UnitOf(tokens[3]).value, tokens[4]))
    else None
  }

  /** `[crypto ipsec] [set] security-association lifetime`, whatever follows the last word. */
  predicate IsLifetimePrefix(tokens: seq<string>) {
    var a := if Spells(tokens, 0, "crypto") && Spells(tokens, 1, "ipsec") then 2 else 0;
    var b := if Spells(tokens, a, "set") then a + 1 else a;
    && Spells(tokens, b, "security-association")
    && b + 1 < |tokens|
    && |tokens[b + 1]| >= 8
    && Lower(tokens[b + 1][..8]) == "lifetime"
    && BoundaryAt(tokens[b + 1], 8)
  }

  predicate IsSetPeer(tokens: seq<string>) {
    |tokens| >= 3 && Spells(tokens, 0, "set") && Spells(tokens, 1, "peer")
  }

  function ParseLifetime(lineNumber: nat, command: string, m: Option<LifetimeMatch>)
    : Result<LifetimeSetting, ParseWarning>
  {
    if m.None? then Failure(ParseWarning(MalformedLifetime, lineNumber))
    else
      var parsed := ParseInt(m.value.value);
      if parsed.None? || parsed.value <= 0
      then Failure(ParseWarning(InvalidLifetime(m.value.unit, m.value.value, command), lineNumber))
      else Success(LifetimeSetting(m.value.unit, parsed.value, lineNumber))
  }

  // ---------------------------------------------------------------- what a line is, declaratively

  /** Neither blank nor a comment. */
  predicate Significant(line: SourceLine) {
    line.tokens != [] && line.tokens[0] != "" && line.tokens[0][0] != '!'
  }

  predicate TopLevel(line: SourceLine) {
    Significant(line) && line.indentation == 0
  }

  predicate IsGlobalCommand(line: SourceLine) {
    TopLevel(line) && (GlobalLifetimeMatch(line.tokens).Some? || IsLifetimePrefix(line.tokens))
  }

  predicate Declares(line: SourceLine) {
    TopLevel(line) && !IsGlobalCommand(line) && (IsProfile(line.tokens) || IsCryptoMap(line.tokens))
  }

  predicate InBlock(line: SourceLine) {
    Significant(line) && line.indentation != 0
  }

  predicate IsBlockLifetime(line: SourceLine) {
    InBlock(line) && (SetLifetimeMatch(line.tokens).Some? || IsLifetimePrefix(line.tokens))
  }

  /** The last significant line without indentation before line i, if it declares an association. */
  function Owner(lines: seq<SourceLine>, i: nat): (owner: Option<nat>)
    requires i <= |lines|
    ensures owner.Some? ==> owner.value < i && Declares(lines[owner.value])
  {
    if i == 0 then None
    else if !TopLevel(lines[i - 1]) then Owner(lines, i - 1)
    else if Declares(lines[i - 1]) then Some(i - 1)
    else None
  }

  /** The name, sequence and kind in a declaration. */
  function Declared(line: SourceLine): Identifier
    requires Declares(line)
  {
    if IsProfile(line.tokens) then Identifier(IpsecProfile, line.tokens[3], None)
    else
      Identifier(CryptoMap, line.tokens[2],
                 Some(DigitsValue(line.tokens[3][..DigitsLength(line.tokens[3])])))
  }

  /** The lifetime command that line i is, if it is one that applies anywhere. */
  function LifetimeAt(lines: seq<SourceLine>, i: nat): Option<Result<LifetimeSetting, ParseWarning>>
    requires i < |lines|
  {
    var line := lines[i];
    if IsGlobalCommand(line)
    then Some(ParseLifetime(line.number, "global configuration", GlobalLifetimeMatch(line.tokens)))
    else if IsBlockLifetime(line) && Owner(lines, i).Some?
    then Some(ParseLifetime(line.number, Declared(lines[Owner(lines, i).value]).name, SetLifetimeMatch(line.tokens)))
    else None
  }

  predicate SetsIn(lines: seq<SourceLine>, i: nat, d: Option<nat>)
    requires i < |lines|
  {
    && LifetimeAt(lines, i).Some? && LifetimeAt(lines, i).value.Success?
    && (if d.None? then IsGlobalCommand(lines[i]) else InBlock(lines[i]) && Owner(lines, i) == d)
  }

  /** The valid lifetime commands of one block, or the global ones, in order of their lines. */
  function SettingsIn(lines: seq<SourceLine>, d: Option<nat>, n: nat): seq<LifetimeSetting>
    requires n <= |lines|
  {
    if n == 0 then []
    else
      SettingsIn(lines, d, n - 1)
      + (if SetsIn(lines, n - 1, d) then [LifetimeAt(lines, n - 1).value.value] else [])
  }

  function WarningsIn(lines: seq<SourceLine>, n: nat): seq<ParseWarning>
    requires n <= |lines|
  {
    if n == 0 then []
    else
      var here := LifetimeAt(lines, n - 1);
      WarningsIn(lines, n - 1) + (if here.Some? && here.value.Failure? then [here.value.error] else [])
  }

  function PeersIn(lines: seq<SourceLine>, d: nat, n: nat): seq<PeerAddress>
    requires n <= |lines|
  {
    if n == 0 then []
    else
      var line := lines[n - 1];
      PeersIn(lines, d, n - 1)
      + (if InBlock(line) && Owner(lines, n - 1) == Some(d) && !IsBlockLifetime(line) && IsSetPeer(line.tokens)
         then [PeerAddress(line.tokens[2], line.number)] else [])
  }

  function AssociationOf(lines: seq<SourceLine>, d: nat, n: nat): IpsecAssociation
    requires d < n <= |lines| && Declares(lines[d])
  {
    var id := Declared(lines[d]);
    IpsecAssociation(id.kind, id.name, lines[d].number, id.sequence,
                     PeersIn(lines, d, n), SettingsIn(lines, Some(d), n))
  }

  /** The lines that declare an association, in order. */
  function Declarations(lines: seq<SourceLine>, n: nat): (ds: seq<nat>)
    requires n <= |lines|
    ensures forall k :: 0 <= k < |ds| ==> ds[k] < n && Declares(lines[ds[k]])
  {
    if n == 0 then []
    else Declarations(lines, n - 1) + (if Declares(lines[n - 1]) then [n - 1] else [])
  }

  function AssociationsOf(lines: seq<SourceLine>, ds: seq<nat>, n: nat): seq<IpsecAssociation>
    requires n <= |lines|
    requires forall k :: 0 <= k < |ds| ==> ds[k] < n && Declares(lines[ds[k]])
  {
    seq(|ds|, k requires 0 <= k < |ds| => AssociationOf(lines, ds[k], n))
  }

  /** What the text says, rule by rule over its lines. */
  function Meaning(lines: seq<SourceLine>): Config {
    var n := |lines|;
    Config(lines, SettingsIn(lines, None, n), AssociationsOf(lines, Declarations(lines, n), n), WarningsIn(lines, n))
  }

  function SourceLines(configuration: string): seq<SourceLine> {
    var lines := ParseLines(configuration);
    seq(|lines|, i requires 0 <= i < |lines| => ToSourceLine(i + 1, lines[i].body))
  }

  // ---------------------------------------------------------------- the streaming parser

  class AssociationBuilder {
    const id: Identifier
    const declarationLine: nat
    var peerAddresses: seq<PeerAddress>
    var lifetimeSettings: seq<LifetimeSetting>

    constructor (id: Identifier, declarationLine: nat)
      ensures Freeze() == IpsecAssociation(id.kind, id.name, declarationLine, id.sequence, [], [])
      ensures this.id == id
    {
      this.id := id;
      this.declarationLine := declarationLine;
      peerAddresses, lifetimeSettings := [], [];
    }

    function Freeze(): IpsecAssociation
      reads this
    {
      IpsecAssociation(id.kind, id.name, declarationLine, id.sequence, peerAddresses, lifetimeSettings)
    }
  }

  /** The blocks that a later top-level line has closed. */
  function Closed(lines: seq<SourceLine>, n: nat): (ds: seq<nat>)
    requires n <= |lines|
    ensures forall k :: 0 <= k < |ds| ==> ds[k] < n && Declares(lines[ds[k]])
  {
    if n == 0 then []
    else if TopLevel(lines[n - 1]) && Owner(lines, n - 1).Some?
    then Closed(lines, n - 1) + [Owner(lines, n - 1).value]
    else Closed(lines, n - 1)
  }

  lemma {:induction false} DeclarationsAreClosedOrOpen(lines: seq<SourceLine>, n: nat)
    requires n <= |lines|
    ensures Declarations(lines, n)
            == Closed(lines, n) + (if Owner(lines, n).Some? then [Owner(lines, n).value] else [])
  {
    hide Declares, TopLevel;
    if n > 0 {
      DeclarationsAreClosedOrOpen(lines, n - 1);
      if Declares(lines[n - 1]) {
        DeclaresIsTopLevel(lines[n - 1]);
      }
    }
  }

  lemma DeclaresIsTopLevel(line: SourceLine)
    requires Declares(line)
    ensures TopLevel(line)
  {
  }

  ghost predicate HasTopLevelBetween(lines: seq<SourceLine>, d: nat, n: nat)
    requires n <= |lines|
  {
    exists j :: d < j < n && TopLevel(lines[j])
  }

  /** The owner of a line is the last top-level line before it, when that is a declaration. */
  lemma {:induction false} OwnerMeaning(lines: seq<SourceLine>, i: nat, d: nat)
    requires i <= |lines|
    ensures Owner(lines, i) == Some(d) <==> d < i && Declares(lines[d]) && !HasTopLevelBetween(lines, d, i)
  {
    hide TopLevel, Declares;
    if i > 0 {
      OwnerMeaning(lines, i - 1, d);
      if d < i - 1 && HasTopLevelBetween(lines, d, i - 1) {
        var j :| d < j < i - 1 && TopLevel(lines[j]);
        assert HasTopLevelBetween(lines, d, i);
      }
      if d < i - 1 && TopLevel(lines[i - 1]) {
        assert HasTopLevelBetween(lines, d, i);
      }
      if d == i - 1 && Declares(lines[d]) {
        DeclaresIsTopLevel(lines[d]);
      }
    }
  }

  lemma {:induction false} ClosedMeaning(lines: seq<SourceLine>, n: nat, k: nat)
    requires n <= |lines| && k < |Closed(lines, n)|
    ensures HasTopLevelBetween(lines, Closed(lines, n)[k], n)
  {
    hide TopLevel, Declares;
    if k < |Closed(lines, n - 1)| {
      ClosedMeaning(lines, n - 1, k);
    } else {
      assert TopLevel(lines[n - 1]);
    }
  }

  // ---------------------------------------------------------------- one more line

  /** A line that is not in the block of `d` leaves its association as it is. */
  lemma AssociationStays(lines: seq<SourceLine>, d: nat, n: nat)
    requires d < n < |lines| && Declares(lines[d])
    requires !InBlock(lines[n]) || Owner(lines, n) != Some(d)
    ensures AssociationOf(lines, d, n + 1) == AssociationOf(lines, d, n)
  {
    hide Owner, Declares, LifetimeAt, IsBlockLifetime, IsGlobalCommand;
    assert SettingsIn(lines, Some(d), n + 1) == SettingsIn(lines, Some(d), n);
    assert PeersIn(lines, d, n + 1) == PeersIn(lines, d, n);
  }

  lemma ClosedStay(lines: seq<SourceLine>, n: nat)
    requires n < |lines|
    ensures AssociationsOf(lines, Closed(lines, n), n + 1) == AssociationsOf(lines, Closed(lines, n), n)
  {
    hide Owner, Declares, InBlock, AssociationOf, TopLevel;
    var ds := Closed(lines, n);
    forall k | 0 <= k < |ds|
      ensures AssociationOf(lines, ds[k], n + 1) == AssociationOf(lines, ds[k], n)
    {
      ClosedMeaning(lines, n, k);
      OwnerMeaning(lines, n, ds[k]);
      AssociationStays(lines, ds[k], n);
    }
  }

  lemma SkippedLine(lines: seq<SourceLine>, n: nat)
    requires n < |lines| && !Significant(lines[n])
    ensures Owner(lines, n + 1) == Owner(lines, n) && Closed(lines, n + 1) == Closed(lines, n)
    ensures SettingsIn(lines, None, n + 1) == SettingsIn(lines, None, n)
    ensures WarningsIn(lines, n + 1) == WarningsIn(lines, n)
    ensures Owner(lines, n).Some? ==>
      AssociationOf(lines, Owner(lines, n).value, n + 1) == AssociationOf(lines, Owner(lines, n).value, n)
  {
    hide Significant, Declares;
    if Owner(lines, n).Some? {
      AssociationStays(lines, Owner(lines, n).value, n);
    }
  }

  lemma TopLevelLine(lines: seq<SourceLine>, n: nat)
    requires n < |lines| && TopLevel(lines[n])
    ensures Owner(lines, n + 1) == if Declares(lines[n]) then Some(n) else None
    ensures Closed(lines, n + 1)
            == Closed(lines, n) + (if Owner(lines, n).Some? then [Owner(lines, n).value] else [])
    ensures Owner(lines, n).Some? ==>
      AssociationOf(lines, Owner(lines, n).value, n + 1) == AssociationOf(lines, Owner(lines, n).value, n)
  {
    hide Significant, Declares;
    if Owner(lines, n).Some? {
      AssociationStays(lines, Owner(lines, n).value, n);
    }
  }

  lemma GlobalLine(lines: seq<SourceLine>, n: nat, parsed: Result<LifetimeSetting, ParseWarning>)
    requires n < |lines| && TopLevel(lines[n])
    requires parsed == ParseLifetime(lines[n].number, "global configuration", GlobalLifetimeMatch(lines[n].tokens))
    ensures SettingsIn(lines, None, n + 1)
            == SettingsIn(lines, None, n)
               + (if IsGlobalCommand(lines[n]) && parsed.Success? then [parsed.value] else [])
    ensures WarningsIn(lines, n + 1)
            == WarningsIn(lines, n) + (if IsGlobalCommand(lines[n]) && parsed.Failure? then [parsed.error] else [])
  {
    hide Significant, IsGlobalCommand, GlobalLifetimeMatch, ParseLifetime, SetLifetimeMatch, IsLifetimePrefix;
  }

  lemma {:induction false} NothingBefore(lines: seq<SourceLine>, d: nat, n: nat)
    requires d < |lines| && n <= d + 1
    ensures SettingsIn(lines, Some(d), n) == [] && PeersIn(lines, d, n) == []
  {
    hide LifetimeAt, InBlock, Declares, IsGlobalCommand;
    if n > 0 {
      NothingBefore(lines, d, n - 1);
    }
  }

  lemma NewBlock(lines: seq<SourceLine>, n: nat)
    requires n < |lines| && Declares(lines[n])
    ensures AssociationOf(lines, n, n + 1)
            == IpsecAssociation(Declared(lines[n]).kind, Declared(lines[n]).name, lines[n].number,
                                Declared(lines[n]).sequence, [], [])
  {
    hide Declares;
    NothingBefore(lines, n, n + 1);
  }

  lemma BlockLine(lines: seq<SourceLine>, n: nat)
    requires n < |lines| && InBlock(lines[n])
    ensures Owner(lines, n + 1) == Owner(lines, n) && Closed(lines, n + 1) == Closed(lines, n)
    ensures SettingsIn(lines, None, n + 1) == SettingsIn(lines, None, n)
    ensures Owner(lines, n).None? ==> WarningsIn(lines, n + 1) == WarningsIn(lines, n)
  {
    hide Significant, Declares, IsBlockLifetime;
  }

  lemma OwnedLine(lines: seq<SourceLine>, n: nat, d: nat, parsed: Result<LifetimeSetting, ParseWarning>)
    requires n < |lines| && InBlock(lines[n]) && Owner(lines, n) == Some(d)
    requires parsed == ParseLifetime(lines[n].number, Declared(lines[d]).name, SetLifetimeMatch(lines[n].tokens))
    ensures WarningsIn(lines, n + 1)
            == WarningsIn(lines, n) + (if IsBlockLifetime(lines[n]) && parsed.Failure? then [parsed.error] else [])
    ensures var before, after := AssociationOf(lines, d, n), AssociationOf(lines, d, n + 1);
            after == before.(
              lifetimeSettings := before.lifetimeSettings
                + (if IsBlockLifetime(lines[n]) && parsed.Success? then [parsed.value] else []),
              peerAddresses := before.peerAddresses
                + (if !IsBlockLifetime(lines[n]) && IsSetPeer(lines[n].tokens)
                   then [PeerAddress(lines[n].tokens[2], lines[n].number)] else []))
  {
    hide Significant, Declares, IsLifetimePrefix, SetLifetimeMatch, ParseLifetime;
    assert !IsGlobalCommand(lines[n]);
    hide IsGlobalCommand, IsBlockLifetime, Declared;
  }

  /** What the parser's variables hold after n lines: the closed blocks, and the open one. */
  ghost predicate Parsed(
      lines: seq<SourceLine>, n: nat, globals: seq<LifetimeSetting>, associations: seq<IpsecAssociation>,
      warnings: seq<ParseWarning>)
    requires n <= |lines|
  {
    && globals == SettingsIn(lines, None, n)
    && associations == AssociationsOf(lines, Closed(lines, n), n)
    && warnings == WarningsIn(lines, n)
  }

  /** The builder in use is the block that owns the next line. */
  ghost predicate Building(lines: seq<SourceLine>, n: nat, current: AssociationBuilder?)
    requires n <= |lines|
    reads current
  {
    if current == null then Owner(lines, n).None?
    else
      && Owner(lines, n).Some?
      && current.id == Declared(lines[Owner(lines, n).value])
      && current.Freeze() == AssociationOf(lines, Owner(lines, n).value, n)
  }

  /** At the end of the text the block still open is the last one declared. */
  lemma LastBlockCloses(lines: seq<SourceLine>, n: nat)
    requires n <= |lines|
    ensures AssociationsOf(lines, Declarations(lines, n), n)
            == AssociationsOf(lines, Closed(lines, n), n)
               + (if Owner(lines, n).Some? then [AssociationOf(lines, Owner(lines, n).value, n)] else [])
  {
    hide Declares, AssociationOf, Owner, Closed, AssociationsOf, Declarations;
    DeclarationsAreClosedOrOpen(lines, n);
    var ds := Closed(lines, n);
    if Owner(lines, n).Some? {
      AppendOne(lines, ds, Owner(lines, n).value, n);
    } else {
      assert ds + [] == ds;
    }
  }

  /** A top-level line freezes the block that was open. */
  lemma BlockCloses(lines: seq<SourceLine>, n: nat)
    requires n < |lines| && TopLevel(lines[n])
    ensures AssociationsOf(lines, Closed(lines, n + 1), n + 1)
            == AssociationsOf(lines, Closed(lines, n), n)
               + (if Owner(lines, n).Some? then [AssociationOf(lines, Owner(lines, n).value, n)] else [])
  {
    hide Declares, AssociationOf, Owner, Closed, TopLevel, AssociationsOf;
    TopLevelLine(lines, n);
    ClosedStay(lines, n);
    if Owner(lines, n).Some? {
      var d := Owner(lines, n).value;
      var ds := Closed(lines, n);
      AppendOne(lines, ds, d, n + 1);
    } else {
      assert Closed(lines, n) + [] == Closed(lines, n);
    }
  }

  lemma AppendOne(lines: seq<SourceLine>, ds: seq<nat>, d: nat, n: nat)
    requires n <= |lines| && d < n && Declares(lines[d])
    requires forall k :: 0 <= k < |ds| ==> ds[k] < n && Declares(lines[ds[k]])
    ensures AssociationsOf(lines, ds + [d], n) == AssociationsOf(lines, ds, n) + [AssociationOf(lines, d, n)]
  {
    hide Declares, AssociationOf;
  }

  /** `_top_level_declaration`. */
  method TopLevelDeclaration(line: SourceLine) returns (builder: AssociationBuilder?)
    requires TopLevel(line) && !IsGlobalCommand(line)
    ensures builder != null <==> Declares(line)
    ensures builder != null ==>
      && fresh(builder) && builder.id == Declared(line)
      && builder.Freeze()
         == IpsecAssociation(Declared(line).kind, Declared(line).name, line.number, Declared(line).sequence, [], [])
  {
    if IsProfile(line.tokens) {
      builder := new AssociationBuilder(Identifier(IpsecProfile, line.tokens[3], None), line.number);
    } else if IsCryptoMap(line.tokens) {
      var sequence := DigitsValue(line.tokens[3][..DigitsLength(line.tokens[3])]);
      builder := new AssociationBuilder(Identifier(CryptoMap, line.tokens[2], Some(sequence)), line.number);
    } else {
      builder := null;
    }
  }

  /** One pass with one open builder computes what the text says, rule by rule. */
  method ParseCiscoIosConfig(configuration: string) returns (config: Config)
    ensures config == Meaning(SourceLines(configuration))
  {
    hide Significant, Declares, LifetimeAt, IsBlockLifetime, IsGlobalCommand, Declared, ParseLifetime, SettingsIn,
      WarningsIn, AssociationOf, AssociationsOf, Closed, Owner, Declarations, SourceLines, GlobalLifetimeMatch,
      SetLifetimeMatch, IsLifetimePrefix, IsSetPeer;
    var lines := SourceLines(configuration);
    var warnings: seq<ParseWarning> := [];
    var globals: seq<LifetimeSetting> := [];
    var associations: seq<IpsecAssociation> := [];
    var current: AssociationBuilder? := null;
    NothingParsed(lines);
    for n := 0 to |lines|
      invariant Parsed(lines, n, globals, associations, warnings)
      invariant current != null ==> fresh(current)
      invariant Building(lines, n, current)
    {
      var line := lines[n];
      ClosedStay(lines, n);
      if !Significant(line) {
        SkippedLine(lines, n);
        continue;
      }
      if line.indentation == 0 {
        TopLevelLine(lines, n);
        BlockCloses(lines, n);
        if current != null {
          associations := associations + [current.Freeze()];
          current := null;
        }
        var parsed := ParseLifetime(line.number, "global configuration", GlobalLifetimeMatch(line.tokens));
        GlobalLine(lines, n, parsed);
        if IsGlobalCommand(line) {
          GlobalIsNoDeclaration(line);
          if parsed.Success? {
            globals := globals + [parsed.value];
          } else {
            warnings := warnings + [parsed.error];
          }
        } else {
          current := TopLevelDeclaration(line);
          if current != null {
            NewBlock(lines, n);
          }
        }
        continue;
      }
      BlockLine(lines, n);
      if current == null {
        continue;
      }
      var parsed := ParseLifetime(line.number, current.id.name, SetLifetimeMatch(line.tokens));
      OwnedLine(lines, n, Owner(lines, n).value, parsed);
      if IsBlockLifetime(line) {
        if parsed.Success? {
          current.lifetimeSettings := current.lifetimeSettings + [parsed.value];
        } else {
          warnings := warnings + [parsed.error];
        }
      } else if IsSetPeer(line.tokens) {
        SetPeerHasAddress(line.tokens);
        current.peerAddresses := current.peerAddresses + [PeerAddress(line.tokens[2], line.number)];
      }
    }
    LastBlockCloses(lines, |lines|);
    if current != null {
      associations := associations + [current.Freeze()];
    }
    config := Config(lines, globals, associations, warnings);
  }

  lemma NothingParsed(lines: seq<SourceLine>)
    ensures Parsed(lines, 0, [], [], []) && Owner(lines, 0).None?
  {
  }

  lemma GlobalIsNoDeclaration(line: SourceLine)
    requires IsGlobalCommand(line)
    ensures !Declares(line)
  {
  }

  lemma SetPeerHasAddress(tokens: seq<string>)
    requires IsSetPeer(tokens)
    ensures |tokens| > 2
  {
  }

  // ---------------------------------------------------------------- the last command wins

  predicate SetsUnit(lines: seq<SourceLine>, i: nat, d: Option<nat>, unit: LifetimeUnit)
    requires i < |lines|
  {
    SetsIn(lines, i, d) && LifetimeAt(lines, i).value.value.unit == unit
  }

  /** Line i is the last of the first n lines that sets the unit in block d, or globally. */
  predicate LastToSet(lines: seq<SourceLine>, d: Option<nat>, unit: LifetimeUnit, n: nat, i: nat)
    requires n <= |lines|
  {
    && i < n
    && SetsUnit(lines, i, d, unit)
    && forall j :: i < j < n ==> !SetsUnit(lines, j, d, unit)
  }

  /** The setting that line i supplies, if it is a valid lifetime command in force somewhere. */
  function SettingAt(lines: seq<SourceLine>, i: nat): Option<LifetimeSetting>
    requires i < |lines|
  {
    var here := LifetimeAt(lines, i);
    if here.Some? && here.value.Success? then Some(here.value.value) else None
  }

  ghost predicate FoundAt(lines: seq<SourceLine>, d: Option<nat>, unit: LifetimeUnit, n: nat, s: LifetimeSetting)
    requires n <= |lines|
  {
    exists i :: LastToSet(lines, d, unit, n, i) && SettingAt(lines, i) == Some(s)
  }

  lemma LastOfUnitAppend(settings: seq<LifetimeSetting>, s: LifetimeSetting, unit: LifetimeUnit)
    ensures LastOfUnit(settings + [s], unit) == if s.unit == unit then Some(s) else LastOfUnit(settings, unit)
  {
    assert (settings + [s])[..|settings|] == settings;
  }

  lemma LastToSetStays(lines: seq<SourceLine>, d: Option<nat>, unit: LifetimeUnit, n: nat, s: LifetimeSetting)
    requires 0 < n <= |lines| && FoundAt(lines, d, unit, n - 1, s) && !SetsUnit(lines, n - 1, d, unit)
    ensures FoundAt(lines, d, unit, n, s)
  {
    hide SetsUnit, SettingAt;
    var i :| LastToSet(lines, d, unit, n - 1, i) && SettingAt(lines, i) == Some(s);
    assert LastToSet(lines, d, unit, n, i);
  }

  /** The setting found by the reverse scan is the one on the last line that sets the unit. */
  lemma {:induction false} ReverseScanFindsLastLine(lines: seq<SourceLine>, d: Option<nat>, unit: LifetimeUnit, n: nat)
    requires n <= |lines|
    ensures match LastOfUnit(SettingsIn(lines, d, n), unit)
            case None => forall i :: 0 <= i < n ==> !SetsUnit(lines, i, d, unit)
            case Some(s) => FoundAt(lines, d, unit, n, s)
  {
    hide LifetimeAt, InBlock, IsGlobalCommand, LastOfUnit, FoundAt;
    if n == 0 {
      assert LastOfUnit([], unit) == None by { NoSettings(unit); }
    } else {
      ReverseScanFindsLastLine(lines, d, unit, n - 1);
      var before := SettingsIn(lines, d, n - 1);
      if SetsIn(lines, n - 1, d) {
        LastOfUnitAppend(before, LifetimeAt(lines, n - 1).value.value, unit);
      } else {
        assert before + [] == before;
      }
      if SetsUnit(lines, n - 1, d, unit) {
        LineFound(lines, d, unit, n);
      } else if LastOfUnit(before, unit).Some? {
        LastToSetStays(lines, d, unit, n, LastOfUnit(before, unit).value);
      }
    }
  }

  lemma NoSettings(unit: LifetimeUnit)
    ensures LastOfUnit([], unit) == None
  {
  }

  lemma LineFound(lines: seq<SourceLine>, d: Option<nat>, unit: LifetimeUnit, n: nat)
    requires 0 < n <= |lines| && SetsUnit(lines, n - 1, d, unit)
    ensures FoundAt(lines, d, unit, n, LifetimeAt(lines, n - 1).value.value)
  {
    hide LifetimeAt, InBlock, IsGlobalCommand;
    assert LastToSet(lines, d, unit, n, n - 1);
  }

  // ---------------------------------------------------------------- the grammar of the commands, as a table

  datatype Item = Word(text: string) | Anything | UnitName | SequenceNumber | LifetimeWord

  predicate FitsItem(token: string, item: Item) {
    match item
    case Word(text) => Lower(token) == text
    case Anything => true
    case UnitName => Lower(token) == "seconds" || Lower(token) == "kilobytes"
    case SequenceNumber =>
      exists n :: 0 < n <= |token| && (forall i :: 0 <= i < n ==> token[i] in "0123456789")
                  && (n < |token| ==> !IsWordChar(token[n]))
    case LifetimeWord => |token| >= 8 && Lower(token[..8]) == "lifetime" && (|token| > 8 ==> !IsWordChar(token[8]))
  }

  /** The tokens spell the pattern, and nothing more unless it is open. */
  predicate Fits(tokens: seq<string>, pattern: seq<Item>, open: bool) {
    && (|tokens| == |pattern| || (open && |tokens| > |pattern|))
    && forall i :: 0 <= i < |pattern| ==> FitsItem(tokens[i], pattern[i])
  }

  const PROFILE: seq<Item> := [Word("crypto"), Word("ipsec"), Word("profile"), Anything]
  const STATIC_MAP: seq<Item> := [Word("crypto"), Word("map"), Anything, SequenceNumber]
  const DYNAMIC_MAP: seq<Item> := [Word("crypto"), Word("dynamic-map"), Anything, SequenceNumber]
  const GLOBAL_LIFETIME: seq<Item> :=
    [Word("crypto"), Word("ipsec"), Word("security-association"), Word("lifetime"), UnitName, Anything]
  const SET_LIFETIME: seq<Item> := [Word("set"), Word("security-association"), Word("lifetime"), UnitName, Anything]
  const SET_PEER: seq<Item> := [Word("set"), Word("peer"), Anything]

  lemma ProfileIff(tokens: seq<string>)
    ensures IsProfile(tokens) <==> Fits(tokens, PROFILE, false)
  {
    hide Lower;
    if Fits(tokens, PROFILE, false) {
      assert FitsItem(tokens[0], PROFILE[0]) && FitsItem(tokens[1], PROFILE[1]) && FitsItem(tokens[2], PROFILE[2]);
    }
  }

  lemma {:induction false} DigitsMeaning(s: string)
    ensures var n := DigitsLength(s);
            && (forall i :: 0 <= i < n ==> IsDigit(s[i])) && (n < |s| ==> !IsDigit(s[n]))
  {
    if s != "" && IsDigit(s[0]) {
      DigitsMeaning(s[1..]);
    }
  }

  lemma DigitIff(c: char)
    ensures IsDigit(c) <==> c in "0123456789"
  {
  }

  lemma SequenceIff(token: string)
    ensures DigitsLength(token) > 0 && BoundaryAt(token, DigitsLength(token)) <==> FitsItem(token, SequenceNumber)
  {
    DigitsMeaning(token);
    var d := DigitsLength(token);
    forall i | 0 <= i < |token|
      ensures IsDigit(token[i]) <==> token[i] in "0123456789"
    {
      DigitIff(token[i]);
    }
    if FitsItem(token, SequenceNumber) {
      var n :| 0 < n <= |token| && (forall i :: 0 <= i < n ==> token[i] in "0123456789")
               && (n < |token| ==> !IsWordChar(token[n]));
      assert d >= n;
      assert d == n;
    }
  }

  lemma CryptoMapIff(tokens: seq<string>)
    ensures IsCryptoMap(tokens) <==> Fits(tokens, STATIC_MAP, true) || Fits(tokens, DYNAMIC_MAP, true)
  {
    hide Lower, DigitsLength;
    if |tokens| >= 4 {
      SequenceIff(tokens[3]);
      hide FitsItem;
      CryptoMapItems(tokens);
    }
  }

  lemma CryptoMapItems(tokens: seq<string>)
    requires |tokens| >= 4
    ensures Fits(tokens, STATIC_MAP, true)
            <==> Spells(tokens, 0, "crypto") && Spells(tokens, 1, "map") && FitsItem(tokens[3], SequenceNumber)
    ensures Fits(tokens, DYNAMIC_MAP, true)
            <==> Spells(tokens, 0, "crypto") && Spells(tokens, 1, "dynamic-map") && FitsItem(tokens[3], SequenceNumber)
  {
    hide Lower;
    if Fits(tokens, STATIC_MAP, true) {
      assert FitsItem(tokens[0], STATIC_MAP[0]) && FitsItem(tokens[1], STATIC_MAP[1]);
      assert FitsItem(tokens[3], STATIC_MAP[3]);
    }
    if Fits(tokens, DYNAMIC_MAP, true) {
      assert FitsItem(tokens[0], DYNAMIC_MAP[0]) && FitsItem(tokens[1], DYNAMIC_MAP[1]);
      assert FitsItem(tokens[3], DYNAMIC_MAP[3]);
    }
  }

  lemma UnitIff(token: string)
    ensures UnitOf(token) == Some(Seconds) <==> Lower(token) == "seconds"
    ensures UnitOf(token) == Some(Kilobytes) <==> Lower(token) == "kilobytes"
    ensures UnitOf(token).Some? <==> FitsItem(token, UnitName)
  {
    hide Lower;
    assert |"seconds"| != |"kilobytes"|;
  }

  lemma GlobalLifetimeIff(tokens: seq<string>)
    ensures GlobalLifetimeMatch(tokens).Some? <==> Fits(tokens, GLOBAL_LIFETIME, false)
    ensures GlobalLifetimeMatch(tokens).Some? ==>
      GlobalLifetimeMatch(tokens).value == LifetimeMatch(UnitOf(tokens[4]).value, tokens[5])
  {
    hide Lower, UnitOf;
    if |tokens| == 6 {
      UnitIff(tokens[4]);
      if Fits(tokens, GLOBAL_LIFETIME, false) {
        assert FitsItem(tokens[0], GLOBAL_LIFETIME[0]) && FitsItem(tokens[1], GLOBAL_LIFETIME[1]);
        assert FitsItem(tokens[2], GLOBAL_LIFETIME[2]) && FitsItem(tokens[3], GLOBAL_LIFETIME[3]);
        assert FitsItem(tokens[4], GLOBAL_LIFETIME[4]);
      }
    }
  }

  lemma SetLifetimeIff(tokens: seq<string>)
    ensures SetLifetimeMatch(tokens).Some? <==> Fits(tokens, SET_LIFETIME, false)
    ensures SetLifetimeMatch(tokens).Some? ==>
      SetLifetimeMatch(tokens).value == LifetimeMatch(UnitOf(tokens[3]).value, tokens[4])
  {
    hide Lower, UnitOf;
    if |tokens| == 5 {
      UnitIff(tokens[3]);
      if Fits(tokens, SET_LIFETIME, false) {
        assert FitsItem(tokens[0], SET_LIFETIME[0]) && FitsItem(tokens[1], SET_LIFETIME[1]);
        assert FitsItem(tokens[2], SET_LIFETIME[2]) && FitsItem(tokens[3], SET_LIFETIME[3]);
      }
    }
  }

  lemma SetPeerIff(tokens: seq<string>)
    ensures IsSetPeer(tokens) <==> Fits(tokens, SET_PEER, true)
  {
    hide Lower;
    if Fits(tokens, SET_PEER, true) {
      assert FitsItem(tokens[0], SET_PEER[0]) && FitsItem(tokens[1], SET_PEER[1]);
    }
  }

  /** The four ways in which a line can start like a lifetime command, well formed or not. */
  lemma LifetimePrefixIff(tokens: seq<string>)
    ensures IsLifetimePrefix(tokens)
            <==> || Fits(tokens, [Word("security-association"), LifetimeWord], true)
                 || Fits(tokens, [Word("set"), Word("security-association"), LifetimeWord], true)
                 || Fits(tokens, [Word("crypto"), Word("ipsec"), Word("security-association"), LifetimeWord], true)
                 || Fits(tokens,
                         [Word("crypto"), Word("ipsec"), Word("set"), Word("security-association"), LifetimeWord],
                         true)
  {
    hide Lower;
    WordsDiffer();
    PrefixItems(tokens);
  }

  lemma WordsDiffer()
    ensures "crypto" != "set" && "crypto" != "security-association" && "set" != "security-association"
    ensures "ipsec" != "set"
  {
    assert "crypto"[0] != "set"[0] && "crypto"[0] != "security-association"[0];
    assert |"set"| != |"security-association"| && "ipsec"[0] != "set"[0];
  }

  predicate LifetimeAtToken(tokens: seq<string>, i: nat) {
    Spells(tokens, i, "security-association") && i + 1 < |tokens| && FitsItem(tokens[i + 1], LifetimeWord)
  }

  lemma PrefixItems(tokens: seq<string>)
    ensures Fits(tokens, [Word("security-association"), LifetimeWord], true) <==> LifetimeAtToken(tokens, 0)
    ensures Fits(tokens, [Word("set"), Word("security-association"), LifetimeWord], true)
            <==> Spells(tokens, 0, "set") && LifetimeAtToken(tokens, 1)
    ensures Fits(tokens, [Word("crypto"), Word("ipsec"), Word("security-association"), LifetimeWord], true)
            <==> Spells(tokens, 0, "crypto") && Spells(tokens, 1, "ipsec") && LifetimeAtToken(tokens, 2)
    ensures Fits(tokens, [Word("crypto"), Word("ipsec"), Word("set"), Word("security-association"), LifetimeWord], true)
            <==> && Spells(tokens, 0, "crypto") && Spells(tokens, 1, "ipsec") && Spells(tokens, 2, "set")
                 && LifetimeAtToken(tokens, 3)
  {
    hide Lower;
    OpenPattern(tokens, [Word("security-association"), LifetimeWord]);
    OpenPattern(tokens, [Word("set"), Word("security-association"), LifetimeWord]);
    OpenPattern(tokens, [Word("crypto"), Word("ipsec"), Word("security-association"), LifetimeWord]);
    OpenPattern(tokens, [Word("crypto"), Word("ipsec"), Word("set"), Word("security-association"), LifetimeWord]);
  }

  lemma OpenPattern(tokens: seq<string>, pattern: seq<Item>)
    requires 2 <= |pattern| <= 5
    ensures Fits(tokens, pattern, true)
            <==> && |tokens| >= |pattern|
                 && FitsItem(tokens[0], pattern[0]) && FitsItem(tokens[1], pattern[1])
                 && (|pattern| > 2 ==> FitsItem(tokens[2], pattern[2]))
                 && (|pattern| > 3 ==> FitsItem(tokens[3], pattern[3]))
                 && (|pattern| > 4 ==> FitsItem(tokens[4], pattern[4]))
  {
    hide FitsItem;
  }

  // ---------------------------------------------------------------- numbers

  /** The decimal notation of a number. */
  function Decimal(n: nat): string {
    if n < 10 then [('0' as int + n) as char] else Decimal(n / 10) + [('0' as int + n % 10) as char]
  }

  lemma {:induction false} DecimalIsNumeral(n: nat)
    ensures Decimal(n) != "" && DigitsOnly(Decimal(n)) == Decimal(n) && DigitsValue(Decimal(n)) == n
    ensures forall i :: 0 <= i < |Decimal(n)| ==> IsDigit(Decimal(n)[i])
  {
    if n >= 10 {
      DecimalIsNumeral(n / 10);
      var d := Decimal(n);
      assert d[..|d| - 1] == Decimal(n / 10);
    } else {
      assert Decimal(n)[..0] == "";
      assert DigitsValue("") == 0 && DigitsOnly("") == "";
    }
  }

  lemma PlainNumeral(n: nat)
    ensures IsNumeral(Decimal(n)) && IsDigit(Decimal(n)[0])
  {
    DecimalIsNumeral(n);
    hide Decimal;
  }

  lemma NumeralIsRead(d: string)
    requires d != "" && IsDigit(d[0]) && IsNumeral(d) && |DigitsOnly(d)| <= 4300
    ensures ParseInt(d) == Some(DigitsValue(DigitsOnly(d)))
    ensures ParseInt("+" + d) == Some(DigitsValue(DigitsOnly(d)))
    ensures ParseInt("-" + d) == Some(-(DigitsValue(DigitsOnly(d)) as int))
  {
    hide IsNumeral, DigitsOnly, DigitsValue;
    assert ("+" + d)[1..] == d && ("-" + d)[1..] == d;
  }

  /** A number written in decimal is read back, with either sign or none. */
  lemma NumbersReadBack(n: nat)
    requires |Decimal(n)| <= 4300
    ensures ParseInt(Decimal(n)) == Some(n)
    ensures ParseInt("+" + Decimal(n)) == Some(n)
    ensures ParseInt("-" + Decimal(n)) == Some(-(n as int))
  {
    hide Decimal, IsNumeral, DigitsOnly, DigitsValue, ParseInt;
    DecimalIsNumeral(n);
    PlainNumeral(n);
    NumeralIsRead(Decimal(n));
  }

  lemma {:induction false} DigitsConcat(a: string, b: string)
    ensures DigitsOnly(a + b) == DigitsOnly(a) + DigitsOnly(b)
  {
    if b == "" {
      assert a + b == a;
    } else {
      assert (a + b)[..|a + b| - 1] == a + b[..|b| - 1];
      DigitsConcat(a, b[..|b| - 1]);
    }
  }

  /** A single underscore between digits is skipped; anywhere else, or doubled, it makes the text no number. */
  lemma UnderscoresSeparate(n: nat, m: nat)
    requires |Decimal(n)| + |Decimal(m)| <= 4300
    ensures ParseInt(Decimal(n) + "_" + Decimal(m)).Some?
    ensures ParseInt(Decimal(n) + "_" + Decimal(m)) == ParseInt(Decimal(n) + Decimal(m))
    ensures ParseInt(Decimal(n) + "__" + Decimal(m)).None?
    ensures ParseInt(Decimal(n) + "_").None? && ParseInt("_" + Decimal(n)).None?
  {
    DecimalIsNumeral(n);
    DecimalIsNumeral(m);
    hide Decimal, DigitsValue, DigitsOnly, ParseInt;
    UnderscoreSkipped(Decimal(n), Decimal(m));
    UnderscoreMisplaced(Decimal(n), Decimal(m));
  }

  predicate AllDigits(s: string) {
    s != "" && forall i :: 0 <= i < |s| ==> '0' <= s[i] <= '9'
  }

  lemma UnderscoreIsNumeral(a: string, b: string)
    requires AllDigits(a) && AllDigits(b)
    ensures IsNumeral(a + b) && IsNumeral(a + "_" + b)
    ensures AllDigits(a + b) && (a + "_" + b)[0] == a[0]
  {
    var s := a + "_" + b;
    assert forall i :: 0 <= i < |s| ==> s[i] == if i < |a| then a[i] else if i == |a| then '_' else b[i - |a| - 1];
  }

  lemma UnderscoreDigits(a: string, b: string)
    ensures DigitsOnly(a + "_" + b) == DigitsOnly(a + b) == DigitsOnly(a) + DigitsOnly(b)
  {
    assert "_"[..0] == "" && DigitsOnly("") == "" && DigitsOnly("_") == "";
    hide DigitsOnly;
    DigitsConcat(a, b);
    DigitsConcat(a, "_");
    DigitsConcat(a + "_", b);
  }

  lemma UnderscoreSkipped(a: string, b: string)
    requires AllDigits(a) && AllDigits(b) && |DigitsOnly(a)| + |DigitsOnly(b)| <= 4300
    ensures ParseInt(a + "_" + b).Some? && ParseInt(a + "_" + b) == ParseInt(a + b)
  {
    hide DigitsOnly, DigitsValue, IsNumeral;
    UnderscoreDigits(a, b);
    UnderscoreIsNumeral(a, b);
  }

  lemma UnderscoreMisplaced(a: string, b: string)
    requires AllDigits(a)
    ensures ParseInt(a + "__" + b).None? && ParseInt(a + "_").None? && ParseInt("_" + a).None?
  {
    hide DigitsOnly, DigitsValue;
    var s := a + "__" + b;
    assert s[0] == a[0] && s[|a|] == '_' && s[|a| + 1] == '_';
    assert (a + "_")[0] == a[0] && (a + "_")[|a|] == '_' && ("_" + a)[0] == '_';
  }

  lemma {:induction false} DigitsOnlyOfDigits(s: string)
    requires forall i :: 0 <= i < |s| ==> '0' <= s[i] <= '9'
    ensures DigitsOnly(s) == s
  {
    if s != "" {
      DigitsOnlyOfDigits(s[..|s| - 1]);
    }
  }

  lemma DigitsAreNumeral(s: string)
    requires AllDigits(s)
    ensures IsNumeral(s)
  {
  }

  /** Digits alone are a number unless there are more than 4300 of them. */
  lemma TooManyDigits(s: string)
    requires AllDigits(s)
    ensures ParseInt(s).None? <==> |s| > 4300
  {
    hide DigitsOnly, DigitsValue, IsNumeral;
    DigitsOnlyOfDigits(s);
    DigitsAreNumeral(s);
  }

  /** A positive number is a setting, on its line and in its unit; zero and a negative number are warnings. */
  lemma LifetimeValues(lineNumber: nat, command: string, unit: LifetimeUnit, n: nat)
    requires |Decimal(n)| <= 4300
    ensures ParseLifetime(lineNumber, command, Some(LifetimeMatch(unit, Decimal(n))))
            == if n > 0 then Success(LifetimeSetting(unit, n, lineNumber))
               else Failure(ParseWarning(InvalidLifetime(unit, Decimal(n), command), lineNumber))
    ensures ParseLifetime(lineNumber, command, Some(LifetimeMatch(unit, "-" + Decimal(n))))
            == Failure(ParseWarning(InvalidLifetime(unit, "-" + Decimal(n), command), lineNumber))
  {
    hide Decimal, ParseInt;
    NumbersReadBack(n);
  }

  /** So is anything that is not a number, and a command of the wrong shape is a warning of its own. */
  lemma LifetimeNonsense(lineNumber: nat, command: string, unit: LifetimeUnit, text: string)
    requires text == "" || IsLetter(text[0])
    ensures ParseLifetime(lineNumber, command, Some(LifetimeMatch(unit, text)))
            == Failure(ParseWarning(InvalidLifetime(unit, text, command), lineNumber))
    ensures ParseLifetime(lineNumber, command, None) == Failure(ParseWarning(MalformedLifetime, lineNumber))
  {
  }

  predicate IsLetter(c: char) {
    'a' <= c <= 'z' || 'A' <= c <= 'Z'
  }

  // ---------------------------------------------------------------- words of a line

  predicate AllBlank(s: string) {
    forall i :: 0 <= i < |s| ==> s[i] == ' ' || s[i] == '\t'
  }

  predicate IsWord(s: string) {
    s != "" && forall i :: 0 <= i < |s| ==> s[i] != ' ' && s[i] != '\t'
  }

  /** Words with blanks after each; only the last may be followed by none. */
  function Spaced(words: seq<string>, gaps: seq<string>): string
    requires |words| == |gaps|
  {
    if words == [] then "" else words[0] + gaps[0] + Spaced(words[1..], gaps[1..])
  }

  lemma {:induction false} BlanksThenWord(blanks: string, rest: string)
    requires AllBlank(blanks) && (rest != "" ==> !IsBlank(rest[0]))
    ensures LeadingBlanks(blanks + rest) == |blanks|
    decreases |blanks|
  {
    if blanks == "" {
      assert blanks + rest == rest;
    } else {
      BlanksThenWord(blanks[1..], rest);
      assert (blanks + rest)[1..] == blanks[1..] + rest;
    }
  }

  lemma {:induction false} WordThenBlank(word: string, rest: string)
    requires (forall i :: 0 <= i < |word| ==> !IsBlank(word[i])) && (rest != "" ==> IsBlank(rest[0]))
    ensures WordLength(word + rest) == |word|
    decreases |word|
  {
    if word == "" {
      assert word + rest == rest;
    } else {
      WordThenBlank(word[1..], rest);
      assert (word + rest)[1..] == word[1..] + rest;
    }
  }

  lemma FirstWord(lead: string, word: string, tail: string)
    requires AllBlank(lead) && IsWord(word) && (tail != "" ==> IsBlank(tail[0]))
    ensures Words(lead + word + tail) == [word] + Words(tail)
  {
    var s := lead + word + tail;
    assert s == lead + (word + tail);
    BlanksThenWord(lead, word + tail);
    WordThenBlank(word, tail);
    assert s[|lead|..] == word + tail;
    assert (word + tail)[..|word|] == word && (word + tail)[|word|..] == tail;
  }

  lemma OnlyBlanks(s: string)
    requires AllBlank(s)
    ensures Words(s) == []
  {
    assert s == s + "";
    BlanksThenWord(s, "");
  }

  /** A line is cut into its words wherever blanks separate them, and its indentation is the blanks before the first. */
  lemma {:induction false} WordsOfLine(lead: string, words: seq<string>, gaps: seq<string>)
    requires |words| == |gaps| && AllBlank(lead)
    requires forall i :: 0 <= i < |words| ==> IsWord(words[i]) && AllBlank(gaps[i])
    requires forall i :: 0 <= i < |words| - 1 ==> gaps[i] != ""
    ensures Words(lead + Spaced(words, gaps)) == words
    ensures LeadingBlanks(lead + Spaced(words, gaps)) == |lead|
    decreases |words|
  {
    hide Words, LeadingBlanks, AllBlank, IsWord, Spaced;
    if words == [] {
      NoWords(lead, words, gaps);
    } else {
      var rest := Spaced(words[1..], gaps[1..]);
      var tail := gaps[0] + rest;
      WordsOfLine(gaps[0], words[1..], gaps[1..]);
      WordThenTail(lead, words, gaps, rest);
      FirstWord(lead, words[0], tail);
      assert words == [words[0]] + words[1..];
    }
  }

  lemma NoWords(lead: string, words: seq<string>, gaps: seq<string>)
    requires words == [] && gaps == [] && AllBlank(lead)
    ensures Words(lead + Spaced(words, gaps)) == [] && LeadingBlanks(lead + Spaced(words, gaps)) == |lead|
  {
    hide Words, LeadingBlanks;
    assert lead + Spaced(words, gaps) == lead && lead + "" == lead;
    OnlyBlanks(lead);
    BlanksThenWord(lead, "");
  }

  lemma WordThenTail(lead: string, words: seq<string>, gaps: seq<string>, rest: string)
    requires |words| == |gaps| > 0 && AllBlank(lead) && IsWord(words[0]) && AllBlank(gaps[0])
    requires rest == Spaced(words[1..], gaps[1..]) && (|words| > 1 ==> gaps[0] != "")
    ensures lead + Spaced(words, gaps) == lead + words[0] + (gaps[0] + rest)
    ensures gaps[0] + rest != "" ==> IsBlank((gaps[0] + rest)[0])
    ensures LeadingBlanks(lead + Spaced(words, gaps)) == |lead|
  {
    hide LeadingBlanks;
    BlanksThenWord(lead, words[0] + (gaps[0] + rest));
    assert lead + Spaced(words, gaps) == lead + (words[0] + (gaps[0] + rest));
    assert |words| == 1 ==> rest == "";
  }

  // ---------------------------------------------------------------- what a declaration names, what a line is

  lemma {:induction false} DigitsStop(digits: string, rest: string)
    requires forall i :: 0 <= i < |digits| ==> IsDigit(digits[i])
    requires rest != "" ==> !IsDigit(rest[0])
    ensures DigitsLength(digits + rest) == |digits|
    decreases |digits|
  {
    if digits == "" {
      assert digits + rest == rest;
    } else {
      DigitsStop(digits[1..], rest);
      assert (digits + rest)[1..] == digits[1..] + rest;
    }
  }

  /** A declaration names its block: a profile by its last word, a map by its name and its sequence number. */
  lemma DeclarationNames(line: SourceLine, n: nat, rest: string)
    requires Declares(line) && |line.tokens| >= 4
    requires !Fits(line.tokens, PROFILE, false) ==>
      line.tokens[3] == Decimal(n) + rest && (rest != "" ==> !IsWordChar(rest[0]))
    ensures if Fits(line.tokens, PROFILE, false)
            then Declared(line) == Identifier(IpsecProfile, line.tokens[3], None)
            else Declared(line) == Identifier(CryptoMap, line.tokens[2], Some(n))
  {
    hide Fits, Decimal, TopLevel, IsGlobalCommand, IsProfile, IsCryptoMap;
    ProfileIff(line.tokens);
    if !IsProfile(line.tokens) {
      DecimalIsNumeral(n);
      DigitsStop(Decimal(n), rest);
      assert line.tokens[3][..|Decimal(n)|] == Decimal(n);
    }
  }

  predicate StartsCommand(words: seq<string>) {
    words != [] && words[0] != "" && words[0][0] != '!'
  }

  /** A line counts unless it is blank or its first visible character is an exclamation mark. */
  lemma SignificantIff(number: nat, lead: string, words: seq<string>, gaps: seq<string>)
    requires |words| == |gaps| && AllBlank(lead)
    requires forall i :: 0 <= i < |words| ==> IsWord(words[i]) && AllBlank(gaps[i])
    requires forall i :: 0 <= i < |words| - 1 ==> gaps[i] != ""
    ensures var line := ToSourceLine(number, lead + Spaced(words, gaps));
            && (Significant(line) <==> StartsCommand(words))
            && (TopLevel(line) <==> StartsCommand(words) && lead == "")
            && (InBlock(line) <==> StartsCommand(words) && lead != "")
            && line.tokens == words && line.number == number
  {
    hide Words, LeadingBlanks, Spaced;
    WordsOfLine(lead, words, gaps);
  }

  /** The word characters of a token boundary are the ASCII digits, capitals, letters and the underscore. */
  lemma WordCharacters(c: char)
    ensures IsWordChar(c) <==> 48 <= c as int <= 57 || 65 <= c as int <= 90 || c as int == 95 || 97 <= c as int <= 122
  {
  }

  /** Letter case: in ASCII a letter is 32 above its capital, and every other character stays. */
  lemma LowerLetters(c: char)
    ensures ToLower(c) as int == if 65 <= c as int <= 90 then c as int + 32 else c as int
  {
  }
}
