/**
 * The offline IPsec Phase 2 lifetime validator
 * (services/api/netops_api/validators/cisco_ios_ipsec.py), from the texts of two
 * configurations to findings that cite their lines.
 */
module Phase2Validator {
  import opened Base
  import opened CiscoIos

  datatype Status = Pass | Fail | InsufficientContext | NotApplicable

  datatype Severity = Info | Warning | Error

  datatype Document = Local | Peer

  datatype Role = Observed | Expected

  datatype Evidence = Evidence(document: Document, lineNumber: nat, role: Role)

  datatype Explanation =
    | NoAssociationFound | PeerNotSupplied | NotPaired | LifetimeMissing | LifetimesMatch | LifetimesDiffer

  datatype Finding = Finding(
    status: Status,
    severity: Severity,
    associationId: Option<Identifier>,
    observed: Option<int>,
    expected: Option<int>,
    evidence: seq<Evidence>,
    explanation: Explanation)

  type AssociationMap = map<Identifier, Identifier>

  /** `_effective_lifetime`: the block overrides the global setting; a platform default is not inferred. */
  function EffectiveLifetime(config: Config, association: IpsecAssociation, unit: LifetimeUnit)
    : Option<LifetimeSetting>
  {
    if association.EffectiveOverride(unit).Some? then association.EffectiveOverride(unit)
    else config.GlobalLifetime(unit)
  }

  function WithId(associations: seq<IpsecAssociation>, id: Identifier): seq<IpsecAssociation> {
    if associations == [] then []
    else
      var last := associations[|associations| - 1];
      WithId(associations[..|associations| - 1], id) + (if last.Id() == id then [last] else [])
  }

  /** `_peer_association`: only an explicit pairing with exactly one candidate is accepted. */
  function PeerAssociation(association: IpsecAssociation, peer: Config, pairs: Option<AssociationMap>)
    : Option<IpsecAssociation>
  {
    if pairs.None? || association.Id() !in pairs.value then None
    else
      var candidates := WithId(peer.associations, pairs.value[association.Id()]);
      if |candidates| == 1 then Some(candidates[0]) else None
  }

  function Value(setting: Option<LifetimeSetting>): Option<int> {
    if setting.Some? then Some(setting.value.value) else None
  }

  function Cited(setting: Option<LifetimeSetting>, document: Document, role: Role): seq<Evidence> {
    if setting.Some? then [Evidence(document, setting.value.lineNumber, role)] else []
  }

  /** The outcome of comparing two effective lifetimes, either of which may be missing. */
  function Compare(id: Identifier, local: Option<LifetimeSetting>, peer: Option<LifetimeSetting>): Finding {
    var (status, severity, explanation) :=
      if local.None? || peer.None? then (InsufficientContext, Warning, LifetimeMissing)
      else if local.value.value == peer.value.value then (Pass, Info, LifetimesMatch)
      else (Fail, Error, LifetimesDiffer);
    Finding(status, severity, Some(id), Value(local), Value(peer),
            Cited(local, Local, Observed) + Cited(peer, Peer, Expected), explanation)
  }

  function Unpaired(id: Identifier, local: Option<LifetimeSetting>, explanation: Explanation): Finding {
    Finding(InsufficientContext, Warning, Some(id), Value(local), None, Cited(local, Local, Observed), explanation)
  }

  /** The finding about one association of the local configuration. */
  function FindingFor(local: Config, peer: Option<Config>, pairs: Option<AssociationMap>, a: IpsecAssociation)
    : Finding
  {
    var lifetime := EffectiveLifetime(local, a, Seconds);
    if peer.None? then Unpaired(a.Id(), lifetime, PeerNotSupplied)
    else
      match PeerAssociation(a, peer.value, pairs)
      case None => Unpaired(a.Id(), lifetime, NotPaired)
      case Some(b) => Compare(a.Id(), lifetime, EffectiveLifetime(peer.value, b, Seconds))
  }

  // ---------------------------------------------------------------- the validator

  /** `_evidence`. */
  method CollectEvidence(local: Option<LifetimeSetting>, peer: Option<LifetimeSetting>)
    returns (evidence: seq<Evidence>)
    ensures evidence == Cited(local, Local, Observed) + Cited(peer, Peer, Expected)
  {
    evidence := [];
    if local.Some? {
      evidence := evidence + [Evidence(Local, local.value.lineNumber, Observed)];
    }
    if peer.Some? {
      evidence := evidence + [Evidence(Peer, peer.value.lineNumber, Expected)];
    }
  }

  /** One finding for each local association, in order; one in all when there is none. */
  method ValidatePhase2Lifetime(local: Config, peer: Option<Config>, pairs: Option<AssociationMap>)
    returns (findings: seq<Finding>)
    ensures local.associations == [] ==>
      findings == [Finding(NotApplicable, Info, None, None, None, [], NoAssociationFound)]
    ensures local.associations != [] ==>
      && |findings| == |local.associations|
      && forall i :: 0 <= i < |findings| ==> findings[i] == FindingFor(local, peer, pairs, local.associations[i])
  {
    hide EffectiveLifetime, PeerAssociation;
    if local.associations == [] {
      return [Finding(NotApplicable, Info, None, None, None, [], NoAssociationFound)];
    }
    findings := [];
    for i := 0 to |local.associations|
      invariant |findings| == i
      invariant forall j :: 0 <= j < i ==> findings[j] == FindingFor(local, peer, pairs, local.associations[j])
    {
      var a := local.associations[i];
      var lifetime := EffectiveLifetime(local, a, Seconds);
      if peer.None? {
        var evidence := CollectEvidence(lifetime, None);
        findings := findings + [
          Finding(InsufficientContext, Warning, Some(a.Id()), Value(lifetime), None, evidence, PeerNotSupplied)];
        continue;
      }
      var b := PeerAssociation(a, peer.value, pairs);
      if b.None? {
        var evidence := CollectEvidence(lifetime, None);
        findings := findings + [
          Finding(InsufficientContext, Warning, Some(a.Id()), Value(lifetime), None, evidence, NotPaired)];
        continue;
      }
      var peerLifetime := EffectiveLifetime(peer.value, b.value, Seconds);
      var evidence := CollectEvidence(lifetime, peerLifetime);
      if lifetime.None? || peerLifetime.None? {
        findings := findings + [
          Finding(InsufficientContext, Warning, Some(a.Id()), Value(lifetime), Value(peerLifetime), evidence,
                  LifetimeMissing)];
        continue;
      }
      if lifetime.value.value == peerLifetime.value.value {
        findings := findings + [
          Finding(Pass, Info, Some(a.Id()), Value(lifetime), Value(peerLifetime), evidence, LifetimesMatch)];
        continue;
      }
      findings := findings + [
        Finding(Fail, Error, Some(a.Id()), Value(lifetime), Value(peerLifetime), evidence, LifetimesDiffer)];
    }
  }

  // ---------------------------------------------------------------- from text to finding

  /** The line that decides the lifetime of block d: the last in the block, else the last global one. */
  predicate Decides(lines: seq<SourceLine>, d: nat, i: nat) {
    var n := |lines|;
    || LastToSet(lines, Some(d), Seconds, n, i)
    || ((forall j :: 0 <= j < n ==> !SetsUnit(lines, j, Some(d), Seconds)) && LastToSet(lines, None, Seconds, n, i))
  }

  /** No line of the block and no global line sets the lifetime. */
  predicate Undecided(lines: seq<SourceLine>, d: nat) {
    forall j :: 0 <= j < |lines| ==> !SetsUnit(lines, j, Some(d), Seconds) && !SetsUnit(lines, j, None, Seconds)
  }

  ghost predicate SetByDecidingLine(lines: seq<SourceLine>, d: nat, setting: LifetimeSetting) {
    exists i: nat :: Decides(lines, d, i) && SettingAt(lines, i) == Some(setting)
  }

  lemma EffectiveLifetimeIsDecided(lines: seq<SourceLine>, k: nat)
    requires k < |Declarations(lines, |lines|)|
    ensures var d := Declarations(lines, |lines|)[k]; var config := Meaning(lines);
            match EffectiveLifetime(config, config.associations[k], Seconds)
            case None => Undecided(lines, d)
            case Some(s) => SetByDecidingLine(lines, d, s)
  {
    hide SettingAt, SetsUnit, Declares, LastOfUnit, WarningsIn, PeersIn, Declared;
    var n := |lines|;
    var d := Declarations(lines, n)[k];
    ReverseScanFindsLastLine(lines, Some(d), Seconds, n);
    ReverseScanFindsLastLine(lines, None, Seconds, n);
    var config := Meaning(lines);
    assert config.associations[k].lifetimeSettings == SettingsIn(lines, Some(d), n);
    var found := EffectiveLifetime(config, config.associations[k], Seconds);
    if config.associations[k].EffectiveOverride(Seconds).Some? {
      assert FoundAt(lines, Some(d), Seconds, n, found.value);
      var i :| LastToSet(lines, Some(d), Seconds, n, i) && SettingAt(lines, i) == found;
      assert Decides(lines, d, i);
    } else if found.Some? {
      assert FoundAt(lines, None, Seconds, n, found.value);
      var i :| LastToSet(lines, None, Seconds, n, i) && SettingAt(lines, i) == found;
      assert Decides(lines, d, i);
    }
  }

  lemma {:induction false} WithIdMeaning(associations: seq<IpsecAssociation>, id: Identifier)
    ensures forall a :: a in WithId(associations, id) <==> a in associations && a.Id() == id
  {
    if associations != [] {
      WithIdMeaning(associations[..|associations| - 1], id);
    }
  }

  /** The line number that a setting carries is that of the line it was read from. */
  lemma SettingCarriesItsLine(configuration: string, i: nat)
    requires i < |SourceLines(configuration)| && SettingAt(SourceLines(configuration), i).Some?
    ensures SettingAt(SourceLines(configuration), i).value.lineNumber == i + 1
  {
    hide Declares, IsGlobalCommand, IsBlockLifetime, Owner, Declared, ParseInt;
  }

  /**
   * A PASS or FAIL cites one line of each text. Each is the line that decides the lifetime of
   * its block, the values reported are the ones on those lines, and PASS means that they are equal.
   */
  lemma FindingCitesDecidingLines(localText: string, peerText: string, pairs: AssociationMap, k: nat)
    returns (d: nat, i: nat, e: nat, j: nat)
    requires k < |Declarations(SourceLines(localText), |SourceLines(localText)|)|
    requires var local, peer := Meaning(SourceLines(localText)), Meaning(SourceLines(peerText));
             var finding := FindingFor(local, Some(peer), Some(pairs), local.associations[k]);
             finding.status == Pass || finding.status == Fail
    ensures var lines, peerLines := SourceLines(localText), SourceLines(peerText);
            var local, peer := Meaning(lines), Meaning(peerLines);
            var finding := FindingFor(local, Some(peer), Some(pairs), local.associations[k]);
            && d < |lines| && Declares(lines[d]) && Decides(lines, d, i)
            && e < |peerLines| && Declares(peerLines[e]) && Decides(peerLines, e, j)
            && Declared(lines[d]) in pairs && pairs[Declared(lines[d])] == Declared(peerLines[e])
            && finding.evidence == [Evidence(Local, i + 1, Observed), Evidence(Peer, j + 1, Expected)]
            && SettingAt(lines, i).Some? && finding.observed == Some(SettingAt(lines, i).value.value)
            && SettingAt(peerLines, j).Some? && finding.expected == Some(SettingAt(peerLines, j).value.value)
            && (finding.status == Pass <==> finding.observed == finding.expected)
  {
    hide SettingAt, Declares, Declared, SourceLines, Decides, SetByDecidingLine, PeerAssociation, AssociationOf,
      EffectiveLifetime, IpsecAssociation.Id;
    var lines, peerLines := SourceLines(localText), SourceLines(peerText);
    var local, peer := Meaning(lines), Meaning(peerLines);
    var a := local.associations[k];
    var b := PeerAssociation(a, peer, Some(pairs)).value;
    d := Declarations(lines, |lines|)[k];
    DeclaredId(lines, k);
    var l := PairedDeclaration(peerLines, pairs, a, b);
    e := Declarations(peerLines, |peerLines|)[l];
    EffectiveLifetimeIsDecided(lines, k);
    EffectiveLifetimeIsDecided(peerLines, l);
    i := DecidingLine(localText, d, EffectiveLifetime(local, a, Seconds).value);
    j := DecidingLine(peerText, e, EffectiveLifetime(peer, b, Seconds).value);
  }

  lemma DeclaredId(lines: seq<SourceLine>, k: nat)
    requires k < |Declarations(lines, |lines|)|
    ensures Meaning(lines).associations[k].Id() == Declared(lines[Declarations(lines, |lines|)[k]])
  {
    hide Declares, Declared, SettingsIn, PeersIn;
  }

  /** The peer association that was accepted is declared by a line of the peer's text. */
  lemma PairedDeclaration(lines: seq<SourceLine>, pairs: AssociationMap, a: IpsecAssociation, b: IpsecAssociation)
    returns (l: nat)
    requires PeerAssociation(a, Meaning(lines), Some(pairs)) == Some(b)
    ensures l < |Declarations(lines, |lines|)| && Meaning(lines).associations[l] == b
    ensures a.Id() in pairs && pairs[a.Id()] == Declared(lines[Declarations(lines, |lines|)[l]])
  {
    hide Declares, Declared, AssociationOf, WithId, IpsecAssociation.Id;
    var associations := Meaning(lines).associations;
    WithIdMeaning(associations, pairs[a.Id()]);
    assert b in WithId(associations, pairs[a.Id()]);
    l :| 0 <= l < |associations| && associations[l] == b;
    DeclaredId(lines, l);
  }

  lemma DecidingLine(configuration: string, d: nat, setting: LifetimeSetting) returns (i: nat)
    requires SetByDecidingLine(SourceLines(configuration), d, setting)
    ensures var lines := SourceLines(configuration);
            Decides(lines, d, i) && SettingAt(lines, i) == Some(setting) && setting.lineNumber == i + 1
  {
    hide SettingAt, SourceLines;
    i :| Decides(SourceLines(configuration), d, i) && SettingAt(SourceLines(configuration), i) == Some(setting);
    SettingCarriesItsLine(configuration, i);
  }

  // ---------------------------------------------------------------- swapping the two sides

  ghost predicate Inverse(pairs: AssociationMap, back: AssociationMap) {
    forall x, y :: x in pairs && pairs[x] == y <==> y in back && back[y] == x
  }

  function SwapDocument(e: Evidence): Evidence {
    Evidence(if e.document == Local then Peer else Local, e.lineNumber,
             if e.role == Observed then Expected else Observed)
  }

  /** The same evidence seen from the other side, in the other order. */
  function SwapEvidence(evidence: seq<Evidence>): seq<Evidence> {
    seq(|evidence|, i requires 0 <= i < |evidence| => SwapDocument(evidence[|evidence| - 1 - i]))
  }

  ghost predicate Mirrored(f: Finding, g: Finding) {
    && g.status == f.status && g.severity == f.severity && g.explanation == f.explanation
    && g.observed == f.expected && g.expected == f.observed
    && g.evidence == SwapEvidence(f.evidence)
  }

  lemma CompareMirrors(a: Identifier, b: Identifier, local: Option<LifetimeSetting>, peer: Option<LifetimeSetting>)
    ensures Mirrored(Compare(a, local, peer), Compare(b, peer, local))
  {
    var f, g := Compare(a, local, peer), Compare(b, peer, local);
    assert |f.evidence| == |g.evidence|;
    forall i | 0 <= i < |g.evidence|
      ensures g.evidence[i] == SwapDocument(f.evidence[|f.evidence| - 1 - i])
    {
    }
  }

  /** Seen from the peer, a pairing leads back exactly when the local identifier is unambiguous. */
  lemma PairingLeadsBack(local: Config, peer: Config, pairs: AssociationMap, back: AssociationMap,
                         a: IpsecAssociation, b: IpsecAssociation)
    requires Inverse(pairs, back) && a in local.associations
    requires PeerAssociation(a, peer, Some(pairs)) == Some(b)
    ensures PeerAssociation(b, local, Some(back))
            == if |WithId(local.associations, a.Id())| == 1 then Some(a) else None
  {
    hide WithId, IpsecAssociation.Id;
    WithIdMeaning(peer.associations, pairs[a.Id()]);
    assert b in WithId(peer.associations, pairs[a.Id()]);
    WithIdMeaning(local.associations, a.Id());
    assert a in WithId(local.associations, a.Id());
  }

  /** Swapping local and peer keeps the verdict and swaps what was observed and expected, with its evidence. */
  lemma SwapMirrorsFinding(local: Config, peer: Config, pairs: AssociationMap, back: AssociationMap,
                           a: IpsecAssociation, b: IpsecAssociation)
    requires Inverse(pairs, back) && a in local.associations
    requires |WithId(local.associations, a.Id())| == 1
    requires PeerAssociation(a, peer, Some(pairs)) == Some(b)
    ensures b in peer.associations
    ensures Mirrored(FindingFor(local, Some(peer), Some(pairs), a), FindingFor(peer, Some(local), Some(back), b))
  {
    hide WithId, IpsecAssociation.Id, Mirrored, Compare;
    PairingLeadsBack(local, peer, pairs, back, a, b);
    WithIdMeaning(peer.associations, pairs[a.Id()]);
    assert b in WithId(peer.associations, pairs[a.Id()]);
    CompareMirrors(a.Id(), b.Id(), EffectiveLifetime(local, a, Seconds), EffectiveLifetime(peer, b, Seconds));
  }

  // ---------------------------------------------------------------- every finding there is

  /** The peer's one and only association with the identifier that the map gives. */
  ghost predicate IsPairedWith(a: IpsecAssociation, peer: Config, pairs: AssociationMap, b: IpsecAssociation) {
    && a.Id() in pairs
    && exists i :: 0 <= i < |peer.associations| && peer.associations[i] == b
                   && forall j :: 0 <= j < |peer.associations| ==>
                        (peer.associations[j].Id() == pairs[a.Id()] <==> j == i)
  }

  lemma {:induction false} NoneWithId(associations: seq<IpsecAssociation>, id: Identifier)
    requires forall j :: 0 <= j < |associations| ==> associations[j].Id() != id
    ensures WithId(associations, id) == []
  {
    if associations != [] {
      NoneWithId(associations[..|associations| - 1], id);
    }
  }

  lemma {:induction false} OneWithId(associations: seq<IpsecAssociation>, id: Identifier, i: nat)
    requires i < |associations|
    requires forall j :: 0 <= j < |associations| ==> (associations[j].Id() == id <==> j == i)
    ensures WithId(associations, id) == [associations[i]]
  {
    var n := |associations| - 1;
    if i < n {
      OneWithId(associations[..n], id, i);
    } else {
      NoneWithId(associations[..n], id);
    }
  }

  lemma {:induction false} OnlyOneWithId(associations: seq<IpsecAssociation>, id: Identifier) returns (i: nat)
    requires |WithId(associations, id)| == 1
    ensures i < |associations| && associations[i] == WithId(associations, id)[0]
    ensures forall j :: 0 <= j < |associations| ==> (associations[j].Id() == id <==> j == i)
  {
    var n := |associations| - 1;
    if associations[n].Id() == id {
      i := n;
      assert WithId(associations[..n], id) == [];
      WithIdMeaning(associations[..n], id);
      forall j | 0 <= j < n
        ensures associations[j].Id() != id
      {
        assert associations[j] == associations[..n][j];
        assert associations[..n][j] in associations[..n];
      }
    } else {
      i := OnlyOneWithId(associations[..n], id);
      assert forall j :: 0 <= j < n ==> associations[j] == associations[..n][j];
    }
  }

  /** A pairing is accepted exactly when the map names one association and the peer has just one of that name. */
  lemma PairingIff(a: IpsecAssociation, peer: Config, pairs: AssociationMap, b: IpsecAssociation)
    ensures PeerAssociation(a, peer, Some(pairs)) == Some(b) <==> IsPairedWith(a, peer, pairs, b)
    ensures PeerAssociation(a, peer, None) == None
  {
    if PeerAssociation(a, peer, Some(pairs)) == Some(b) {
      var i := OnlyOneWithId(peer.associations, pairs[a.Id()]);
    }
    if IsPairedWith(a, peer, pairs, b) {
      var i :| 0 <= i < |peer.associations| && peer.associations[i] == b
               && forall j :: 0 <= j < |peer.associations| ==>
                    (peer.associations[j].Id() == pairs[a.Id()] <==> j == i);
      OneWithId(peer.associations, pairs[a.Id()], i);
    }
  }

  /** The finding about an association is decided by the peer, the pairing and the two lifetimes, in this order. */
  lemma FindingTable(local: Config, peer: Option<Config>, pairs: Option<AssociationMap>, a: IpsecAssociation)
    ensures var f := FindingFor(local, peer, pairs, a);
            var mine := EffectiveLifetime(local, a, Seconds);
            var paired := peer.Some? && PeerAssociation(a, peer.value, pairs).Some?;
            var theirs :=
              if paired then EffectiveLifetime(peer.value, PeerAssociation(a, peer.value, pairs).value, Seconds)
              else None;
            && f.associationId == Some(a.Id())
            && (f.explanation == PeerNotSupplied <==> peer.None?)
            && (f.explanation == NotPaired <==> peer.Some? && !paired)
            && (f.explanation == LifetimeMissing <==> paired && (mine.None? || theirs.None?))
            && (f.explanation == LifetimesMatch <==>
                  paired && mine.Some? && theirs.Some? && mine.value.value == theirs.value.value)
            && (f.explanation == LifetimesDiffer <==>
                  paired && mine.Some? && theirs.Some? && mine.value.value != theirs.value.value)
            && (f.status == Pass <==> f.explanation == LifetimesMatch) && (f.status == Pass <==> f.severity == Info)
            && (f.status == Fail <==> f.explanation == LifetimesDiffer) && (f.status == Fail <==> f.severity == Error)
            && (f.status == InsufficientContext || f.status == Pass || f.status == Fail)
            && (f.severity == Warning <==> f.status == InsufficientContext)
            && (f.observed == if mine.Some? then Some(mine.value.value) else None)
            && (f.expected == if theirs.Some? then Some(theirs.value.value) else None)
            && f.evidence
               == (if mine.Some? then [Evidence(Local, mine.value.lineNumber, Observed)] else [])
                  + (if theirs.Some? then [Evidence(Peer, theirs.value.lineNumber, Expected)] else [])
  {
    hide EffectiveLifetime, PeerAssociation;
  }
}
