/**
 * The fixed-window rate limiter (services/api/netops_api/core/rate_limit.py). The monotonic
 * clock is a real number; each call carries the time that it read.
 */
module RateLimiter {
  import opened Base

  datatype Window = Window(startedAt: real, requests: int)

  datatype Limits = Limits(maxRequests: int, windowSeconds: int)

  datatype Decision = Allowed | Refused(retryAfter: int)

  type Windows = map<string, Window>

  predicate Expired(limits: Limits, window: Window, now: real) {
    now - window.startedAt >= limits.windowSeconds as real
  }

  /** `max(1, int(remaining) + 1)`. */
  function RetryAfter(limits: Limits, window: Window, now: real): int
    requires !Expired(limits, window, now)
  {
    var remaining := limits.windowSeconds as real - (now - window.startedAt);
    if remaining.Floor + 1 >= 1 then remaining.Floor + 1 else 1
  }

  /** What one request does to the window of its key. */
  function Decide(limits: Limits, window: Option<Window>, now: real): (Window, Decision) {
    if window.None? || Expired(limits, window.value, now) then (Window(now, 1), Allowed)
    else if window.value.requests >= limits.maxRequests
    then (window.value, Refused(RetryAfter(limits, window.value, now)))
    else (Window(window.value.startedAt, window.value.requests + 1), Allowed)
  }

  function Lookup(windows: Windows, key: string): Option<Window> {
    if key in windows then Some(windows[key]) else None
  }

  function Live(limits: Limits, windows: Windows, now: real): Windows {
    map k | k in windows && !Expired(limits, windows[k], now) :: windows[k]
  }

  lemma DroppedIsExpired(limits: Limits, windows: Windows, now: real, expired: set<string>)
    requires expired == set k | k in windows && Expired(limits, windows[k], now)
    ensures windows - expired == Live(limits, windows, now)
  {
    assert (windows - expired).Keys == Live(limits, windows, now).Keys;
  }

  // ---------------------------------------------------------------- the limiter

  class FixedWindowRateLimiter {
    const limits: Limits
    var windows: Windows

    constructor (maxRequests: int, windowSeconds: int)
      ensures limits == Limits(maxRequests, windowSeconds) && windows == map[]
    {
      limits := Limits(maxRequests, windowSeconds);
      windows := map[];
    }

    /** `_prune`. */
    method Prune(now: real)
      modifies this
      ensures windows == Live(limits, old(windows), now)
    {
      var expired := set k | k in windows && Expired(limits, windows[k], now);
      ghost var all := expired;
      while expired != {}
        invariant expired <= all
        invariant windows == old(windows) - (all - expired)
        decreases |expired|
      {
        var key :| key in expired;
        windows := windows - {key};
        expired := expired - {key};
      }
      assert all - expired == all;
      DroppedIsExpired(limits, old(windows), now, all);
    }

    /** Prunes, decides on the window of the key, and records the request. */
    method Check(key: string, now: real) returns (allowed: bool, retryAfter: int)
      modifies this
      ensures Checked(limits, old(windows), Call(key, now))
              == (windows, if allowed then Allowed else Refused(retryAfter))
      ensures allowed ==> retryAfter == 0
    {
      Prune(now);
      if key !in windows || Expired(limits, windows[key], now) {
        windows := windows[key := Window(now, 1)];
        return true, 0;
      }
      var window := windows[key];
      if window.requests >= limits.maxRequests {
        assert windows[key := window] == windows;
        return false, RetryAfter(limits, window, now);
      }
      windows := windows[key := Window(window.startedAt, window.requests + 1)];
      return true, 0;
    }
  }

  // ---------------------------------------------------------------- runs

  datatype Call = Call(key: string, now: real)

  function Checked(limits: Limits, windows: Windows, call: Call): (Windows, Decision) {
    var live := Live(limits, windows, call.now);
    var (window, decision) := Decide(limits, Lookup(live, call.key), call.now);
    (live[call.key := window], decision)
  }

  /** The map after a sequence of calls. */
  function WindowsAfter(limits: Limits, calls: seq<Call>): Windows {
    if calls == [] then map[]
    else Checked(limits, WindowsAfter(limits, calls[..|calls| - 1]), calls[|calls| - 1]).0
  }

  /** What the limiter answers to call i. */
  function Answer(limits: Limits, calls: seq<Call>, i: nat): Decision
    requires i < |calls|
  {
    Checked(limits, WindowsAfter(limits, calls[..i]), calls[i]).1
  }

  /** A limiter that never prunes and sees one key only: the window after the calls for the key. */
  function WindowOf(limits: Limits, calls: seq<Call>, key: string): Option<Window> {
    if calls == [] then None
    else
      var last := calls[|calls| - 1];
      var before := WindowOf(limits, calls[..|calls| - 1], key);
      if last.key == key then Some(Decide(limits, before, last.now).0) else before
  }

  predicate ClockOrdered(calls: seq<Call>) {
    forall i, j :: 0 <= i < j < |calls| ==> calls[i].now <= calls[j].now
  }

  // ---------------------------------------------------------------- pruning is invisible

  /** A key is in the pruned map with its window, or its window has expired by now. */
  ghost predicate Agrees(limits: Limits, windows: Windows, window: Option<Window>, key: string, now: real) {
    if key in windows then window == Some(windows[key])
    else window.None? || Expired(limits, window.value, now)
  }

  lemma AgreesLater(limits: Limits, windows: Windows, window: Option<Window>, key: string, now: real, later: real)
    requires Agrees(limits, windows, window, key, now) && now <= later
    ensures Agrees(limits, Live(limits, windows, later), window, key, later)
  {
  }

  lemma AgreementDecides(limits: Limits, live: Windows, window: Option<Window>, key: string, now: real)
    requires Agrees(limits, live, window, key, now)
    ensures Decide(limits, Lookup(live, key), now) == Decide(limits, window, now)
  {
  }

  lemma {:induction false} MapAgrees(limits: Limits, calls: seq<Call>, key: string, now: real)
    requires ClockOrdered(calls) && (calls != [] ==> calls[|calls| - 1].now <= now)
    ensures Agrees(limits, Live(limits, WindowsAfter(limits, calls), now), WindowOf(limits, calls, key), key, now)
  {
    if calls != [] {
      var front, last := calls[..|calls| - 1], calls[|calls| - 1];
      MapAgrees(limits, front, key, last.now);
      var live := Live(limits, WindowsAfter(limits, front), last.now);
      AgreementDecides(limits, live, WindowOf(limits, front, last.key), last.key, last.now) by {
        MapAgrees(limits, front, last.key, last.now);
      }
      assert Agrees(limits, WindowsAfter(limits, calls), WindowOf(limits, calls, key), key, last.now);
      AgreesLater(limits, WindowsAfter(limits, calls), WindowOf(limits, calls, key), key, last.now, now);
    }
  }

  /**
   * The pruned map decides every call exactly as a limiter that never prunes, and calls for
   * other keys make no difference.
   */
  lemma PruningIsInvisible(limits: Limits, calls: seq<Call>, i: nat)
    requires ClockOrdered(calls) && i < |calls|
    ensures Answer(limits, calls, i)
            == Decide(limits, WindowOf(limits, calls[..i], calls[i].key), calls[i].now).1
  {
    hide Decide;
    MapAgrees(limits, calls[..i], calls[i].key, calls[i].now);
    AgreementDecides(limits, Live(limits, WindowsAfter(limits, calls[..i]), calls[i].now),
                     WindowOf(limits, calls[..i], calls[i].key), calls[i].key, calls[i].now);
  }

  /** After a call, the map holds only windows that are still running. */
  lemma OnlyLiveWindowsRetained(limits: Limits, windows: Windows, call: Call)
    requires limits.windowSeconds > 0
    ensures var after := Checked(limits, windows, call).0;
            forall k :: k in after ==> !Expired(limits, after[k], call.now)
  {
  }

  // ---------------------------------------------------------------- the bound

  function MostPerWindow(limits: Limits): int {
    if limits.maxRequests >= 1 then limits.maxRequests else 1
  }

  predicate Admits(limits: Limits, calls: seq<Call>, i: nat, key: string, from: real)
    requires i < |calls|
  {
    && calls[i].key == key
    && from <= calls[i].now < from + limits.windowSeconds as real
    && Answer(limits, calls, i).Allowed?
  }

  /** How many calls of the key are admitted in the half-open interval that starts at `from`. */
  function Admitted(limits: Limits, calls: seq<Call>, n: nat, key: string, from: real): nat
    requires n <= |calls|
  {
    if n == 0 then 0
    else Admitted(limits, calls, n - 1, key, from) + (if Admits(limits, calls, n - 1, key, from) then 1 else 0)
  }

  /** How many admissions the window of the key accounts for. */
  ghost predicate Accounts(limits: Limits, window: Option<Window>, from: real, admitted: int) {
    match window
    case None => admitted == 0
    case Some(w) =>
      && 1 <= w.requests <= MostPerWindow(limits)
      && admitted <= (if w.startedAt < from then w.requests - 1 else MostPerWindow(limits) - 1 + w.requests)
  }

  lemma AccountsNext(limits: Limits, window: Option<Window>, from: real, admitted: nat, now: real)
    requires Accounts(limits, window, from, admitted)
    requires now < from + limits.windowSeconds as real
    requires now < from ==> admitted == 0
    ensures var (next, decision) := Decide(limits, window, now);
            Accounts(limits, Some(next), from, admitted + (if decision.Allowed? && from <= now then 1 else 0))
  {
  }

  lemma {:induction false} NoneAdmittedBefore(limits: Limits, calls: seq<Call>, n: nat, key: string, from: real)
    requires n <= |calls| && ClockOrdered(calls) && (n > 0 ==> calls[n - 1].now < from)
    ensures Admitted(limits, calls, n, key, from) == 0
  {
    hide Answer;
    if n > 0 {
      NoneAdmittedBefore(limits, calls, n - 1, key, from);
    }
  }

  lemma {:induction false} WindowAccounts(limits: Limits, calls: seq<Call>, n: nat, key: string, from: real)
    requires n <= |calls| && ClockOrdered(calls)
    requires n > 0 ==> calls[n - 1].now < from + limits.windowSeconds as real
    ensures Accounts(limits, WindowOf(limits, calls[..n], key), from, Admitted(limits, calls, n, key, from))
  {
    hide Answer, Decide, Accounts;
    if n == 0 {
      NothingAccounted(limits, from);
      assert calls[..0] == [];
    } else {
      var call := calls[n - 1];
      WindowAccounts(limits, calls, n - 1, key, from);
      assert calls[..n][..n - 1] == calls[..n - 1];
      if call.key == key {
        if call.now < from {
          NoneAdmittedBefore(limits, calls, n - 1, key, from);
        }
        PruningIsInvisible(limits, calls, n - 1);
        AccountsNext(limits, WindowOf(limits, calls[..n - 1], key), from,
                     Admitted(limits, calls, n - 1, key, from), call.now);
      }
    }
  }

  lemma NothingAccounted(limits: Limits, from: real)
    ensures Accounts(limits, None, from, 0)
  {
  }

  /** Any half-open interval as long as the window admits at most 2 * max - 1 calls per key. */
  lemma {:induction false} AdmissionsBounded(limits: Limits, calls: seq<Call>, n: nat, key: string, from: real)
    requires n <= |calls| && ClockOrdered(calls)
    ensures Admitted(limits, calls, n, key, from) <= 2 * MostPerWindow(limits) - 1
  {
    hide Answer;
    if n > 0 && calls[n - 1].now >= from + limits.windowSeconds as real {
      AdmissionsBounded(limits, calls, n - 1, key, from);
    } else {
      WindowAccounts(limits, calls, n, key, from);
    }
  }

  /** One call opens a window, the rest of its quota comes late, and the next window is used up at once. */
  function Burst(limits: Limits, key: string): seq<Call>
    requires limits.maxRequests >= 1
  {
    var w := limits.windowSeconds as real;
    seq(2 * limits.maxRequests, i requires 0 <= i < 2 * limits.maxRequests =>
      Call(key, if i == 0 then 0.0 else if i < limits.maxRequests then w / 2.0 else w))
  }

  lemma {:induction false} BurstWindow(limits: Limits, key: string, n: nat)
    requires limits.maxRequests >= 1 && limits.windowSeconds > 0 && n <= 2 * limits.maxRequests
    ensures var m := limits.maxRequests;
            WindowOf(limits, Burst(limits, key)[..n], key)
            == if n == 0 then None
               else if n <= m then Some(Window(0.0, n)) else Some(Window(limits.windowSeconds as real, n - m))
  {
    if n > 0 {
      var calls := Burst(limits, key);
      BurstWindow(limits, key, n - 1);
      assert calls[..n][..n - 1] == calls[..n - 1];
    }
  }

  lemma {:induction false} BurstAdmitted(limits: Limits, key: string, n: nat)
    requires limits.maxRequests >= 1 && limits.windowSeconds > 0 && n <= 2 * limits.maxRequests
    ensures Admitted(limits, Burst(limits, key), n, key, limits.windowSeconds as real / 2.0)
            == if n == 0 then 0 else n - 1
  {
    hide Answer, WindowsAfter, Live, WindowOf;
    if n > 0 {
      var calls := Burst(limits, key);
      BurstAdmitted(limits, key, n - 1);
      BurstWindow(limits, key, n - 1);
      PruningIsInvisible(limits, calls, n - 1);
    }
  }

  /** With no quota to speak of, the call that opens a window is still admitted. */
  lemma OpeningCallAdmitted(limits: Limits, key: string)
    requires limits.windowSeconds > 0
    ensures Admitted(limits, [Call(key, 0.0)], 1, key, 0.0) == 1
  {
    var calls := [Call(key, 0.0)];
    PruningIsInvisible(limits, calls, 0);
    assert calls[..0] == [];
    assert Admits(limits, calls, 0, key, 0.0);
    assert Admitted(limits, calls, 0, key, 0.0) == 0;
  }

  /** The bound is reached at every max_requests: some clock-ordered calls are admitted that often in one interval. */
  lemma BoundIsReached(limits: Limits, key: string) returns (calls: seq<Call>, from: real)
    requires limits.windowSeconds > 0
    ensures ClockOrdered(calls) && Admitted(limits, calls, |calls|, key, from) == 2 * MostPerWindow(limits) - 1
  {
    if limits.maxRequests >= 1 {
      calls, from := Burst(limits, key), limits.windowSeconds as real / 2.0;
      BurstAdmitted(limits, key, |calls|);
    } else {
      calls, from := [Call(key, 0.0)], 0.0;
      OpeningCallAdmitted(limits, key);
    }
  }

  // ---------------------------------------------------------------- waiting helps

  lemma {:induction false} OtherKeysLeaveWindow(limits: Limits, before: seq<Call>, others: seq<Call>, key: string)
    requires forall i :: 0 <= i < |others| ==> others[i].key != key
    ensures WindowOf(limits, before + others, key) == WindowOf(limits, before, key)
    decreases |others|
  {
    if others == [] {
      assert before + others == before;
    } else {
      var n := |others| - 1;
      OtherKeysLeaveWindow(limits, before, others[..n], key);
      assert (before + others)[..|before| + n] == before + others[..n];
    }
  }

  lemma RefusalSaysHowLong(limits: Limits, window: Option<Window>, now: real, later: real)
    requires Decide(limits, window, now).1.Refused?
    requires window.Some? && window.value.startedAt <= now
    ensures var retryAfter := Decide(limits, window, now).1.retryAfter;
            && 1 <= retryAfter <= limits.windowSeconds + 1
            && Decide(limits, window, now).0 == window.value
            && (later >= now + retryAfter as real ==> Decide(limits, window, later).1.Allowed?)
            && (now <= later < now + retryAfter as real - 1.0 ==> Decide(limits, window, later).1.Refused?)
  {
  }

  lemma {:induction false} WindowStartedBefore(limits: Limits, calls: seq<Call>, key: string, now: real)
    requires ClockOrdered(calls) && (calls != [] ==> calls[|calls| - 1].now <= now)
    ensures WindowOf(limits, calls, key).Some? ==> WindowOf(limits, calls, key).value.startedAt <= now
  {
    if calls != [] {
      WindowStartedBefore(limits, calls[..|calls| - 1], key, calls[|calls| - 1].now);
    }
  }

  /**
   * A refused key that waits as told, whatever the other keys do meanwhile, is admitted; more than a second
   * earlier it would be refused again.
   */
  lemma WaitingHelps(limits: Limits, before: seq<Call>, refused: Call, others: seq<Call>, again: Call)
    requires again.key == refused.key && forall i :: 0 <= i < |others| ==> others[i].key != refused.key
    requires var calls := before + [refused] + others + [again];
             ClockOrdered(calls) && Answer(limits, calls, |before|).Refused?
    ensures var calls := before + [refused] + others + [again];
            var retryAfter, next := Answer(limits, calls, |before|).retryAfter, |before| + 1 + |others|;
            && 1 <= retryAfter <= limits.windowSeconds + 1
            && (again.now >= refused.now + retryAfter as real ==> Answer(limits, calls, next).Allowed?)
            && (again.now < refused.now + retryAfter as real - 1.0 ==> Answer(limits, calls, next).Refused?)
  {
    hide Answer, Decide;
    var calls := before + [refused] + others + [again];
    var key := refused.key;
    PruningIsInvisible(limits, calls, |before|);
    PruningIsInvisible(limits, calls, |before| + 1 + |others|);
    assert calls[..|before|] == before && calls[|before|] == refused;
    assert calls[..|before| + 1 + |others|] == before + [refused] + others;
    assert calls[|before| + 1 + |others|] == again;
    assert ClockOrdered(before) by {
      assert forall i :: 0 <= i < |before| ==> before[i] == calls[i];
    }
    assert before != [] ==> before[|before| - 1] == calls[|before| - 1];
    WindowStartedBefore(limits, before, key, refused.now);
    var window := WindowOf(limits, before, key);
    NoWindowNoRefusal(limits, window, refused.now);
    RefusalSaysHowLong(limits, window, refused.now, again.now);
    OtherKeysLeaveWindow(limits, before + [refused], others, key);
    assert (before + [refused])[..|before|] == before;
  }

  lemma NoWindowNoRefusal(limits: Limits, window: Option<Window>, now: real)
    requires Decide(limits, window, now).1.Refused?
    ensures window.Some?
  {
  }
}
