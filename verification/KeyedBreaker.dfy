/** The Redis-backed circuit breaker of a capability (src/platform/circuit_breaker.py):
    expiring keys driven by three Lua scripts, against a specification that only looks
    at the history of recorded failures and successes. */
module KeyedBreaker {
  import opened Prelude

  datatype StateValue = ClosedState | OpenState | HalfOpenState

  /** A key with its expiry time; None means no time to live. */
  datatype Cell<+T> = Cell(value: T, expiry: Option<int>)

  datatype Keys = Keys(state: Option<Cell<StateValue>>, failures: Option<Cell<int>>, probes: Option<Cell<int>>)

  datatype Limits = Limits(threshold: int, openFor: int, halfOpenMax: int)

  datatype Event = Failure(at: int) | Success(at: int) | Check(at: int)

  function Get<T>(key: Option<Cell<T>>, now: int): Option<T> {
    if key.Some? && (key.value.expiry.Some? ==> now < key.value.expiry.value) then Some(key.value.value) else None
  }

  function StateAt(k: Keys, now: int): StateValue {
    var s := Get(k.state, now);
    if s.Some? then s.value else ClosedState
  }

  function CountAt(k: Keys, now: int): int {
    var c := Get(k.failures, now);
    if c.Some? then c.value else 0
  }

  // ---- The scripts ----

  function OnFailure(lim: Limits, k: Keys, now: int): Keys {
    var state := StateAt(k, now);
    if state.OpenState? then k
    else
      var count := CountAt(k, now) + 1;
      if count >= lim.threshold || state.HalfOpenState? then
        k.(state := Some(Cell(OpenState, Some(now + lim.openFor))), failures := None)
      else k.(failures := Some(Cell(count, Some(now + lim.openFor * 4))))
  }

  function OnSuccess(k: Keys, now: int): Keys {
    if StateAt(k, now).HalfOpenState? then k.(state := Some(Cell(ClosedState, None)), failures := None)
    else k.(failures := None)
  }

  /** The answer of the check script and its effect on the probe counter. */
  function OnCheck(lim: Limits, k: Keys, now: int): (StateValue, Keys) {
    match StateAt(k, now)
    case ClosedState => (ClosedState, k)
    case OpenState => (OpenState, k)
    case HalfOpenState =>
      var probes := Get(k.probes, now);
      var n := if probes.Some? then probes.value else 0;
      if n >= lim.halfOpenMax then (OpenState, k)
      else (HalfOpenState, k.(probes := Some(Cell(n + 1, Some(now + 120)))))
  }

  predicate AllowsRequest(lim: Limits, k: Keys, now: int) { !OnCheck(lim, k, now).0.OpenState? }

  function Apply(lim: Limits, k: Keys, e: Event): Keys {
    match e
    case Failure(now) => OnFailure(lim, k, now)
    case Success(now) => OnSuccess(k, now)
    case Check(now) => OnCheck(lim, k, now).1
  }

  const NoKeys := Keys(None, None, None)

  /** The keys after the first n events. */
  function KeysAfter(lim: Limits, h: seq<Event>, n: nat): Keys
    requires n <= |h|
  {
    if n == 0 then NoKeys else Apply(lim, KeysAfter(lim, h, n - 1), h[n - 1])
  }

  // ---- The specification: trips read off the history ----

  /** Some trip among the first n events is less than openFor old at time t. */
  ghost predicate OpenBefore(lim: Limits, h: seq<Event>, n: nat, t: int)
    requires n <= |h|
    decreases n, 0
  {
    exists j :: 0 <= j < n && Trip(lim, h, j) && t < h[j].at + lim.openFor
  }

  /** A failure counts unless the breaker is open when it is recorded. */
  ghost predicate Counted(lim: Limits, h: seq<Event>, i: nat)
    requires i < |h|
    decreases i, 1
  {
    h[i].Failure? && !OpenBefore(lim, h, i, h[i].at)
  }

  /** Looking back from time t over the first n events: how many counted failures since
      the last success, the last trip, or a gap of 4 * openFor without a counted failure. */
  ghost function Streak(lim: Limits, h: seq<Event>, n: nat, t: int): nat
    requires n <= |h|
    decreases n, 0
  {
    if n == 0 || h[n - 1].Success? || Trip(lim, h, n - 1) then 0
    else if !Counted(lim, h, n - 1) then Streak(lim, h, n - 1, t)
    else if t - h[n - 1].at >= 4 * lim.openFor then 0
    else Streak(lim, h, n - 1, h[n - 1].at) + 1
  }

  /** The threshold-th counted failure of a streak trips the breaker. */
  ghost predicate Trip(lim: Limits, h: seq<Event>, i: nat)
    requires i < |h|
    decreases i, 2
  {
    Counted(lim, h, i) && Streak(lim, h, i, h[i].at) + 1 >= lim.threshold
  }

  // ---- Refinement ----

  ghost predicate InTimeOrder(h: seq<Event>) {
    forall i, j :: 0 <= i < j < |h| ==> h[i].at <= h[j].at
  }

  /** From every later time on, the keys tell what the history says. */
  ghost predicate Tells(lim: Limits, h: seq<Event>, n: nat)
    requires n <= |h|
  {
    var k := KeysAfter(lim, h, n);
    && (k.state.Some? ==> k.state.value.value.OpenState?)
    && k.probes.None?
    && forall t :: (n > 0 ==> h[n - 1].at <= t) ==>
         && (StateAt(k, t).OpenState? <==> OpenBefore(lim, h, n, t))
         && CountAt(k, t) == Streak(lim, h, n, t)
  }

  lemma {:induction false} OpenShrinks(lim: Limits, h: seq<Event>, n: nat, t: int, t': int)
    requires n <= |h| && t <= t' && OpenBefore(lim, h, n, t')
    ensures OpenBefore(lim, h, n, t)
  {
    var j :| 0 <= j < n && Trip(lim, h, j) && t' < h[j].at + lim.openFor;
    assert t < h[j].at + lim.openFor;
  }

  lemma OpenNext(lim: Limits, h: seq<Event>, n: nat, t: int)
    requires n < |h|
    ensures OpenBefore(lim, h, n + 1, t) <==>
      OpenBefore(lim, h, n, t) || (Trip(lim, h, n) && t < h[n].at + lim.openFor)
  {
    if OpenBefore(lim, h, n + 1, t) {
      var j :| 0 <= j < n + 1 && Trip(lim, h, j) && t < h[j].at + lim.openFor;
      assert j < n ==> OpenBefore(lim, h, n, t);
    }
    if OpenBefore(lim, h, n, t) {
      var j :| 0 <= j < n && Trip(lim, h, j) && t < h[j].at + lim.openFor;
      assert 0 <= j < n + 1;
    }
  }

  lemma StepTells(lim: Limits, h: seq<Event>, n: nat)
    requires InTimeOrder(h) && n < |h| && Tells(lim, h, n)
    ensures Tells(lim, h, n + 1)
  {
    var k, e := KeysAfter(lim, h, n), h[n];
    var k' := Apply(lim, k, e);
    assert n > 0 ==> h[n - 1].at <= e.at;
    forall t | e.at <= t
      ensures StateAt(k', t).OpenState? <==> OpenBefore(lim, h, n + 1, t)
      ensures CountAt(k', t) == Streak(lim, h, n + 1, t)
    {
      OpenNext(lim, h, n, t);
      assert StateAt(k, t).OpenState? <==> OpenBefore(lim, h, n, t);
      assert CountAt(k, t) == Streak(lim, h, n, t);
      assert StateAt(k, e.at).OpenState? <==> OpenBefore(lim, h, n, e.at);
      assert CountAt(k, e.at) == Streak(lim, h, n, e.at);
      if e.Failure? && OpenBefore(lim, h, n, t) { OpenShrinks(lim, h, n, e.at, t); }
    }
  }

  lemma {:induction false} KeysTellHistory(lim: Limits, h: seq<Event>, n: nat)
    requires InTimeOrder(h) && n <= |h|
    ensures Tells(lim, h, n)
  {
    if n > 0 {
      KeysTellHistory(lim, h, n - 1);
      StepTells(lim, h, n - 1);
    }
  }

  /** From empty keys half_open is never stored, and a request at time t is refused
      exactly when a trip happened less than openFor earlier. */
  lemma RefusedExactlyAfterTrip(lim: Limits, h: seq<Event>, t: int)
    requires InTimeOrder(h) && (h != [] ==> h[|h| - 1].at <= t)
    ensures !AllowsRequest(lim, KeysAfter(lim, h, |h|), t) <==>
      exists j :: 0 <= j < |h| && Trip(lim, h, j) && t < h[j].at + lim.openFor
    ensures KeysAfter(lim, h, |h|).state.Some? ==> KeysAfter(lim, h, |h|).state.value.value == OpenState
  {
    KeysTellHistory(lim, h, |h|);
  }

  /** Two trips are at least openFor apart. */
  lemma TripsAreApart(lim: Limits, h: seq<Event>, i: nat, j: nat)
    requires InTimeOrder(h) && i < j < |h| && Trip(lim, h, i) && Trip(lim, h, j)
    ensures h[j].at >= h[i].at + lim.openFor
  {
    assert !OpenBefore(lim, h, j, h[j].at);
  }

  // ---- The half-open scripts, should the state ever be stored ----

  function AfterChecks(lim: Limits, k: Keys, times: seq<int>): Keys {
    if times == [] then k else OnCheck(lim, AfterChecks(lim, k, times[..|times| - 1]), times[|times| - 1]).1
  }

  /** A half-open breaker admits halfOpenMax requests within the lifetime of its probe
      counter and refuses the next ones. */
  lemma {:induction false} ProbesAreCounted(lim: Limits, k: Keys, times: seq<int>, start: int, t: int)
    requires k.state == Some(Cell(HalfOpenState, None)) && k.probes == None && lim.halfOpenMax >= 0
    requires (forall i :: 0 <= i < |times| ==> start <= times[i] < start + 120) && start <= t < start + 120
    ensures AllowsRequest(lim, AfterChecks(lim, k, times), t) <==> |times| < lim.halfOpenMax
    ensures var k' := AfterChecks(lim, k, times);
      && k'.state == k.state && k'.failures == k.failures
      && (Get(k'.probes, t) == if times == [] || lim.halfOpenMax == 0 then None
                               else Some(if |times| < lim.halfOpenMax then |times| else lim.halfOpenMax))
  {
    if times != [] {
      var n := |times| - 1;
      ProbesAreCounted(lim, k, times[..n], start, times[n]);
      ProbesAreCounted(lim, k, times[..n], start, t);
    }
  }

  /** A failure in the half-open state opens the breaker for openFor, whatever the count; a
      success closes it. Both clear the count. */
  lemma HalfOpenSettles(lim: Limits, k: Keys, now: int, t: int)
    requires StateAt(k, now) == HalfOpenState && now <= t
    ensures var f := OnFailure(lim, k, now);
      (StateAt(f, t) == OpenState <==> t < now + lim.openFor) && CountAt(f, t) == 0
    ensures StateAt(OnSuccess(k, now), t) == ClosedState && CountAt(OnSuccess(k, now), t) == 0
  {
  }

  // ---- The keys as mutable state ----

  class CircuitBreaker {
    const lim: Limits
    var stateKey: Option<Cell<StateValue>>
    var countKey: Option<Cell<int>>
    var halfOpenKey: Option<Cell<int>>

    function View(): Keys reads this { Keys(stateKey, countKey, halfOpenKey) }

    constructor (lim: Limits)
      ensures this.lim == lim && View() == NoKeys
    {
      this.lim := lim;
      stateKey, countKey, halfOpenKey := None, None, None;
    }

    method RecordFailure(now: int) returns (state: StateValue)
      modifies this
      ensures View() == OnFailure(lim, old(View()), now)
      ensures state.OpenState? <==>
        !StateAt(old(View()), now).ClosedState? || CountAt(old(View()), now) + 1 >= lim.threshold
    {
      state := StateAt(View(), now);
      if state.OpenState? { return; }
      // INCR followed by EXPIRE
      var count := CountAt(View(), now) + 1;
      countKey := Some(Cell(count, Some(now + lim.openFor * 4)));
      if count >= lim.threshold || state.HalfOpenState? {
        stateKey := Some(Cell(OpenState, Some(now + lim.openFor)));
        countKey := None;
        return OpenState;
      }
      state := ClosedState;
    }

    method RecordSuccess(now: int) returns (state: StateValue)
      modifies this
      ensures View() == OnSuccess(old(View()), now)
      ensures state == if StateAt(old(View()), now).HalfOpenState? then ClosedState else StateAt(old(View()), now)
    {
      state := StateAt(View(), now);
      countKey := None;
      if state.HalfOpenState? {
        stateKey := Some(Cell(ClosedState, None));
        return ClosedState;
      }
    }

    method AllowRequest(now: int) returns (ok: bool)
      modifies this`halfOpenKey
      ensures ok == AllowsRequest(lim, old(View()), now) && View() == OnCheck(lim, old(View()), now).1
    {
      var state := StateAt(View(), now);
      if state.HalfOpenState? {
        var probes := Get(halfOpenKey, now);
        var attempts := if probes.Some? then probes.value else 0;
        if attempts >= lim.halfOpenMax { return false; }
        halfOpenKey := Some(Cell(attempts + 1, Some(now + 120)));
        return true;
      }
      ok := !state.OpenState?;
    }
  }
}
