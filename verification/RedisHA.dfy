/** The high-availability Redis wrapper (src/common/redis_ha.py): circuit breaker,
    retrying calls and the queue of operations deferred while Redis is away. */
module RedisHA {
  import opened Prelude

  datatype State = Closed | Open | HalfOpen

  /** The mutable fields of the breaker. Times are clock readings. */
  datatype Breaker = Breaker(state: State, failures: int, lastFailure: Option<int>)

  datatype Limits = Limits(threshold: int, resetTimeout: int)

  function RecordFailure(lim: Limits, b: Breaker, now: int): Breaker {
    Breaker(if b.failures + 1 >= lim.threshold then Open else b.state, b.failures + 1, Some(now))
  }

  function RecordSuccess(b: Breaker): Breaker {
    Breaker(if b.state.HalfOpen? then Closed else b.state, 0, None)
  }

  /** A reading of zero counts as no failure time, as in the source's truth test. */
  predicate Elapsed(lim: Limits, b: Breaker, now: int) {
    b.lastFailure.Some? && b.lastFailure.value != 0 && now - b.lastFailure.value > lim.resetTimeout
  }

  predicate Allows(lim: Limits, b: Breaker, now: int) { b.state.Open? ==> Elapsed(lim, b, now) }

  function AfterCheck(lim: Limits, b: Breaker, now: int): Breaker {
    if b.state.Open? && Elapsed(lim, b, now) then b.(state := HalfOpen) else b
  }

  function AfterFailures(lim: Limits, b: Breaker, times: seq<int>): Breaker {
    if times == [] then b else RecordFailure(lim, AfterFailures(lim, b, times[..|times| - 1]), times[|times| - 1])
  }

  /** A fresh breaker opens exactly at the threshold-th failure in a row, and then admits
      nothing until the reset timeout after the last failure is over. */
  lemma {:induction false} OpensAtThreshold(lim: Limits, times: seq<int>)
    requires times != [] && forall k :: 0 <= k < |times| ==> times[k] != 0
    ensures var b := AfterFailures(lim, Breaker(Closed, 0, None), times);
      && b.failures == |times| && b.lastFailure == Some(times[|times| - 1])
      && (b.state.Open? <==> |times| >= lim.threshold) && !b.state.HalfOpen?
      && forall now :: Allows(lim, b, now) <==> |times| < lim.threshold || now - times[|times| - 1] > lim.resetTimeout
  {
    if |times| > 1 { OpensAtThreshold(lim, times[..|times| - 1]); }
  }

  /** A success in the closed or half-open state restores a fresh breaker. */
  lemma SuccessRestores(b: Breaker)
    requires !b.state.Open?
    ensures RecordSuccess(b) == Breaker(Closed, 0, None)
  {
  }

  /** The round of an open breaker: once the timeout is over a check makes it half-open, from
      where a success restores it and a failure opens it for another timeout. */
  lemma HalfOpenRound(lim: Limits, times: seq<int>, now: int, later: int, t: int)
    requires |times| >= lim.threshold && times != [] && (forall k :: 0 <= k < |times| ==> times[k] != 0) && later != 0
    requires now - times[|times| - 1] > lim.resetTimeout
    ensures var b := AfterCheck(lim, AfterFailures(lim, Breaker(Closed, 0, None), times), now);
      && b.state == HalfOpen && RecordSuccess(b) == Breaker(Closed, 0, None)
      && RecordFailure(lim, b, later).state == Open
      && (Allows(lim, RecordFailure(lim, b, later), t) <==> t - later > lim.resetTimeout)
  {
    OpensAtThreshold(lim, times);
  }

  class CircuitBreaker {
    const lim: Limits
    var state: State
    var failureCount: int
    var lastFailureTime: Option<int>

    function View(): Breaker reads this { Breaker(state, failureCount, lastFailureTime) }

    constructor (lim: Limits)
      ensures this.lim == lim && View() == Breaker(Closed, 0, None)
    {
      this.lim := lim;
      state, failureCount, lastFailureTime := Closed, 0, None;
    }

    method Fail(now: int)
      modifies this
      ensures View() == RecordFailure(lim, old(View()), now)
    {
      failureCount := failureCount + 1;
      lastFailureTime := Some(now);
      if failureCount >= lim.threshold { state := Open; }
    }

    method Succeed()
      modifies this
      ensures View() == RecordSuccess(old(View()))
    {
      if state.HalfOpen? { state := Closed; }
      failureCount := 0;
      lastFailureTime := None;
    }

    method ShouldAllow(now: int) returns (ok: bool)
      modifies this`state
      ensures ok == Allows(lim, old(View()), now)
      ensures View() == AfterCheck(lim, old(View()), now)
    {
      if state.Closed? { return true; }
      if state.Open? {
        if Elapsed(lim, View(), now) {
          state := HalfOpen;
          return true;
        }
        return false;
      }
      ok := true;
    }
  }

  datatype Op = Op(command: string, args: seq<string>)

  /** The commands that are stored for later when they fail. */
  predicate Deferrable(op: Op) { op.command in ["set", "setex", "hset", "zadd", "sadd"] }

  /** The settings, and the environment: whether the n-th attempt reaches Redis, and the
      n-th clock reading. */
  datatype Config = Config(lim: Limits, maxRetries: int, degradation: bool, hasClient: bool,
                           up: nat -> bool, clock: nat -> int)

  /** The mutable state; `applied` is what Redis executed on behalf of this client. */
  datatype Client = Client(breaker: Breaker, calls: nat, ticks: nat, connected: bool, queue: seq<Op>, applied: seq<Op>)

  datatype Outcome = Executed | Deferred | Raised | Nothing

  // ---- One call ----

  /** How many attempts fail before the first success, out of `limit` from number `from` on. */
  function FailedTries(up: nat -> bool, from: nat, limit: nat): (k: nat)
    ensures k <= limit
    decreases limit
  {
    if limit == 0 || up(from) then 0 else 1 + FailedTries(up, from + 1, limit - 1)
  }

  lemma {:induction false} FirstSuccess(up: nat -> bool, from: nat, limit: nat)
    ensures var k := FailedTries(up, from, limit);
      (forall m :: from <= m < from + k ==> !up(m)) && (k < limit ==> up(from + k))
    decreases limit
  {
    if limit > 0 && !up(from) { FirstSuccess(up, from + 1, limit - 1); }
  }

  /** The breaker after k failures, the first at clock reading number `from`. */
  function AfterTries(cfg: Config, b: Breaker, from: nat, k: nat): Breaker {
    if k == 0 then b
    else Breaker(if b.failures + k >= cfg.lim.threshold then Open else b.state, b.failures + k, Some(cfg.clock(from + k - 1)))
  }

  lemma OneMoreTry(cfg: Config, b: Breaker, from: nat, k: nat)
    ensures AfterTries(cfg, b, from, k + 1) == RecordFailure(cfg.lim, AfterTries(cfg, b, from, k), cfg.clock(from + k))
  {
  }

  predicate Admits(cfg: Config, c: Client) { Allows(cfg.lim, c.breaker, cfg.clock(c.ticks)) }

  /** The attempts of an admitted call: the first success ends them, the last failure
      stores the operation for later or raises. */
  function Tries(cfg: Config, c: Client, op: Op): (Client, Outcome)
    requires cfg.maxRetries >= 1
  {
    var k := FailedTries(cfg.up, c.calls, cfg.maxRetries);
    var b := AfterTries(cfg, c.breaker, c.ticks, k);
    if k < cfg.maxRetries then
      (Client(RecordSuccess(b), c.calls + k + 1, c.ticks + k, true, c.queue, c.applied + [op]), Executed)
    else if cfg.degradation && Deferrable(op) then
      (Client(b, c.calls + k, c.ticks + k, false, c.queue + [op], c.applied), Deferred)
    else (Client(b, c.calls + k, c.ticks + k, false, c.queue, c.applied), Raised)
  }

  function AfterAsking(cfg: Config, c: Client): Client {
    c.(breaker := AfterCheck(cfg.lim, c.breaker, cfg.clock(c.ticks)), ticks := c.ticks + 1)
  }

  /** Without any attempt allowed an admitted call does nothing and reports success. */
  function Call(cfg: Config, c: Client, op: Op): (Client, Outcome) {
    if !Admits(cfg, c) || !cfg.hasClient then (AfterAsking(cfg, c), Raised)
    else if cfg.maxRetries <= 0 then (AfterAsking(cfg, c), Nothing)
    else Tries(cfg, AfterAsking(cfg, c), op)
  }

  /** Which outcome follows from the answers of Redis. */
  lemma CallOutcome(cfg: Config, c: Client, op: Op)
    ensures var (c', o) := Call(cfg, c, op);
      var answered := exists m :: c.calls <= m < c.calls + cfg.maxRetries && cfg.up(m);
      && c'.ticks > c.ticks
      && (o.Executed? <==> Admits(cfg, c) && cfg.hasClient && answered)
      && (o.Deferred? <==> Admits(cfg, c) && cfg.hasClient && cfg.maxRetries >= 1 && !answered
                             && cfg.degradation && op.command in {"set", "setex", "hset", "zadd", "sadd"})
      && (o.Nothing? <==> Admits(cfg, c) && cfg.hasClient && cfg.maxRetries <= 0)
      && c'.applied == c.applied + (if o.Executed? then [op] else [])
      && c'.queue == c.queue + (if o.Deferred? then [op] else [])
      && c'.connected == (if Admits(cfg, c) && cfg.hasClient && cfg.maxRetries >= 1 then answered else c.connected)
  {
    if cfg.maxRetries >= 1 {
      FirstSuccess(cfg.up, c.calls, cfg.maxRetries);
      var k := FailedTries(cfg.up, c.calls, cfg.maxRetries);
      assert k < cfg.maxRetries ==> cfg.up(c.calls + k);
    }
  }

  // ---- A breaker that locks itself ----

  function Calls(cfg: Config, c: Client, ops: seq<Op>): Client {
    if ops == [] then c else Call(cfg, Calls(cfg, c, ops[..|ops| - 1]), ops[|ops| - 1]).0
  }

  /** Whatever is called from c on, no check admits it. */
  ghost predicate NeverAdmitsAgain(cfg: Config, c: Client) {
    forall ops: seq<Op> :: !Admits(cfg, Calls(cfg, c, ops))
  }

  predicate Dead(b: Breaker) { b.state.Open? && (b.lastFailure.None? || b.lastFailure.value == 0) }

  lemma {:induction false} DeadStaysDead(cfg: Config, c: Client, ops: seq<Op>)
    requires Dead(c.breaker)
    ensures Calls(cfg, c, ops).breaker == c.breaker && !Admits(cfg, Calls(cfg, c, ops))
    ensures Calls(cfg, c, ops).applied == c.applied && Calls(cfg, c, ops).queue == c.queue
  {
    if ops != [] { DeadStaysDead(cfg, c, ops[..|ops| - 1]); }
  }

  /** A call that Redis answers locks the client out for good exactly if a failed attempt
      came first and the failures reached the threshold: the failure opens the breaker, and
      the success leaves it open with no failure time to measure the timeout from. */
  lemma LocksItself(cfg: Config, c: Client, op: Op)
    requires Call(cfg, c, op).1.Executed?
    ensures var k := FailedTries(cfg.up, c.calls, cfg.maxRetries);
      NeverAdmitsAgain(cfg, Call(cfg, c, op).0) <==> k >= 1 && c.breaker.failures + k >= cfg.lim.threshold
  {
    var c' := Call(cfg, c, op).0;
    if c'.breaker.state.Open? {
      forall ops: seq<Op> ensures !Admits(cfg, Calls(cfg, c', ops)) { DeadStaysDead(cfg, c', ops); }
    } else {
      assert Calls(cfg, c', []) == c' && Admits(cfg, c');
    }
  }

  /** One lost attempt is enough with a threshold of one. */
  lemma OneLossLocksOut(clock: nat -> int, op: Op)
    ensures var cfg := Config(Limits(1, 30), 2, true, true, n => n != 0, clock);
      var c := Client(Breaker(Closed, 0, None), 0, 0, true, [], []);
      Call(cfg, c, op).1.Executed? && NeverAdmitsAgain(cfg, Call(cfg, c, op).0)
  {
    var cfg := Config(Limits(1, 30), 2, true, true, n => n != 0, clock);
    var c := Client(Breaker(Closed, 0, None), 0, 0, true, [], []);
    assert FailedTries(cfg.up, 0, 2) == 1;
    LocksItself(cfg, c, op);
  }

  // ---- The walk over the deferred operations ----

  /** The state inside a pass: the list grows while it is walked. */
  datatype Walker = Walker(c: Client, i: nat, failed: seq<Op>, retried: nat)

  function Start(c: Client): Walker { Walker(c, 0, [], 0) }

  predicate Finished(w: Walker) { w.i >= |w.c.queue| }

  function Visit(cfg: Config, w: Walker): Walker
    requires !Finished(w)
  {
    var (c, o) := Call(cfg, w.c, w.c.queue[w.i]);
    if o.Raised? then Walker(c, w.i + 1, w.failed + [w.c.queue[w.i]], w.retried)
    else Walker(c, w.i + 1, w.failed, w.retried + 1)
  }

  /** At most n visits. */
  function Walk(cfg: Config, w: Walker, n: nat): Walker
    decreases n
  {
    if n == 0 || Finished(w) then w else Walk(cfg, Visit(cfg, w), n - 1)
  }

  /** The pass comes to an end. */
  ghost predicate Ends(cfg: Config, w: Walker) { exists n: nat :: Finished(Walk(cfg, w, n)) }

  ghost function Total(done: seq<Op>, failed: seq<Op>, left: seq<Op>): multiset<Op> {
    multiset(done) + multiset(failed) + multiset(left)
  }

  ghost function Accounted(w: Walker): multiset<Op>
    requires w.i <= |w.c.queue|
  {
    Total(w.c.applied, w.failed, w.c.queue[w.i..])
  }

  /** One visited operation goes to exactly one of: executed, the end of the list, failed. */
  lemma Redistributed(queue: seq<Op>, i: nat, done: seq<Op>, failed: seq<Op>)
    requires i < |queue|
    ensures var (op, all) := ([queue[i]], Total(done, failed, queue[i..]));
      && Total(done + op, failed, queue[i + 1..]) == all
      && Total(done, failed + op, queue[i + 1..]) == all
      && Total(done, failed, (queue + op)[i + 1..]) == all
  {
    assert queue[i..] == [queue[i]] + queue[i + 1..];
    assert (queue + [queue[i]])[i + 1..] == queue[i + 1..] + [queue[i]];
  }

  lemma VisitConserves(cfg: Config, w: Walker)
    requires cfg.maxRetries >= 1 && !Finished(w)
    ensures Visit(cfg, w).i <= |Visit(cfg, w).c.queue| && Accounted(Visit(cfg, w)) == Accounted(w)
  {
    var (op, w') := (w.c.queue[w.i], Visit(cfg, w));
    CallOutcome(cfg, w.c, op);
    Redistributed(w.c.queue, w.i, w.c.applied, w.failed);
    match Call(cfg, w.c, op).1
    case Executed => assert w'.c.applied == w.c.applied + [op] && w'.failed == w.failed && w'.c.queue == w.c.queue;
    case Deferred => assert w'.c.applied == w.c.applied && w'.failed == w.failed && w'.c.queue == w.c.queue + [op];
    case Raised => assert w'.c.applied == w.c.applied && w'.failed == w.failed + [op] && w'.c.queue == w.c.queue;
  }

  /** At every moment of every walk, finished or not, whatever the clock and Redis do:
      executed, failed and still listed operations are the ones there were. */
  lemma {:induction false} WalkConserves(cfg: Config, w: Walker, n: nat)
    requires cfg.maxRetries >= 1 && w.i <= |w.c.queue|
    ensures Walk(cfg, w, n).i <= |Walk(cfg, w, n).c.queue| && Accounted(Walk(cfg, w, n)) == Accounted(w)
    decreases n
  {
    if n > 0 && !Finished(w) {
      VisitConserves(cfg, w);
      WalkConserves(cfg, Visit(cfg, w), n - 1);
    }
  }

  /** So a finished pass leaves every operation executed or listed again, none twice. */
  lemma PassConserves(cfg: Config, c: Client, n: nat)
    requires cfg.maxRetries >= 1 && Finished(Walk(cfg, Start(c), n))
    ensures var w := Walk(cfg, Start(c), n);
      multiset(w.c.applied) + multiset(w.failed) == multiset(c.applied) + multiset(c.queue)
  {
    WalkConserves(cfg, Start(c), n);
    var w := Walk(cfg, Start(c), n);
    assert w.c.queue[w.i..] == [] && c.queue[0..] == c.queue;
    assert Accounted(w) == multiset(w.c.applied) + multiset(w.failed);
    assert Accounted(Start(c)) == multiset(c.applied) + multiset(c.queue);
  }

  /** Of the next `left` checks, with nothing else happening, the first j are refused and
      the one after them is admitted. */
  ghost predicate RefusedFirst(cfg: Config, c: Client, left: nat, j: nat) {
    && j <= left
    && (forall m :: c.ticks <= m < c.ticks + j ==> !Allows(cfg.lim, c.breaker, cfg.clock(m)))
    && (j < left ==> Allows(cfg.lim, c.breaker, cfg.clock(c.ticks + j)))
  }

  function Less(j: nat): nat { if j > 0 then j - 1 else 0 }

  lemma AskedOnce(cfg: Config, c: Client, left: nat, j: nat)
    requires RefusedFirst(cfg, c, left, j) && left > 0
    ensures Admits(cfg, c) <==> j == 0
    ensures RefusedFirst(cfg, AfterAsking(cfg, c), left - 1, Less(j))
  {
  }

  /** Without any attempt a visit only asks the breaker. */
  lemma NoAttemptVisit(cfg: Config, w: Walker)
    requires cfg.maxRetries <= 0 && cfg.hasClient && !Finished(w)
    ensures var (c, op) := (AfterAsking(cfg, w.c), [w.c.queue[w.i]]);
      Visit(cfg, w) == if Admits(cfg, w.c) then Walker(c, w.i + 1, w.failed, w.retried + 1)
                       else Walker(c, w.i + 1, w.failed + op, w.retried)
  {
  }

  /** With no attempt configured a pass keeps exactly the operations it visits before the
      first admitted check, and drops the rest unseen. */
  lemma {:induction false} NoAttemptsDrop(cfg: Config, w: Walker, j: nat)
    requires cfg.maxRetries <= 0 && cfg.hasClient && w.i <= |w.c.queue|
    requires RefusedFirst(cfg, w.c, |w.c.queue| - w.i, j)
    ensures var w' := Walk(cfg, w, |w.c.queue| - w.i);
      && Finished(w') && w'.c.applied == w.c.applied && w'.failed == w.failed + w.c.queue[w.i..w.i + j]
    decreases |w.c.queue| - w.i
  {
    if !Finished(w) {
      NoAttemptVisit(cfg, w);
      AskedOnce(cfg, w.c, |w.c.queue| - w.i, j);
      NoAttemptsDrop(cfg, Visit(cfg, w), Less(j));
      assert j > 0 ==> w.c.queue[w.i..w.i + j] == [w.c.queue[w.i]] + w.c.queue[w.i + 1..w.i + j];
    }
  }

  /** Every executed operation is reported as retried. */
  lemma {:induction false} WalkCounts(cfg: Config, w: Walker, n: nat)
    ensures var w' := Walk(cfg, w, n);
      w.c.applied <= w'.c.applied && |w'.c.applied| - |w.c.applied| <= w'.retried - w.retried
    decreases n
  {
    if n > 0 && !Finished(w) {
      CallOutcome(cfg, w.c, w.c.queue[w.i]);
      WalkCounts(cfg, Visit(cfg, w), n - 1);
    }
  }

  /** A finished walk is the same however many visits are allowed. */
  lemma {:induction false} FinishedIsFinal(cfg: Config, w: Walker, m: nat, n: nat)
    requires Finished(Walk(cfg, w, m)) && Finished(Walk(cfg, w, n))
    ensures Walk(cfg, w, m) == Walk(cfg, w, n)
    decreases m
  {
    if m > 0 && n > 0 && !Finished(w) { FinishedIsFinal(cfg, Visit(cfg, w), m - 1, n - 1); }
  }

  // ---- When a pass ends ----

  /** Nothing a pass from c can do makes the list grow: deferring is off, or impossible,
      or no call will ever be admitted. */
  predicate CannotGrow(cfg: Config, c: Client) {
    || !cfg.degradation || !cfg.hasClient || cfg.maxRetries <= 0
    || Dead(c.breaker)
    || forall op :: op in c.queue ==> !Deferrable(op)
  }

  /** Then it ends, whatever Redis and the clock do. */
  lemma {:induction false} GrowthlessEnds(cfg: Config, w: Walker)
    requires CannotGrow(cfg, w.c) && w.i <= |w.c.queue|
    ensures Finished(Walk(cfg, w, |w.c.queue| - w.i))
    decreases |w.c.queue| - w.i
  {
    if !Finished(w) {
      CallOutcome(cfg, w.c, w.c.queue[w.i]);
      GrowthlessEnds(cfg, Visit(cfg, w));
    }
  }

  /** No two readings in [from, to) are further apart than the reset timeout. */
  ghost predicate Calm(cfg: Config, from: nat, to: nat) {
    forall m, n :: from <= m <= n < to ==> cfg.clock(n) - cfg.clock(m) <= cfg.lim.resetTimeout
  }

  /** The last failure, if any, was read off the clock in [from, to). */
  ghost predicate FailedSince(cfg: Config, b: Breaker, from: nat, to: nat) {
    b.lastFailure.None? || exists m :: from <= m < to && cfg.clock(m) == b.lastFailure.value
  }

  /** How often a call can still be deferred before one must leave the list: a breaker
      opened during the pass admits nothing, and every deferral adds a failure. */
  ghost function Patience(lim: Limits, b: Breaker, openedInPass: bool): nat {
    var room := if lim.threshold > b.failures then lim.threshold - b.failures else 0;
    if !b.state.Open? then 1 + room else if openedInPass then 0 else 2 + room
  }

  ghost function PatienceOf(cfg: Config, c: Client, from: nat): nat {
    Patience(cfg.lim, c.breaker, FailedSince(cfg, c.breaker, from, c.ticks))
  }

  lemma DeferralCosts(cfg: Config, c: Client, op: Op, from: nat)
    requires Call(cfg, c, op).1.Deferred? && from <= c.ticks && Calm(cfg, from, c.ticks + 1)
    ensures PatienceOf(cfg, Call(cfg, c, op).0, from) < PatienceOf(cfg, c, from)
  {
    var c' := Call(cfg, c, op).0;
    assert c'.breaker.lastFailure == Some(cfg.clock(c'.ticks - 1)) && from <= c'.ticks - 1;
    assert FailedSince(cfg, c'.breaker, from, c'.ticks);
    forall m | from <= m < c.ticks ensures cfg.clock(c.ticks) - cfg.clock(m) <= cfg.lim.resetTimeout {}
  }

  /** A pass during which no two clock readings are further apart than the reset timeout
      comes to an end, whatever Redis does. Only readings of the pass itself matter. */
  lemma {:induction false} CalmWalkEnds(cfg: Config, w: Walker, from: nat) returns (n: nat)
    requires w.i <= |w.c.queue| && from <= w.c.ticks
    requires forall k: nat :: Calm(cfg, from, Walk(cfg, w, k).c.ticks)
    ensures Finished(Walk(cfg, w, n))
    decreases |w.c.queue| - w.i, PatienceOf(cfg, w.c, from)
  {
    if Finished(w) { return 0; }
    var (op, w') := (w.c.queue[w.i], Visit(cfg, w));
    CallOutcome(cfg, w.c, op);
    assert Walk(cfg, w', 0) == w' && Walk(cfg, w, 1) == w';
    if Call(cfg, w.c, op).1.Deferred? { DeferralCosts(cfg, w.c, op, from); }
    forall k: nat ensures Calm(cfg, from, Walk(cfg, w', k).c.ticks) {
      assert Walk(cfg, w, k + 1) == Walk(cfg, w', k);
    }
    n := CalmWalkEnds(cfg, w', from);
    n := n + 1;
  }

  // ---- When it does not ----

  /** Redis is away, the timeout elapses between any two readings, and an operation that
      will be deferred again is still ahead. */
  ghost predicate Circulates(cfg: Config, w: Walker) {
    && cfg.degradation && cfg.hasClient && cfg.maxRetries >= 1
    && (forall m :: m >= w.c.calls ==> !cfg.up(m))
    && (forall k: nat :: cfg.clock(k) > 0 && cfg.clock(k + 1) - cfg.clock(k) > cfg.lim.resetTimeout)
    && Admits(cfg, w.c)
    && exists j :: w.i <= j < |w.c.queue| && Deferrable(w.c.queue[j])
  }

  lemma VisitCirculates(cfg: Config, w: Walker) returns (w': Walker)
    requires Circulates(cfg, w)
    ensures !Finished(w) && w' == Visit(cfg, w) && Circulates(cfg, w') && w'.i == w.i + 1
  {
    w' := Visit(cfg, w);
    var op := w.c.queue[w.i];
    CallOutcome(cfg, w.c, op);
    var last := w'.c.ticks - 1;
    assert w'.c.breaker.lastFailure == Some(cfg.clock(last)) && cfg.clock(last) > 0;
    assert cfg.clock(last + 1) - cfg.clock(last) > cfg.lim.resetTimeout;
    var j :| w.i <= j < |w.c.queue| && Deferrable(w.c.queue[j]);
    if j == w.i { assert w'.c.queue[|w.c.queue|] == op; } else { assert w'.c.queue[j] == w.c.queue[j]; }
  }

  /** Then the end of the list is never reached. */
  lemma {:induction false} WalkNeverEnds(cfg: Config, w: Walker, n: nat)
    requires Circulates(cfg, w)
    ensures var w' := Walk(cfg, w, n); w'.i == w.i + n < |w'.c.queue|
    decreases n
  {
    var w' := VisitCirculates(cfg, w);
    if n > 0 { WalkNeverEnds(cfg, w', n - 1); }
  }

  function SteadyClock(base: nat, gap: nat, k: nat): int { base + gap * (k + 1) }

  lemma SteadyClockTicks(base: nat, gap: nat, k: nat)
    requires gap > 0
    ensures SteadyClock(base, gap, k) >= base + gap && SteadyClock(base, gap, k + 1) == SteadyClock(base, gap, k) + gap
  {
    MulGrows(gap, 1, k + 1);
  }

  /** CannotGrow is exact: from any other state some Redis and some clock keep the pass
      going for ever. */
  lemma GrowingNeedNotEnd(cfg: Config, c: Client) returns (up: nat -> bool, clock: nat -> int)
    requires !CannotGrow(cfg, c)
    ensures !Ends(cfg.(up := up, clock := clock), Start(c))
  {
    var gap: nat := if cfg.lim.resetTimeout > 0 then cfg.lim.resetTimeout + 1 else 1;
    var last := c.breaker.lastFailure;
    var base: nat := if last.Some? && last.value > 0 then last.value else 0;
    up, clock := _ => false, (k: nat) => SteadyClock(base, gap, k);
    var cfg' := cfg.(up := up, clock := clock);
    forall k: nat ensures clock(k) > 0 && clock(k + 1) - clock(k) > cfg.lim.resetTimeout {
      SteadyClockTicks(base, gap, k);
    }
    SteadyClockTicks(base, gap, c.ticks);
    assert Admits(cfg', c);
    var j :| 0 <= j < |c.queue| && Deferrable(c.queue[j]);
    assert Circulates(cfg', Start(c));
    forall n: nat ensures !Finished(Walk(cfg', Start(c), n)) { WalkNeverEnds(cfg', Start(c), n); }
  }

  // ---- The client object ----

  class RedisHA {
    const breaker: CircuitBreaker
    const maxRetries: int
    const degradation: bool
    const hasClient: bool
    const up: nat -> bool
    const clock: nat -> int
    var calls: nat
    var ticks: nat
    var connected: bool
    var queue: seq<Op>
    var applied: seq<Op>

    ghost function Cfg(): Config { Config(breaker.lim, maxRetries, degradation, hasClient, up, clock) }

    ghost function View(): Client reads this, breaker {
      Client(breaker.View(), calls, ticks, connected, queue, applied)
    }

    constructor (breaker: CircuitBreaker, maxRetries: int, degradation: bool, hasClient: bool,
                 up: nat -> bool, clock: nat -> int, connected: bool, queue: seq<Op>)
      ensures Cfg() == Config(breaker.lim, maxRetries, degradation, hasClient, up, clock)
      ensures this.breaker == breaker && View() == Client(breaker.View(), 0, 0, connected, queue, [])
    {
      this.breaker, this.maxRetries, this.degradation, this.hasClient := breaker, maxRetries, degradation, hasClient;
      this.up, this.clock, this.connected, this.queue := up, clock, connected, queue;
      calls, ticks, applied := 0, 0, [];
    }

    /** The retry loop: attempts until one succeeds or all have failed. */
    method TryUntilSuccess() returns (failures: nat)
      requires maxRetries >= 1
      modifies this`calls, this`ticks, breaker
      ensures failures == FailedTries(up, old(calls), maxRetries)
      ensures calls == old(calls) + failures + (if failures < maxRetries then 1 else 0) && ticks == old(ticks) + failures
      ensures breaker.View() == AfterTries(Cfg(), old(breaker.View()), old(ticks), failures)
    {
      failures := 0;
      while failures < maxRetries
        invariant failures <= maxRetries && calls == old(calls) + failures && ticks == old(ticks) + failures
        invariant breaker.View() == AfterTries(Cfg(), old(breaker.View()), old(ticks), failures)
        invariant FailedTries(up, old(calls), maxRetries) == failures + FailedTries(up, calls, maxRetries - failures)
      {
        calls := calls + 1;
        if up(calls - 1) { return; }
        OneMoreTry(Cfg(), old(breaker.View()), old(ticks), failures);
        ticks := ticks + 1;
        breaker.Fail(clock(ticks - 1));
        failures := failures + 1;
      }
    }

    /** An admitted call. */
    method TryAll(op: Op) returns (ok: bool)
      requires maxRetries >= 1
      modifies this`calls, this`ticks, this`connected, this`queue, this`applied, breaker
      ensures View() == Tries(Cfg(), old(View()), op).0 && ok == !Tries(Cfg(), old(View()), op).1.Raised?
    {
      var failures := TryUntilSuccess();
      if failures < maxRetries {
        applied := applied + [op];
        breaker.Succeed();
        connected := true;
        return true;
      }
      connected := false;
      ok := degradation && Deferrable(op);
      if ok { queue := queue + [op]; }
    }

    /** One call. It reports failure (the exception) or success. */
    method CallWithRetry(op: Op) returns (ok: bool)
      modifies this`calls, this`ticks, this`connected, this`queue, this`applied, breaker
      ensures View() == Call(Cfg(), old(View()), op).0 && ok == !Call(Cfg(), old(View()), op).1.Raised?
      ensures Admits(Cfg(), old(View())) && hasClient && maxRetries >= 1 ==>
        var answered := exists m :: old(calls) <= m < old(calls) + maxRetries && up(m);
        && applied == old(applied) + (if answered then [op] else [])
        && queue == old(queue) + (if !answered && degradation && Deferrable(op) then [op] else [])
        && (ok <==> answered || (degradation && Deferrable(op)))
    {
      CallOutcome(Cfg(), View(), op);
      ticks := ticks + 1;
      ok := breaker.ShouldAllow(clock(ticks - 1));
      if !ok || !hasClient { return false; }
      if maxRetries >= 1 { ok := TryAll(op); }
    }

    /** The loop over the list, which grows while it is walked; n visits reach its end. */
    method WalkList(ghost n: nat) returns (failed: seq<Op>, retried: nat)
      requires Finished(Walk(Cfg(), Start(View()), n))
      modifies this`calls, this`ticks, this`connected, this`queue, this`applied, breaker
      ensures var w := Walk(Cfg(), Start(old(View())), n); View() == w.c && failed == w.failed && retried == w.retried
    {
      failed, retried := [], 0;
      var i := 0;
      ghost var left := n;
      while i < |queue|
        invariant 0 <= i
        invariant Walk(Cfg(), Start(old(View())), n) == Walk(Cfg(), Walker(View(), i, failed, retried), left)
        decreases left
      {
        var op := queue[i];
        var ok := CallWithRetry(op);
        if ok { retried := retried + 1; } else { failed := failed + [op]; }
        i := i + 1;
        left := left - 1;
      }
    }

    /** A pass over the deferred operations, which exists only if the walk ends. With at
        least one attempt per call no operation is lost or executed twice. */
    method RetryDegradedOperations() returns (retried: nat)
      requires connected ==> Ends(Cfg(), Start(View()))
      modifies this`calls, this`ticks, this`connected, this`queue, this`applied, breaker
      ensures maxRetries >= 1 ==> multiset(applied) + multiset(queue) == old(multiset(applied) + multiset(queue))
      ensures old(applied) <= applied && |applied| - |old(applied)| <= retried
      ensures maxRetries <= 0 && hasClient && old(connected) && old(breaker.state).Closed? ==>
        queue == [] && applied == old(applied)
      ensures !old(connected) || old(queue) == [] ==> retried == 0 && View() == old(View())
      ensures old(connected) && old(queue) != [] ==>
        exists n: nat :: var w := Walk(Cfg(), Start(old(View())), n);
          Finished(w) && View() == w.c.(queue := w.failed) && retried == w.retried
    {
      if queue == [] || !connected { return 0; }
      ghost var n: nat :| Finished(Walk(Cfg(), Start(View()), n));
      WalkCounts(Cfg(), Start(View()), n);
      if maxRetries >= 1 {
        PassConserves(Cfg(), View(), n);
      } else if hasClient && breaker.state.Closed? {
        NoAttemptsDrop(Cfg(), Start(View()), 0);
        FinishedIsFinal(Cfg(), Start(View()), |queue|, n);
      }
      var failed;
      failed, retried := WalkList(n);
      queue := failed;
    }
  }
}
