/** The priority queue (src/platform/queue_manager.py): the Lua scripts as atomic
    operations on the pending and running sorted sets, the counters and the limits. */
module QueueModel {
  import opened Prelude
  import opened SortedSets

  const TS_BASE: int := 10_000_000_000_000

  datatype Config = Config(defaultDepth: int, defaultConcurrent: int, scanLimit: int)

  /** One capability. A limit is None when the hash field is absent or not a number. */
  datatype Queue = Queue(
    pending: ZSet, running: ZSet,
    enqueued: nat, dequeued: nat, completed: nat, failed: nat,
    maxDepth: Option<int>, maxConcurrent: Option<int>, baseline: Option<int>)

  datatype Event =
    | Enqueue(id: string, priority: int, executeAfter: int, now: int)
    | Dequeue(now: int)
    | Cancel(id: string)
    | Complete(id: string)
    | FailTask(id: string)
    | Release(id: string)
    | Sweep(ids: set<string>)
    | Adjust(delta: int)
    | Recover

  // ---- The packed score ----

  function Pack(priority: int, ts: int): int { priority * TS_BASE + ts }

  function TsOf(score: int): int { score % TS_BASE }

  /** Decoding gives the timestamp back exactly when it fits below the base. */
  lemma TsRoundTrip(priority: int, ts: int)
    ensures TsOf(Pack(priority, ts)) == ts <==> 0 <= ts < TS_BASE
  {
  }

  /** Scores order jobs by priority, then by time. */
  lemma PackOrder(p: int, t: int, p': int, t': int)
    requires 0 <= t < TS_BASE && 0 <= t' < TS_BASE
    ensures Pack(p, t) < Pack(p', t') <==> p < p' || (p == p' && t < t')
    ensures Pack(p, t) == Pack(p', t') <==> p == p' && t == t'
  {
    if p < p' { assert p * TS_BASE + TS_BASE <= p' * TS_BASE; }
    if p > p' { assert p' * TS_BASE + TS_BASE <= p * TS_BASE; }
  }

  /** Priorities up to 899 stay below 2^53, where every integer is a binary64 number
      (section 3.4 of IEEE 754-2019); 900 already leaves that range. */
  lemma PackIsExact(priority: int, ts: int)
    requires 0 <= ts < TS_BASE
    ensures 0 <= priority <= 899 ==> 0 <= Pack(priority, ts) < 9_007_199_254_740_992
    ensures Pack(900, TS_BASE - 1) >= 9_007_199_254_740_992
  {
  }

  // ---- The operations ----

  function DepthLimit(cfg: Config, q: Queue): int {
    if q.maxDepth.Some? && q.maxDepth.value > 0 then q.maxDepth.value else cfg.defaultDepth
  }

  function ConcurrencyLimit(cfg: Config, q: Queue): int {
    if q.maxConcurrent.Some? && q.maxConcurrent.value > 0 then q.maxConcurrent.value else cfg.defaultConcurrent
  }

  function Timestamp(executeAfter: int, now: int): int { if executeAfter > now then executeAfter else now }

  predicate Accepts(cfg: Config, q: Queue) { |q.pending| < DepthLimit(cfg, q) }

  /** The bounded scan; a negative LIMIT count means no limit. */
  function Scan(cfg: Config, q: Queue): seq<string> {
    var all := Ranked(q.pending);
    if cfg.scanLimit < 0 || |all| <= cfg.scanLimit then all else all[..cfg.scanLimit]
  }

  predicate Due(q: Queue, id: string, now: int)
    requires id in q.pending
  {
    TsOf(q.pending[id]) <= now
  }

  function FirstDue(q: Queue, ids: seq<string>, now: int): Option<string> {
    if ids == [] then None
    else if ids[0] in q.pending && Due(q, ids[0], now) then Some(ids[0])
    else FirstDue(q, ids[1..], now)
  }

  /** The task a dequeue at `now` hands out. */
  function Chosen(cfg: Config, q: Queue, now: int): Option<string> {
    if |q.running| >= ConcurrencyLimit(cfg, q) then None else FirstDue(q, Scan(cfg, q), now)
  }

  function Step(cfg: Config, q: Queue, e: Event): Queue {
    match e
    case Enqueue(id, priority, after, now) =>
      if !Accepts(cfg, q) then q
      else q.(pending := q.pending[id := Pack(priority, Timestamp(after, now))], enqueued := q.enqueued + 1)
    case Dequeue(now) =>
      (match Chosen(cfg, q, now)
       case None => q
       case Some(id) => q.(pending := q.pending - {id}, running := q.running[id := now], dequeued := q.dequeued + 1))
    case Cancel(id) =>
      if id in q.pending then q.(pending := q.pending - {id}) else q.(running := q.running - {id})
    case Complete(id) => q.(running := q.running - {id}, completed := q.completed + 1)
    case FailTask(id) => q.(running := q.running - {id}, failed := q.failed + 1)
    case Release(id) => q.(running := q.running - {id})
    case Sweep(ids) => q.(running := q.running - ids)
    case Adjust(delta) =>
      var cur := if q.maxConcurrent.Some? then q.maxConcurrent.value else cfg.defaultConcurrent;
      q.(maxConcurrent := Some(if cur + delta > 1 then cur + delta else 1))
    case Recover =>
      var baseline := if q.baseline.Some? then q.baseline.value else cfg.defaultConcurrent;
      var cur := if q.maxConcurrent.Some? then q.maxConcurrent.value else baseline;
      if cur < baseline then q.(maxConcurrent := Some(cur + 1)) else q
  }

  function Run(cfg: Config, q: Queue, events: seq<Event>): Queue {
    if events == [] then q else Step(cfg, Run(cfg, q, events[..|events| - 1]), events[|events| - 1])
  }

  // ---- Which task is handed out ----

  lemma {:induction false} FirstDueIs(q: Queue, ids: seq<string>, now: int)
    ensures FirstDue(q, ids, now).None? ==>
      forall x :: x in ids ==> !(x in q.pending && Due(q, x, now))
    ensures FirstDue(q, ids, now).Some? ==>
      exists i :: 0 <= i < |ids| && ids[i] == FirstDue(q, ids, now).value
        && ids[i] in q.pending && Due(q, ids[i], now)
        && forall j :: 0 <= j < i ==> !(ids[j] in q.pending && Due(q, ids[j], now))
  {
    if ids != [] && !(ids[0] in q.pending && Due(q, ids[0], now)) {
      var rest := ids[1..];
      FirstDueIs(q, rest, now);
      if FirstDue(q, rest, now).Some? {
        var i :| 0 <= i < |rest| && rest[i] == FirstDue(q, rest, now).value && rest[i] in q.pending
          && Due(q, rest[i], now) && forall j :: 0 <= j < i ==> !(rest[j] in q.pending && Due(q, rest[j], now));
        assert ids[i + 1] == rest[i];
        forall j | 0 <= j < i + 1 ensures !(ids[j] in q.pending && Due(q, ids[j], now)) {
          if j > 0 { assert ids[j] == rest[j - 1]; }
        }
      }
    }
  }

  /** id is due and comes before every other due task. */
  ghost predicate LeastDue(q: Queue, id: string, now: int) {
    && id in q.pending && Due(q, id, now)
    && forall x :: x in q.pending && x != id && Due(q, x, now) ==> Before(q.pending, id, x)
  }

  lemma ScanIsPrefix(cfg: Config, q: Queue)
    ensures Scan(cfg, q) <= Ranked(q.pending)
    ensures cfg.scanLimit < 0 ==> Scan(cfg, q) == Ranked(q.pending)
    ensures cfg.scanLimit >= 0 ==>
      |Scan(cfg, q)| == if |Ranked(q.pending)| <= cfg.scanLimit then |Ranked(q.pending)| else cfg.scanLimit
  {
  }

  /** Where nothing before position i of the ranking is due, a due task there is the least. */
  lemma FirstInRankIsLeast(q: Queue, i: nat, now: int)
    requires i < |Ranked(q.pending)| && Ranked(q.pending)[i] in q.pending && Due(q, Ranked(q.pending)[i], now)
    requires forall j :: 0 <= j < i && Ranked(q.pending)[j] in q.pending ==> !Due(q, Ranked(q.pending)[j], now)
    ensures LeastDue(q, Ranked(q.pending)[i], now)
  {
    RankedLists(q.pending);
    var all := Ranked(q.pending);
    forall x | x in q.pending && x != all[i] && Due(q, x, now) ensures Before(q.pending, all[i], x) {
      var j :| 0 <= j < |all| && all[j] == x;
    }
  }

  /** The first due entry of a prefix of the ranking is due, and precedes every other due task. */
  lemma FirstDueIsLeast(q: Queue, ids: seq<string>, now: int)
    requires ids <= Ranked(q.pending) && FirstDue(q, ids, now).Some?
    ensures LeastDue(q, FirstDue(q, ids, now).value, now)
    ensures Rank(q.pending, FirstDue(q, ids, now).value) < |ids|
  {
    FirstDueIs(q, ids, now);
    var i :| 0 <= i < |ids| && ids[i] == FirstDue(q, ids, now).value && ids[i] in q.pending && Due(q, ids[i], now)
      && forall j :: 0 <= j < i ==> !(ids[j] in q.pending && Due(q, ids[j], now));
    assert forall j :: 0 <= j <= i ==> Ranked(q.pending)[j] == ids[j];
    RankIsIndex(q.pending, i);
    FirstInRankIsLeast(q, i, now);
  }

  lemma LeastDueIsUnique(q: Queue, a: string, b: string, now: int)
    requires LeastDue(q, a, now) && LeastDue(q, b, now)
    ensures a == b
  {
    BeforeTotal(q.pending, a, b);
  }

  /** With a free slot, a dequeue hands out exactly the least due task that fewer than
      scanLimit tasks precede; it returns nothing exactly when there is none. */
  lemma DequeueIsExact(cfg: Config, q: Queue, now: int, id: string)
    requires |q.running| < ConcurrencyLimit(cfg, q)
    ensures Chosen(cfg, q, now) == Some(id) <==>
      LeastDue(q, id, now) && (cfg.scanLimit < 0 || Rank(q.pending, id) < cfg.scanLimit)
  {
    var ids := Scan(cfg, q);
    ScanIsPrefix(cfg, q);
    if FirstDue(q, ids, now).Some? { FirstDueIsLeast(q, ids, now); }
    if LeastDue(q, id, now) && (cfg.scanLimit < 0 || Rank(q.pending, id) < cfg.scanLimit) {
      RankedLists(q.pending);
      var i :| 0 <= i < |Ranked(q.pending)| && Ranked(q.pending)[i] == id;
      RankIsIndex(q.pending, i);
      assert ids[i] == id;
      FirstDueIs(q, ids, now);
      LeastDueIsUnique(q, id, FirstDue(q, ids, now).value, now);
    }
  }

  /** Jobs as their producers meant them. */
  datatype Job = Job(priority: int, ts: int)

  ghost predicate Packed(q: Queue, jobs: map<string, Job>) {
    && q.pending.Keys == jobs.Keys
    && forall id :: id in jobs ==> 0 <= jobs[id].ts < TS_BASE && q.pending[id] == Pack(jobs[id].priority, jobs[id].ts)
  }

  /** (priority, timestamp, id) order. */
  ghost predicate Sooner(jobs: map<string, Job>, a: string, b: string)
    requires a in jobs && b in jobs
  {
    || jobs[a].priority < jobs[b].priority
    || (jobs[a].priority == jobs[b].priority
        && (jobs[a].ts < jobs[b].ts || (jobs[a].ts == jobs[b].ts && StrLess(a, b))))
  }

  /** With a free slot, some due task and fewer than scanLimit tasks not yet due, a
      dequeue returns the least (priority, timestamp, id) among all due tasks. */
  lemma DequeueReturnsLeast(cfg: Config, q: Queue, jobs: map<string, Job>, now: int, due: string)
    requires |q.running| < ConcurrencyLimit(cfg, q) && Packed(q, jobs)
    requires due in jobs && jobs[due].ts <= now
    requires |set x | x in jobs && jobs[x].ts > now| < cfg.scanLimit
    ensures Chosen(cfg, q, now).Some?
    ensures var id := Chosen(cfg, q, now).value;
      && id in jobs && jobs[id].ts <= now
      && forall x :: x in jobs && x != id && jobs[x].ts <= now ==> Sooner(jobs, id, x)
  {
    forall x | x in jobs ensures TsOf(q.pending[x]) == jobs[x].ts { TsRoundTrip(jobs[x].priority, jobs[x].ts); }
    var dues := map x | x in q.pending && Due(q, x, now) :: q.pending[x];
    assert due in dues;
    var id := First(dues);
    forall x | x in q.pending && x != id && Due(q, x, now) ensures Before(q.pending, id, x) {
      assert x in dues && Before(dues, id, x);
    }
    assert LeastDue(q, id, now);
    var ahead := set x | x in q.pending && Before(q.pending, x, id);
    var notDue := set x | x in jobs && jobs[x].ts > now;
    forall x | x in ahead ensures x in notDue {
      if Due(q, x, now) { BeforeTotal(q.pending, x, id); }
    }
    SubsetSize(ahead, notDue);
    DequeueIsExact(cfg, q, now, id);
    forall x | x in jobs && x != id && jobs[x].ts <= now ensures Sooner(jobs, id, x) {
      PackOrder(jobs[id].priority, jobs[id].ts, jobs[x].priority, jobs[x].ts);
    }
  }

  lemma {:induction false} SubsetSize<T>(a: set<T>, b: set<T>)
    requires a <= b
    ensures |a| <= |b|
  {
    if a != {} {
      var x :| x in a;
      SubsetSize(a - {x}, b - {x});
    }
  }

  /** The scan bound can starve due work: one task not yet due ahead of a due one and a
      scan limit of one leave the due task where it is. */
  lemma ScanCanMissDueTask()
    ensures exists cfg, q: Queue, now, id ::
      |q.running| < ConcurrencyLimit(cfg, q) && LeastDue(q, id, now) && Chosen(cfg, q, now) == None
  {
    var cfg := Config(10, 1, 1);
    var z: ZSet := map["later" := Pack(1, 100), "due" := Pack(2, 0)];
    var q := Queue(z, map[], 2, 0, 0, 0, None, None, None);
    TsRoundTrip(1, 100);
    TsRoundTrip(2, 0);
    assert Before(z, "later", "due");
    assert LeastDue(q, "due", 50);
    SubsetSize({"later"}, set x | x in z && Before(z, x, "due"));
    forall id ensures Chosen(cfg, q, 50) != Some(id) { DequeueIsExact(cfg, q, 50, id); }
  }

  // ---- Bookkeeping over whole runs ----

  ghost predicate Disjoint(q: Queue) { q.pending.Keys !! q.running.Keys }

  /** The id of an accepted enqueue is in neither set. */
  ghost predicate Fresh(cfg: Config, q: Queue, e: Event) {
    e.Enqueue? && Accepts(cfg, q) ==> e.id !in q.pending && e.id !in q.running
  }

  ghost predicate FreshRun(cfg: Config, q: Queue, events: seq<Event>) {
    forall k :: 0 <= k < |events| ==> Fresh(cfg, Run(cfg, q, events[..k]), events[k])
  }

  /** Ids cancelled out of pending by e. */
  ghost function CancelledPending(q: Queue, e: Event): nat {
    if e.Cancel? && e.id in q.pending then 1 else 0
  }

  /** Ids taken out of running between q and q', by whatever operation. */
  ghost function TakenFromRunning(q: Queue, q': Queue): nat {
    |q.running.Keys - q'.running.Keys|
  }

  ghost function TotalCancelled(cfg: Config, q: Queue, events: seq<Event>): nat {
    if events == [] then 0
    else
      var n := |events| - 1;
      TotalCancelled(cfg, q, events[..n]) + CancelledPending(Run(cfg, q, events[..n]), events[n])
  }

  ghost function TotalTaken(cfg: Config, q: Queue, events: seq<Event>): nat {
    if events == [] then 0
    else
      var n := |events| - 1;
      TotalTaken(cfg, q, events[..n]) + TakenFromRunning(Run(cfg, q, events[..n]), Run(cfg, q, events))
  }

  lemma ChosenIsPending(cfg: Config, q: Queue, now: int)
    ensures Chosen(cfg, q, now).Some? ==>
      && Chosen(cfg, q, now).value in q.pending && Due(q, Chosen(cfg, q, now).value, now)
      && |q.running| < ConcurrencyLimit(cfg, q)
  {
    FirstDueIs(q, Scan(cfg, q), now);
  }

  lemma RemoveSize<V>(m: map<string, V>, id: string)
    ensures |m - {id}| == |m| - if id in m then 1 else 0
    ensures (m - {id}).Keys == m.Keys - {id}
  {
    assert (m - {id}).Keys == m.Keys - {id};
  }

  lemma InsertSize<V>(m: map<string, V>, id: string, v: V)
    ensures |m[id := v]| == |m| + if id in m then 0 else 1
    ensures m[id := v].Keys == m.Keys + {id}
  {
    assert m[id := v].Keys == m.Keys + {id};
  }

  /** An accepted enqueue keeps the sets disjoint exactly when the id is not running, and
      adds to pending exactly when it was not pending. */
  lemma EnqueueNeedsFreshId(cfg: Config, q: Queue, e: Event)
    requires Disjoint(q) && e.Enqueue? && Accepts(cfg, q)
    ensures Disjoint(Step(cfg, q, e)) <==> e.id !in q.running
    ensures |Step(cfg, q, e).pending| == |q.pending| + 1 <==> e.id !in q.pending
  {
    InsertSize(q.pending, e.id, Pack(e.priority, Timestamp(e.executeAfter, e.now)));
  }

  /** The accounts of the two sets after one operation. */
  ghost predicate Balances(q: Queue, e: Event, q': Queue) {
    && Disjoint(q')
    && q'.enqueued - |q'.pending| - q'.dequeued == q.enqueued - |q.pending| - q.dequeued + CancelledPending(q, e)
    && q'.dequeued - |q'.running| == q.dequeued - |q.running| + TakenFromRunning(q, q')
  }

  lemma StepBalances(cfg: Config, q: Queue, e: Event)
    requires Disjoint(q) && Fresh(cfg, q, e)
    ensures Balances(q, e, Step(cfg, q, e))
  {
    match e
    case Dequeue(now) => DequeueBalances(cfg, q, now);
    case Enqueue(_, _, _, _) => EnqueueBalances(cfg, q, e);
    case Cancel(id) => CancelBalances(cfg, q, id);
    case _ => OthersShrink(cfg, q, e); ShrinkBalances(q, e, Step(cfg, q, e));
  }

  /** The remaining operations only take ids out of running. */
  lemma OthersShrink(cfg: Config, q: Queue, e: Event)
    requires !e.Enqueue? && !e.Dequeue? && !e.Cancel?
    ensures var q' := Step(cfg, q, e);
      && q'.pending == q.pending && q'.enqueued == q.enqueued && q'.dequeued == q.dequeued
      && q'.running.Keys <= q.running.Keys
  {
  }

  lemma ShrinkBalances(q: Queue, e: Event, q': Queue)
    requires Disjoint(q) && !e.Cancel?
    requires q'.pending == q.pending && q'.enqueued == q.enqueued && q'.dequeued == q.dequeued
    requires q'.running.Keys <= q.running.Keys
    ensures Balances(q, e, q')
  {
    RunningShrinks(q.running.Keys, q'.running.Keys);
  }

  lemma EnqueueBalances(cfg: Config, q: Queue, e: Event)
    requires Disjoint(q) && e.Enqueue? && Fresh(cfg, q, e)
    ensures Balances(q, e, Step(cfg, q, e))
  {
    InsertSize(q.pending, e.id, Pack(e.priority, Timestamp(e.executeAfter, e.now)));
    RunningShrinks(q.running.Keys, q.running.Keys);
  }

  lemma CancelBalances(cfg: Config, q: Queue, id: string)
    requires Disjoint(q)
    ensures Balances(q, Cancel(id), Step(cfg, q, Cancel(id)))
  {
    RemoveSize(q.pending, id);
    RemoveSize(q.running, id);
    RunningShrinks(q.running.Keys, Step(cfg, q, Cancel(id)).running.Keys);
  }

  lemma DequeueBalances(cfg: Config, q: Queue, now: int)
    requires Disjoint(q)
    ensures Balances(q, Dequeue(now), Step(cfg, q, Dequeue(now)))
  {
    ChosenIsPending(cfg, q, now);
    if Chosen(cfg, q, now).Some? {
      var id := Chosen(cfg, q, now).value;
      RemoveSize(q.pending, id);
      InsertSize(q.running, id, now);
      assert q.running.Keys - (q.running.Keys + {id}) == {};
    }
  }

  lemma RunningShrinks(before: set<string>, after: set<string>)
    requires after <= before
    ensures |before - after| == |before| - |after|
  {
  }

  lemma FreshPrefix(cfg: Config, q: Queue, events: seq<Event>)
    requires FreshRun(cfg, q, events) && events != []
    ensures var n := |events| - 1;
      FreshRun(cfg, q, events[..n]) && Fresh(cfg, Run(cfg, q, events[..n]), events[n])
  {
    var n := |events| - 1;
    forall k | 0 <= k < n ensures Fresh(cfg, Run(cfg, q, events[..n][..k]), events[..n][k]) {
      assert events[..n][..k] == events[..k];
    }
  }

  ghost predicate Empty(q: Queue) {
    q.pending == map[] && q.running == map[] && q.enqueued == 0 && q.dequeued == 0
  }

  /** From an empty queue, every run that enqueues fresh ids keeps the two sets disjoint
      and every id accounted for. */
  lemma {:induction false} RunBalances(cfg: Config, q: Queue, events: seq<Event>)
    requires Empty(q) && FreshRun(cfg, q, events)
    ensures var r := Run(cfg, q, events);
      && Disjoint(r)
      && r.enqueued == |r.pending| + r.dequeued + TotalCancelled(cfg, q, events)
      && r.dequeued == |r.running| + TotalTaken(cfg, q, events)
  {
    if events != [] {
      FreshPrefix(cfg, q, events);
      RunBalances(cfg, q, events[..|events| - 1]);
      StepBalances(cfg, Run(cfg, q, events[..|events| - 1]), events[|events| - 1]);
    }
  }

  // ---- Limits over whole runs ----

  /** Running grows only by a dequeue that found it below the limit of that moment, by one. */
  lemma RunningGrowsBelowLimit(cfg: Config, q: Queue, e: Event)
    ensures |Step(cfg, q, e).running| > |q.running| ==>
      e.Dequeue? && |q.running| < ConcurrencyLimit(cfg, q) && |Step(cfg, q, e).running| == |q.running| + 1
  {
    if e.Dequeue? {
      DequeueGrowsByOne(cfg, q, e.now);
    } else {
      SubsetSize(Step(cfg, q, e).running.Keys, q.running.Keys);
    }
  }

  lemma DequeueGrowsByOne(cfg: Config, q: Queue, now: int)
    ensures var q' := Step(cfg, q, Dequeue(now));
      |q'.running| > |q.running| ==> |q.running| < ConcurrencyLimit(cfg, q) && |q'.running| == |q.running| + 1
  {
    ChosenIsPending(cfg, q, now);
    if Chosen(cfg, q, now).Some? { InsertSize(q.running, Chosen(cfg, q, now).value, now); }
  }

  ghost predicate WithinDepth(cfg: Config, q: Queue, depth: nat) {
    |q.pending| <= depth && DepthLimit(cfg, q) <= depth
  }

  /** A stored concurrency limit is at least one. */
  ghost predicate PositiveLimit(q: Queue) { q.maxConcurrent.Some? ==> q.maxConcurrent.value >= 1 }

  lemma StepKeepsLimits(cfg: Config, q: Queue, e: Event, depth: nat)
    requires WithinDepth(cfg, q, depth)
    ensures WithinDepth(cfg, Step(cfg, q, e), depth)
    ensures PositiveLimit(q) ==> PositiveLimit(Step(cfg, q, e))
    ensures Step(cfg, q, e).maxDepth == q.maxDepth
  {
    PendingGrows(cfg, q, e);
    LimitMoves(cfg, q, e);
  }

  lemma PendingGrows(cfg: Config, q: Queue, e: Event)
    ensures |Step(cfg, q, e).pending| <= if e.Enqueue? && Accepts(cfg, q) then |q.pending| + 1 else |q.pending|
  {
    if e.Enqueue? && Accepts(cfg, q) {
      InsertSize(q.pending, e.id, Pack(e.priority, Timestamp(e.executeAfter, e.now)));
    } else {
      SubsetSize(Step(cfg, q, e).pending.Keys, q.pending.Keys);
    }
  }

  lemma LimitMoves(cfg: Config, q: Queue, e: Event)
    ensures Step(cfg, q, e).maxDepth == q.maxDepth
    ensures PositiveLimit(q) ==> PositiveLimit(Step(cfg, q, e))
  {
  }

  /** Over every run, pending stays within the depth limit, and a stored concurrency limit
      that starts positive stays so, however adjust and recover move it; it is then the one
      in force, never the default that replaces a useless value. */
  lemma {:induction false} RunKeepsLimits(cfg: Config, q: Queue, events: seq<Event>, depth: nat)
    requires WithinDepth(cfg, q, depth)
    ensures WithinDepth(cfg, Run(cfg, q, events), depth)
    ensures PositiveLimit(q) ==>
      var r := Run(cfg, q, events);
      PositiveLimit(r) && (r.maxConcurrent.Some? ==> ConcurrencyLimit(cfg, r) == r.maxConcurrent.value)
    ensures Run(cfg, q, events).maxDepth == q.maxDepth
  {
    if events != [] {
      RunKeepsLimits(cfg, q, events[..|events| - 1], depth);
      StepKeepsLimits(cfg, Run(cfg, q, events[..|events| - 1]), events[|events| - 1], depth);
    }
  }

  // ---- The time gate over whole runs ----

  ghost predicate NeverEnqueues(events: seq<Event>, id: string) {
    forall k :: 0 <= k < |events| ==> !(events[k].Enqueue? && events[k].id == id)
  }

  lemma {:induction false} ScoreIsKept(cfg: Config, q: Queue, events: seq<Event>, id: string)
    requires id in q.pending && NeverEnqueues(events, id)
    ensures id in Run(cfg, q, events).pending ==> Run(cfg, q, events).pending[id] == q.pending[id]
  {
    if events != [] {
      var n := |events| - 1;
      assert !(events[n].Enqueue? && events[n].id == id);
      assert NeverEnqueues(events[..n], id);
      ScoreIsKept(cfg, q, events[..n], id);
      if events[n].Enqueue? || events[n].Cancel? || events[n].Dequeue? {
        BackIntoPending(cfg, Run(cfg, q, events[..n]), events[n], id);
      }
    }
  }

  lemma BackIntoPending(cfg: Config, q: Queue, e: Event, id: string)
    requires !(e.Enqueue? && e.id == id)
    ensures id in Step(cfg, q, e).pending ==> id in q.pending && Step(cfg, q, e).pending[id] == q.pending[id]
  {
  }

  /** After an accepted enqueue of id at time t, no dequeue hands id out before its
      timestamp, unless id is enqueued again. */
  lemma NotBeforeItsTime(cfg: Config, q: Queue, e: Event, events: seq<Event>, k: nat)
    requires e.Enqueue? && Accepts(cfg, q) && 0 <= Timestamp(e.executeAfter, e.now) < TS_BASE
    requires NeverEnqueues(events, e.id) && k < |events| && events[k].Dequeue?
    requires Chosen(cfg, Run(cfg, Step(cfg, q, e), events[..k]), events[k].now) == Some(e.id)
    ensures events[k].now >= e.executeAfter && events[k].now >= e.now
  {
    var q1 := Step(cfg, q, e);
    assert NeverEnqueues(events[..k], e.id);
    ScoreIsKept(cfg, q1, events[..k], e.id);
    ChosenIsPending(cfg, Run(cfg, q1, events[..k]), events[k].now);
    TsRoundTrip(e.priority, Timestamp(e.executeAfter, e.now));
  }

  // ---- The queue as a set of jobs, over whole runs ----

  /** What the producers and consumers did to the waiting jobs. */
  ghost function JobsAfter(cfg: Config, q: Queue, events: seq<Event>): map<string, Job> {
    if events == [] then map[]
    else
      var n := |events| - 1;
      var (r, jobs) := (Run(cfg, q, events[..n]), JobsAfter(cfg, q, events[..n]));
      match events[n]
      case Enqueue(id, priority, after, now) =>
        if Accepts(cfg, r) then jobs[id := Job(priority, Timestamp(after, now))] else jobs
      case Dequeue(now) => (match Chosen(cfg, r, now) case Some(id) => jobs - {id} case None => jobs)
      case Cancel(id) => jobs - {id}
      case _ => jobs
  }

  /** All timestamps fit below the base. */
  ghost predicate TimesFit(events: seq<Event>) {
    forall k :: 0 <= k < |events| && events[k].Enqueue? ==>
      0 <= Timestamp(events[k].executeAfter, events[k].now) < TS_BASE
  }

  /** In every run the scores encode exactly the waiting jobs. */
  lemma {:induction false} RunKeepsJobs(cfg: Config, q: Queue, events: seq<Event>)
    requires q.pending == map[] && TimesFit(events)
    ensures Packed(Run(cfg, q, events), JobsAfter(cfg, q, events))
  {
    if events != [] {
      var n := |events| - 1;
      assert TimesFit(events[..n]);
      RunKeepsJobs(cfg, q, events[..n]);
      assert events[n].Enqueue? ==> 0 <= Timestamp(events[n].executeAfter, events[n].now) < TS_BASE;
    }
  }

  /** So in every run a dequeue with a free slot returns the least job that is due, if
      fewer than scanLimit jobs are not due yet. */
  lemma EveryDequeueReturnsLeast(cfg: Config, q: Queue, events: seq<Event>, now: int, due: string)
    requires q.pending == map[] && TimesFit(events)
    requires |Run(cfg, q, events).running| < ConcurrencyLimit(cfg, Run(cfg, q, events))
    requires var jobs := JobsAfter(cfg, q, events);
      due in jobs && jobs[due].ts <= now && |set x | x in jobs && jobs[x].ts > now| < cfg.scanLimit
    ensures var (jobs, id) := (JobsAfter(cfg, q, events), Chosen(cfg, Run(cfg, q, events), now));
      && id.Some? && id.value in jobs && jobs[id.value].ts <= now
      && forall x :: x in jobs && x != id.value && jobs[x].ts <= now ==> Sooner(jobs, id.value, x)
  {
    RunKeepsJobs(cfg, q, events);
    DequeueReturnsLeast(cfg, Run(cfg, q, events), JobsAfter(cfg, q, events), now, due);
  }

  // ---- Counters and recovery ----

  ghost function CountComplete(events: seq<Event>): nat {
    if events == [] then 0
    else CountComplete(events[..|events| - 1]) + if events[|events| - 1].Complete? then 1 else 0
  }

  ghost function CountFail(events: seq<Event>): nat {
    if events == [] then 0
    else CountFail(events[..|events| - 1]) + if events[|events| - 1].FailTask? then 1 else 0
  }

  /** The outcome counters count the reported outcomes. */
  lemma {:induction false} RunCountsOutcomes(cfg: Config, q: Queue, events: seq<Event>)
    ensures Run(cfg, q, events).completed == q.completed + CountComplete(events)
    ensures Run(cfg, q, events).failed == q.failed + CountFail(events)
  {
    if events != [] {
      RunCountsOutcomes(cfg, q, events[..|events| - 1]);
      StepCountsOutcome(cfg, Run(cfg, q, events[..|events| - 1]), events[|events| - 1]);
    }
  }

  lemma StepCountsOutcome(cfg: Config, q: Queue, e: Event)
    ensures Step(cfg, q, e).completed == q.completed + if e.Complete? then 1 else 0
    ensures Step(cfg, q, e).failed == q.failed + if e.FailTask? then 1 else 0
  {
  }

  /** A reported outcome of a task that is not running. */
  ghost function Stray(q: Queue, e: Event): nat {
    if (e.Complete? || e.FailTask?) && e.id !in q.running then 1 else 0
  }

  /** Ids that leave running without a reported outcome: cancelled, released or swept. */
  ghost function Dropped(q: Queue, e: Event, q': Queue): nat {
    if e.Complete? || e.FailTask? then 0 else TakenFromRunning(q, q')
  }

  ghost function TotalStray(cfg: Config, q: Queue, events: seq<Event>): nat {
    if events == [] then 0
    else
      var n := |events| - 1;
      TotalStray(cfg, q, events[..n]) + Stray(Run(cfg, q, events[..n]), events[n])
  }

  ghost function TotalDropped(cfg: Config, q: Queue, events: seq<Event>): nat {
    if events == [] then 0
    else
      var n := |events| - 1;
      TotalDropped(cfg, q, events[..n]) + Dropped(Run(cfg, q, events[..n]), events[n], Run(cfg, q, events))
  }

  lemma OutcomeTakes(cfg: Config, q: Queue, e: Event)
    ensures var q' := Step(cfg, q, e);
      TakenFromRunning(q, q') + Stray(q, e) == Dropped(q, e, q') + (q'.completed - q.completed) + (q'.failed - q.failed)
  {
    StepCountsOutcome(cfg, q, e);
    if e.Complete? || e.FailTask? {
      RemoveSize(q.running, e.id);
      RunningShrinks(q.running.Keys, q.running.Keys - {e.id});
    }
  }

  lemma {:induction false} OutcomesTake(cfg: Config, q: Queue, events: seq<Event>)
    ensures var r := Run(cfg, q, events);
      TotalTaken(cfg, q, events) + TotalStray(cfg, q, events)
      == TotalDropped(cfg, q, events) + (r.completed - q.completed) + (r.failed - q.failed)
  {
    if events != [] {
      OutcomesTake(cfg, q, events[..|events| - 1]);
      OutcomeTakes(cfg, Run(cfg, q, events[..|events| - 1]), events[|events| - 1]);
    }
  }

  /** Every task handed out is running, completed, failed, or was dropped, but for outcomes
      reported of tasks that were not running, in every run that enqueues fresh ids. */
  lemma RunAccounts(cfg: Config, q: Queue, events: seq<Event>)
    requires Empty(q) && q.completed == q.failed == 0 && FreshRun(cfg, q, events)
    ensures var r := Run(cfg, q, events);
      && r.dequeued + TotalStray(cfg, q, events) == |r.running| + r.completed + r.failed + TotalDropped(cfg, q, events)
      && r.completed == CountComplete(events) && r.failed == CountFail(events)
  {
    RunBalances(cfg, q, events);
    OutcomesTake(cfg, q, events);
    RunCountsOutcomes(cfg, q, events);
  }

  ghost function Sum(events: seq<Event>): int
    requires forall k :: 0 <= k < |events| ==> events[k].Adjust?
  {
    if events == [] then 0 else Sum(events[..|events| - 1]) + events[|events| - 1].delta
  }

  /** A run of adjustments adds up, and stops at one: the limit is never below the sum, and
      is the sum if no prefix takes it below one. */
  lemma {:induction false} AdjustsAddUp(cfg: Config, q: Queue, events: seq<Event>)
    requires events != [] && forall k :: 0 <= k < |events| ==> events[k].Adjust?
    ensures var (cur, r) := (if q.maxConcurrent.Some? then q.maxConcurrent.value else cfg.defaultConcurrent, Run(cfg, q, events));
      && r.maxConcurrent.Some? && r.maxConcurrent.value >= 1 && r.maxConcurrent.value >= cur + Sum(events)
      && ((forall n :: 0 < n <= |events| ==> cur + Sum(events[..n]) >= 1) ==> r.maxConcurrent.value == cur + Sum(events))
  {
    var n := |events| - 1;
    assert events[..n + 1] == events;
    if n == 0 {
      assert events[..0] == [] && Run(cfg, q, events[..0]) == q;
    } else {
      AdjustsAddUp(cfg, q, events[..n]);
      forall m | 0 < m <= n ensures events[..n][..m] == events[..m] {}
    }
  }

  /** id is the least due task and not too far back for the scan. */
  ghost predicate FirstInScan(cfg: Config, q: Queue, id: string, now: int) {
    LeastDue(q, id, now) && (cfg.scanLimit < 0 || Rank(q.pending, id) < cfg.scanLimit)
  }

  /** The limits in force: a dequeue hands something out only below the stored concurrency
      limit, or the default where none, or a useless one, is stored; an enqueue is accepted
      exactly below the stored depth, or its default. */
  lemma LimitsInForce(cfg: Config, q: Queue, e: Event)
    ensures var slots := if q.maxConcurrent.None? || q.maxConcurrent.value <= 0 then cfg.defaultConcurrent else q.maxConcurrent.value;
      && (e.Dequeue? && |q.running| >= slots ==> Step(cfg, q, e) == q)
      && (e.Dequeue? && |q.running| < slots ==> forall id :: FirstInScan(cfg, q, id, e.now) ==> id in Step(cfg, q, e).running)
    ensures var depth := if q.maxDepth.None? || q.maxDepth.value <= 0 then cfg.defaultDepth else q.maxDepth.value;
      && (e.Enqueue? && |q.pending| < depth ==> Step(cfg, q, e).enqueued == q.enqueued + 1 && e.id in Step(cfg, q, e).pending)
      && (e.Enqueue? && |q.pending| >= depth ==> Step(cfg, q, e) == q)
  {
    if e.Dequeue? && |q.running| < ConcurrencyLimit(cfg, q) {
      forall id | FirstInScan(cfg, q, id, e.now) ensures id in Step(cfg, q, e).running {
        DequeueIsExact(cfg, q, e.now, id);
      }
    }
  }

  /** After a cancel, a completion, a failure or a release the id holds no slot; a cancelled
      id is in neither set; every other id stays as it was. */
  lemma SlotIsFreed(cfg: Config, q: Queue, e: Event)
    requires Disjoint(q) && (e.Cancel? || e.Complete? || e.FailTask? || e.Release?)
    ensures var q' := Step(cfg, q, e);
      && e.id !in q'.running && (e.Cancel? ==> e.id !in q'.pending)
      && |q'.running| == |q.running| - (if e.id in q.running then 1 else 0)
      && (forall x :: x != e.id ==> (x in q'.running <==> x in q.running) && (x in q'.pending <==> x in q.pending))
      && (!e.Cancel? ==> q'.pending == q.pending)
  {
    RemoveSize(q.running, e.id);
  }

  /** n recoveries raise a lowered limit by n, up to the baseline and never beyond it; a limit
      at or above the baseline, or none at all, they leave alone. */
  lemma {:induction false} RecoverReachesBaseline(cfg: Config, q: Queue, events: seq<Event>)
    requires forall k :: 0 <= k < |events| ==> events[k].Recover?
    ensures var baseline := if q.baseline.Some? then q.baseline.value else cfg.defaultConcurrent;
      Run(cfg, q, events) == q.(maxConcurrent := match q.maxConcurrent
        case None => None
        case Some(cur) => Some(if cur >= baseline then cur else if cur + |events| < baseline then cur + |events| else baseline))
  {
    if events != [] { RecoverReachesBaseline(cfg, q, events[..|events| - 1]); }
  }

  // ---- Cleanup of stale entries: a query, and later a removal ----

  /** What the range query of a cleanup returns. */
  function Stale(q: Queue, cutoff: int): set<string> { set id | id in q.running && q.running[id] <= cutoff }

  /** No dequeue of the run hands id out. */
  ghost predicate NeverDequeued(cfg: Config, q: Queue, events: seq<Event>, id: string) {
    forall k :: 0 <= k < |events| && events[k].Dequeue? ==>
      Chosen(cfg, Run(cfg, q, events[..k]), events[k].now) != Some(id)
  }

  lemma BackIntoRunning(cfg: Config, q: Queue, e: Event, id: string)
    requires e.Dequeue? ==> Chosen(cfg, q, e.now) != Some(id)
    ensures id in Step(cfg, q, e).running ==> id in q.running && Step(cfg, q, e).running[id] == q.running[id]
  {
  }

  lemma {:induction false} StartIsKept(cfg: Config, q: Queue, events: seq<Event>, id: string)
    requires NeverDequeued(cfg, q, events, id)
    ensures id in Run(cfg, q, events).running ==>
      id in q.running && Run(cfg, q, events).running[id] == q.running[id]
  {
    if events != [] {
      var n := |events| - 1;
      forall k | 0 <= k < n && events[..n][k].Dequeue?
        ensures Chosen(cfg, Run(cfg, q, events[..n][..k]), events[..n][k].now) != Some(id)
      {
        assert events[..n][..k] == events[..k];
      }
      StartIsKept(cfg, q, events[..n], id);
      BackIntoRunning(cfg, Run(cfg, q, events[..n]), events[n], id);
    }
  }

  /** A cleanup removes what its query found, whatever happened in between. An entry newer
      than the cutoff goes only if its task was stale at the query and handed out again
      before the removal; with nothing in between exactly the stale entries go. */
  lemma CleanupIsExact(cfg: Config, q: Queue, between: seq<Event>, cutoff: int, id: string)
    ensures var (r, s) := (Run(cfg, q, between), Step(cfg, Run(cfg, q, between), Sweep(Stale(q, cutoff))));
      && (id in s.running <==> id in r.running && !(id in q.running && q.running[id] <= cutoff))
      && (id in r.running && r.running[id] > cutoff && id !in s.running ==> !NeverDequeued(cfg, q, between, id))
      && (between == [] ==> (id in s.running <==> id in q.running && q.running[id] > cutoff))
  {
    if NeverDequeued(cfg, q, between, id) { StartIsKept(cfg, q, between, id); }
  }

  /** That happens: a task that completes, comes back and starts anew between query and
      removal loses its slot although it has just started. */
  lemma CleanupCanTakeFresh(cfg: Config, q: Queue)
    requires q.running == map["t" := 0] && q.pending == map[] && cfg.scanLimit > 0
    requires DepthLimit(cfg, q) >= 1 && ConcurrencyLimit(cfg, q) >= 1
    ensures var between := [Complete("t"), Enqueue("t", 0, 0, 100), Dequeue(100)];
      var r := Run(cfg, q, between);
      && r.running == map["t" := 100] && "t" !in Step(cfg, r, Sweep(Stale(q, 50))).running
  {
    RunThree(cfg, q, Complete("t"), Enqueue("t", 0, 0, 100), Dequeue(100));
    ComesBack(cfg, q);
    var q2 := Step(cfg, Step(cfg, q, Complete("t")), Enqueue("t", 0, 0, 100));
    OnlyTaskIsChosen(cfg, q2, "t", 100);
    assert "t" in Stale(q, 50);
  }

  lemma ComesBack(cfg: Config, q: Queue)
    requires q.running == map["t" := 0] && q.pending == map[] && DepthLimit(cfg, q) >= 1
    ensures var q2 := Step(cfg, Step(cfg, q, Complete("t")), Enqueue("t", 0, 0, 100));
      && q2.pending.Keys == {"t"} && Due(q2, "t", 100) && q2.running == map[]
      && ConcurrencyLimit(cfg, q2) == ConcurrencyLimit(cfg, q)
  {
    var q1 := Step(cfg, q, Complete("t"));
    assert q1.running == map[] && Accepts(cfg, q1);
    TsRoundTrip(0, 100);
  }

  lemma OnlyTaskIsChosen(cfg: Config, q: Queue, id: string, now: int)
    requires q.pending.Keys == {id} && Due(q, id, now) && |q.running| < ConcurrencyLimit(cfg, q) && cfg.scanLimit > 0
    ensures Chosen(cfg, q, now) == Some(id)
  {
    StrLessTotal(id, id);
    assert (set x | x in q.pending && Before(q.pending, x, id)) == {};
    DequeueIsExact(cfg, q, now, id);
  }

  lemma RunThree(cfg: Config, q: Queue, a: Event, b: Event, c: Event)
    ensures Run(cfg, q, [a, b, c]) == Step(cfg, Step(cfg, Step(cfg, q, a), b), c)
  {
    assert [a, b, c][..2] == [a, b] && [a, b][..1] == [a] && [a][..0] == [];
    assert Run(cfg, q, [a]) == Step(cfg, q, a);
    assert Run(cfg, q, [a, b]) == Step(cfg, Run(cfg, q, [a]), b);
  }
}
