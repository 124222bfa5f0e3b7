/** Phase 2 of the reconciler (src/platform/task_reconciler.py, _phase2_stuck_recovery):
    tasks whose execution lock is gone are requeued with a delay or failed, guarded
    across all reconciler instances by an expiring dedup key per task. */
module StuckRecovery {
  import opened Prelude
  import opened Lease
  import Q = QueueModel

  const DEDUP_TTL: int := 300

  /** A cached task record; createdTs is 0 when absent, times are in seconds. */
  datatype Task = Task(id: string, status: string, createdTs: int, maxRetries: int, attempt: nat,
                       capability: string, priority: int)

  /** One successful dedup SET: the task is handled by the instance that made it. */
  datatype Handling = Handling(id: string, at: int)

  /** An attempt of some instance to take the dedup key of a task. */
  datatype Visit = Visit(id: string, at: int)

  datatype Dedup = Dedup(keys: map<string, int>, log: seq<Handling>)

  predicate Taken(d: Dedup, v: Visit) { v.id in d.keys && v.at < d.keys[v.id] }

  function SetNx(d: Dedup, v: Visit): Dedup {
    if Taken(d, v) then d
    else Dedup(d.keys[v.id := v.at + DEDUP_TTL], d.log + [Handling(v.id, v.at)])
  }

  function RunVisits(d: Dedup, vs: seq<Visit>): Dedup {
    if vs == [] then d else SetNx(RunVisits(d, vs[..|vs| - 1]), vs[|vs| - 1])
  }

  // ---- Spacing of the handlings of one task, over any number of instances ----

  ghost predicate Spaced(log: seq<Handling>) {
    forall i, j :: 0 <= i < j < |log| && log[i].id == log[j].id ==> log[j].at >= log[i].at + DEDUP_TTL
  }

  /** Every handling is covered by its key, every key stems from a handling, and nothing
      lies in the future of `now`. */
  ghost predicate Covered(d: Dedup, now: int) {
    && Spaced(d.log)
    && (forall id :: id in d.keys ==> Stems(d, id))
    && forall i :: 0 <= i < |d.log| ==>
         d.log[i].at <= now && d.log[i].id in d.keys && d.keys[d.log[i].id] >= d.log[i].at + DEDUP_TTL
  }

  ghost predicate Stems(d: Dedup, id: string)
    requires id in d.keys
  {
    exists i :: 0 <= i < |d.log| && d.log[i].id == id && d.keys[id] == d.log[i].at + DEDUP_TTL
  }

  /** Some instance handled id at `at`, or less than the dedup lifetime before. */
  ghost predicate HandledBy(d: Dedup, id: string, at: int) {
    exists i :: 0 <= i < |d.log| && d.log[i].id == id && at - DEDUP_TTL < d.log[i].at <= at
  }

  ghost predicate Ordered(vs: seq<Visit>, from: int, to: int) {
    && from <= to
    && (forall i :: 0 <= i < |vs| ==> from <= vs[i].at <= to)
    && forall i, j :: 0 <= i < j < |vs| ==> vs[i].at <= vs[j].at
  }

  lemma StillStems(d: Dedup, v: Visit, id: string)
    requires !Taken(d, v) && id in SetNx(d, v).keys && (id in d.keys ==> Stems(d, id))
    ensures Stems(SetNx(d, v), id)
  {
    var d' := SetNx(d, v);
    assert d'.log[|d.log|] == Handling(v.id, v.at);
    if id != v.id {
      var i :| 0 <= i < |d.log| && d.log[i].id == id && d.keys[id] == d.log[i].at + DEDUP_TTL;
      assert d'.log[i] == d.log[i];
    }
  }

  lemma VisitIsHandled(d: Dedup, v: Visit, now: int)
    requires Covered(d, now) && now <= v.at
    ensures HandledBy(SetNx(d, v), v.id, v.at)
  {
    if Taken(d, v) { assert Stems(d, v.id); } else { assert SetNx(d, v).log[|d.log|] == Handling(v.id, v.at); }
  }

  lemma VisitKeepsCover(d: Dedup, v: Visit, now: int)
    requires Covered(d, now) && now <= v.at
    ensures Covered(SetNx(d, v), v.at)
  {
    if !Taken(d, v) {
      forall id | id in SetNx(d, v).keys ensures Stems(SetNx(d, v), id) { StillStems(d, v, id); }
    }
  }

  lemma {:induction false} VisitsKeepCover(d: Dedup, vs: seq<Visit>, from: int, to: int)
    requires Covered(d, from) && Ordered(vs, from, to)
    ensures Covered(RunVisits(d, vs), to)
  {
    if vs != [] {
      var n := |vs| - 1;
      VisitsKeepCover(d, vs[..n], from, vs[n].at);
      VisitKeepsCover(RunVisits(d, vs[..n]), vs[n], vs[n].at);
    }
  }

  /** Over every run of every number of reconciler instances, two handlings of the same
      task are at least the dedup lifetime apart. */
  lemma HandlingsAreSpaced(vs: seq<Visit>, from: int, to: int)
    requires Ordered(vs, from, to)
    ensures Spaced(RunVisits(Dedup(map[], []), vs).log)
  {
    VisitsKeepCover(Dedup(map[], []), vs, from, to);
  }

  // ---- One tick ----

  /** The task passes every test of the loop that precedes the dedup key. */
  predicate LooksStuck(t: Task, locked: set<string>, now: int, maxAge: int) {
    && t.status in ["running", "queued"]
    && t.id != "" && t.id !in locked
    && (t.createdTs == 0 || now - t.createdTs >= maxAge)
  }

  predicate Retryable(t: Task, hasQueue: bool) { hasQueue && t.attempt < t.maxRetries }

  /** What a tick is given: its limits, the batch, the ids whose lock key existed when the
      pipeline asked, its clock reading, the later readings, and the visits the other
      instances make before its i-th task is visited, at clock(i + 1). */
  datatype Setting = Setting(maxPerTick: int, maxAge: int, batch: seq<Task>, locked: set<string>, now: int,
                             clock: nat -> int, others: nat -> seq<Visit>)

  /** The dedup keys after the first n tasks, and the positions of the tasks whose keys the
      tick took. */
  datatype Ticked = Ticked(dedup: Dedup, took: seq<nat>)

  ghost function TickTo(t: Setting, d: Dedup, n: nat): Ticked
    requires n <= |t.batch|
    decreases n
  {
    if n == 0 then Ticked(d, [])
    else
      var (took, found) := (TickTo(t, d, n - 1).took, RunVisits(TickTo(t, d, n - 1).dedup, t.others(n - 1)));
      var visit := Visit(t.batch[n - 1].id, t.clock(n));
      if |took| < t.maxPerTick && LooksStuck(t.batch[n - 1], t.locked, t.now, t.maxAge) && !Taken(found, visit) then
        Ticked(SetNx(found, visit), took + [n - 1])
      else Ticked(found, took)
  }

  /** The dedup keys as the tick finds them when it comes to its i-th task. */
  ghost function AtVisit(t: Setting, d: Dedup, i: nat): Dedup
    requires i < |t.batch|
  {
    RunVisits(TickTo(t, d, i).dedup, t.others(i))
  }

  lemma {:induction false} TookGrows(t: Setting, d: Dedup, m: nat, n: nat)
    requires m <= n <= |t.batch|
    ensures TickTo(t, d, m).took <= TickTo(t, d, n).took
    ensures forall i :: i in TickTo(t, d, n).took ==> i < n && (i in TickTo(t, d, m).took || m <= i)
    decreases n
  {
    if m < n { TookGrows(t, d, m, n - 1); } else if n > 0 { TookGrows(t, d, n - 1, n - 1); }
  }

  /** Whether the i-th task is taken is decided at its visit, by its own step. */
  lemma TookAtVisit(t: Setting, d: Dedup, i: nat)
    requires i < |t.batch|
    ensures i in TickTo(t, d, |t.batch|).took <==> TickTo(t, d, i + 1).took != TickTo(t, d, i).took
    ensures |TickTo(t, d, i).took| <= |TickTo(t, d, |t.batch|).took|
  {
    TookGrows(t, d, i, i);
    TookGrows(t, d, i, |t.batch|);
    TookGrows(t, d, i + 1, |t.batch|);
    var (n, all) := (|TickTo(t, d, i).took|, TickTo(t, d, |t.batch|).took);
    if TickTo(t, d, i + 1).took != TickTo(t, d, i).took {
      assert all[n] == TickTo(t, d, i + 1).took[n] == i;
    }
  }

  lemma TakingSets(d: Dedup, v: Visit)
    requires !Taken(d, v)
    ensures SetNx(d, v) != d && SetNx(d, v).keys == d.keys[v.id := v.at + 300]
  {
    assert |SetNx(d, v).log| == |d.log| + 1;
  }

  /** A task is taken exactly if the tick changes its dedup key, which then lasts 300 s from
      the visit. It is taken only if it is running or queued, has an id, no lock and the age,
      and its key is free; and as long as the budget lasts every such task is taken. */
  lemma TookExactly(t: Setting, d: Dedup, i: nat)
    requires i < |t.batch|
    ensures var (task, took) := (t.batch[i], TickTo(t, d, |t.batch|).took);
      var (found, left) := (AtVisit(t, d, i), TickTo(t, d, i + 1).dedup);
      var stuck := (task.status == "running" || task.status == "queued") && task.id != "" && task.id !in t.locked
        && (task.createdTs == 0 || t.now - task.createdTs >= t.maxAge);
      var held := task.id in found.keys && t.clock(i + 1) < found.keys[task.id];
      && (i in took <==> left != found)
      && (i in took ==> stuck && !held && left.keys == found.keys[task.id := t.clock(i + 1) + 300])
      && (stuck && !held && |took| < t.maxPerTick ==> i in took)
  {
    TookAtVisit(t, d, i);
    var (found, visit) := (AtVisit(t, d, i), Visit(t.batch[i].id, t.clock(i + 1)));
    if !Taken(found, visit) { TakingSets(found, visit); }
  }

  /** The taken positions come in batch order, each once, and at most as many as allowed. */
  lemma {:induction false} TookInOrder(t: Setting, d: Dedup, n: nat)
    requires n <= |t.batch|
    ensures var took := TickTo(t, d, n).took;
      && (forall j, k :: 0 <= j < k < |took| ==> took[j] < took[k])
      && (forall j :: 0 <= j < |took| ==> took[j] < n)
      && |took| <= if t.maxPerTick > 0 then t.maxPerTick else 0
  {
    if n > 0 { TookInOrder(t, d, n - 1); }
  }

  /** The tasks at these positions that have attempts left, or those that have none; without
      a queue none counts as having any. */
  ghost function Listed(batch: seq<Task>, took: seq<nat>, hasQueue: bool, again: bool): seq<Task>
    requires forall j :: 0 <= j < |took| ==> took[j] < |batch|
  {
    if took == [] then []
    else
      var (n, task) := (|took| - 1, batch[took[|took| - 1]]);
      Listed(batch, took[..n], hasQueue, again)
      + if (hasQueue && task.attempt < task.maxRetries) == again then [task] else []
  }

  lemma ListedSnoc(batch: seq<Task>, took: seq<nat>, i: nat, hasQueue: bool, again: bool)
    requires i < |batch| && forall j :: 0 <= j < |took| ==> took[j] < |batch|
    ensures Listed(batch, took + [i], hasQueue, again) == Listed(batch, took, hasQueue, again)
      + if (hasQueue && batch[i].attempt < batch[i].maxRetries) == again then [batch[i]] else []
  {
    assert (took + [i])[..|took|] == took;
  }

  ghost function TasksAt(batch: seq<Task>, took: seq<nat>): seq<Task>
    requires forall j :: 0 <= j < |took| ==> took[j] < |batch|
  {
    if took == [] then [] else TasksAt(batch, took[..|took| - 1]) + [batch[took[|took| - 1]]]
  }

  /** Every taken task is listed exactly once, for another attempt or as failed. */
  lemma {:induction false} ListedOnce(batch: seq<Task>, took: seq<nat>, hasQueue: bool)
    requires forall j :: 0 <= j < |took| ==> took[j] < |batch|
    ensures multiset(Listed(batch, took, hasQueue, true)) + multiset(Listed(batch, took, hasQueue, false))
      == multiset(TasksAt(batch, took))
  {
    if took != [] { ListedOnce(batch, took[..|took| - 1], hasQueue); }
  }

  /** The dedup keys of all tasks, shared by the instances. */
  class Reconciler {
    const maxPerTick: int
    const maxAge: int
    const hasQueue: bool
    var dedup: Dedup

    constructor (maxPerTick: int, maxAge: int, hasQueue: bool)
      ensures this.maxPerTick == maxPerTick && this.maxAge == maxAge && this.hasQueue == hasQueue
      ensures dedup == Dedup(map[], [])
    {
      this.maxPerTick, this.maxAge, this.hasQueue, dedup := maxPerTick, maxAge, hasQueue, Dedup(map[], []);
    }

    /** One task of the batch: it is handled if it looks stuck and its dedup key is free. */
    method Consider(task: Task, locked: set<string>, now: int, at: int) returns (handled: bool)
      modifies this
      ensures handled <==> LooksStuck(task, locked, now, maxAge) && !Taken(old(dedup), Visit(task.id, at))
      ensures dedup == if LooksStuck(task, locked, now, maxAge) then SetNx(old(dedup), Visit(task.id, at)) else old(dedup)
    {
      if task.status !in ["running", "queued"] || task.id == "" || task.id in locked { return false; }
      if task.createdTs != 0 && now - task.createdTs < maxAge { return false; }
      handled := !Taken(dedup, Visit(task.id, at));
      dedup := SetNx(dedup, Visit(task.id, at));
    }

    /** The other instances make their visits, then, budget permitting, this one considers
        its task. */
    method Turn(task: Task, budget: bool, locked: set<string>, now: int, visits: seq<Visit>, from: int, at: int)
      returns (handled: bool)
      requires Covered(dedup, from) && Ordered(visits, from, at)
      modifies this
      ensures var (found, visit) := (RunVisits(old(dedup), visits), Visit(task.id, at));
        && (handled <==> budget && LooksStuck(task, locked, now, maxAge) && !Taken(found, visit))
        && dedup == if handled then SetNx(found, visit) else found
      ensures Covered(dedup, at) && Grows(old(dedup), dedup)
      ensures handled ==> budget && LooksStuck(task, locked, now, maxAge) && HandledSince(dedup, old(dedup), task.id)
      ensures budget && LooksStuck(task, locked, now, maxAge) ==> HandledBy(dedup, task.id, at)
    {
      VisitsKeepCover(dedup, visits, from, at);
      VisitsGrow(dedup, visits);
      dedup := RunVisits(dedup, visits);
      if !budget { return false; }
      ghost var d, visit := dedup, Visit(task.id, at);
      VisitKeepsCover(d, visit, at);
      VisitIsHandled(d, visit, at);
      SetNxHandles(d, visit, old(dedup));
      handled := Consider(task, locked, now, at);
    }

    /** The loop over the batch: the two lists hold exactly the tasks whose keys the tick took,
        each once and in batch order, split by whether they have attempts left. */
    method Tick(batch: seq<Task>, locked: set<string>, now: int, clock: nat -> int, others: nat -> seq<Visit>)
      returns (requeue: seq<Task>, fail: seq<Task>)
      requires Covered(dedup, clock(0))
      requires forall i: nat :: Ordered(others(i), clock(i), clock(i + 1))
      modifies this
      ensures var after := TickTo(Setting(maxPerTick, maxAge, batch, locked, now, clock, others), old(dedup), |batch|);
        && dedup == after.dedup && (forall j :: 0 <= j < |after.took| ==> after.took[j] < |batch|)
        && requeue == Listed(batch, after.took, hasQueue, true) && fail == Listed(batch, after.took, hasQueue, false)
      ensures Covered(dedup, clock(|batch|))
      ensures |requeue| + |fail| <= if maxPerTick > 0 then maxPerTick else 0
      ensures forall t :: t in requeue ==> t in batch && LooksStuck(t, locked, now, maxAge) && hasQueue && t.attempt < t.maxRetries
      ensures forall t :: t in fail ==> t in batch && LooksStuck(t, locked, now, maxAge) && !(hasQueue && t.attempt < t.maxRetries)
      ensures forall t :: t in requeue + fail ==> HandledSince(dedup, old(dedup), t.id)
      ensures |requeue| + |fail| < maxPerTick ==>
        forall i :: 0 <= i < |batch| && LooksStuck(batch[i], locked, now, maxAge) ==> HandledBy(dedup, batch[i].id, clock(i + 1))
    {
      ghost var setting := Setting(maxPerTick, maxAge, batch, locked, now, clock, others);
      requeue, fail := [], [];
      for i := 0 to |batch|
        invariant TickedTo(setting, old(dedup), i, hasQueue, dedup, requeue, fail)
        invariant Covered(dedup, clock(i))
        invariant |requeue| + |fail| <= if maxPerTick > 0 then maxPerTick else 0
        invariant forall t :: t in requeue ==> t in batch && LooksStuck(t, locked, now, maxAge) && Retryable(t, hasQueue)
        invariant forall t :: t in fail ==> t in batch && LooksStuck(t, locked, now, maxAge) && !Retryable(t, hasQueue)
        invariant Grows(old(dedup), dedup) && AllHandled(requeue + fail, old(dedup), dedup)
        invariant |requeue| + |fail| < maxPerTick ==> AllSeen(batch[..i], clock, locked, now, maxAge, dedup)
      {
        ghost var d := dedup;
        var budget := |requeue| + |fail| < maxPerTick;
        var handled := Turn(batch[i], budget, locked, now, others(i), clock(i), clock(i + 1));
        StillTrue(requeue + fail, old(dedup), d, dedup);
        if budget {
          StillSeen(batch[..i], clock, locked, now, maxAge, d, dedup);
          SeenOneMore(batch, i, clock, locked, now, maxAge, dedup);
        }
        TickedOneMore(setting, old(dedup), i, hasQueue, d, requeue, fail);
        if handled {
          HandledSinceStart(dedup, d, old(dedup), batch[i].id);
          if Retryable(batch[i], hasQueue) { requeue := requeue + [batch[i]]; } else { fail := fail + [batch[i]]; }
        }
      }
      assert batch[..|batch|] == batch;
    }
  }

  /** The tick has come to its i-th task with these keys and lists. */
  ghost predicate TickedTo(t: Setting, d: Dedup, i: nat, hasQueue: bool, now: Dedup, requeue: seq<Task>, fail: seq<Task>) {
    && i <= |t.batch| && now == TickTo(t, d, i).dedup
    && (forall j :: 0 <= j < |TickTo(t, d, i).took| ==> TickTo(t, d, i).took[j] < |t.batch|)
    && requeue == Listed(t.batch, TickTo(t, d, i).took, hasQueue, true)
    && fail == Listed(t.batch, TickTo(t, d, i).took, hasQueue, false)
    && |requeue| + |fail| == |TickTo(t, d, i).took|
  }

  lemma TickedOneMore(t: Setting, d: Dedup, i: nat, hasQueue: bool, now: Dedup, requeue: seq<Task>, fail: seq<Task>)
    requires i < |t.batch| && TickedTo(t, d, i, hasQueue, now, requeue, fail)
    ensures var (task, found, visit) := (t.batch[i], RunVisits(now, t.others(i)), Visit(t.batch[i].id, t.clock(i + 1)));
      if |requeue| + |fail| < t.maxPerTick && LooksStuck(task, t.locked, t.now, t.maxAge) && !Taken(found, visit) then
        if hasQueue && task.attempt < task.maxRetries
        then TickedTo(t, d, i + 1, hasQueue, SetNx(found, visit), requeue + [task], fail)
        else TickedTo(t, d, i + 1, hasQueue, SetNx(found, visit), requeue, fail + [task])
      else TickedTo(t, d, i + 1, hasQueue, found, requeue, fail)
  {
    var took := TickTo(t, d, i).took;
    ListedSnoc(t.batch, took, i, hasQueue, true);
    ListedSnoc(t.batch, took, i, hasQueue, false);
  }

  /** d' continues d. */
  ghost predicate Grows(d: Dedup, d': Dedup) { d.log <= d'.log && d.keys.Keys <= d'.keys.Keys }

  ghost predicate AllHandled(ts: seq<Task>, d0: Dedup, d: Dedup) {
    forall t :: t in ts ==> HandledSince(d, d0, t.id)
  }

  /** Every stuck task of ts was handled, by some instance, within a dedup lifetime up to
      its visit. */
  ghost predicate AllSeen(ts: seq<Task>, clock: nat -> int, locked: set<string>, now: int, maxAge: int, d: Dedup) {
    forall i :: 0 <= i < |ts| && LooksStuck(ts[i], locked, now, maxAge) ==> HandledBy(d, ts[i].id, clock(i + 1))
  }

  lemma StillSeen(ts: seq<Task>, clock: nat -> int, locked: set<string>, now: int, maxAge: int, d: Dedup, d': Dedup)
    requires Grows(d, d') && AllSeen(ts, clock, locked, now, maxAge, d)
    ensures AllSeen(ts, clock, locked, now, maxAge, d')
  {
    forall i | 0 <= i < |ts| && LooksStuck(ts[i], locked, now, maxAge) ensures HandledBy(d', ts[i].id, clock(i + 1)) {
      assert HandledBy(d, ts[i].id, clock(i + 1));
      var k :| 0 <= k < |d.log| && d.log[k].id == ts[i].id && clock(i + 1) - DEDUP_TTL < d.log[k].at <= clock(i + 1);
      assert d'.log[k] == d.log[k];
    }
  }

  lemma SeenOneMore(batch: seq<Task>, n: nat, clock: nat -> int, locked: set<string>, now: int, maxAge: int, d: Dedup)
    requires n < |batch| && AllSeen(batch[..n], clock, locked, now, maxAge, d)
    requires LooksStuck(batch[n], locked, now, maxAge) ==> HandledBy(d, batch[n].id, clock(n + 1))
    ensures AllSeen(batch[..n + 1], clock, locked, now, maxAge, d)
  {
    var more := batch[..n + 1];
    forall i | 0 <= i < |more| && LooksStuck(more[i], locked, now, maxAge) ensures HandledBy(d, more[i].id, clock(i + 1)) {
      assert i < n ==> batch[..n][i] == more[i];
    }
  }

  lemma HandledSinceStart(d': Dedup, d: Dedup, start: Dedup, id: string)
    requires Grows(start, d) && HandledSince(d', d, id)
    ensures HandledSince(d', start, id)
  {
  }

  lemma StillTrue(ts: seq<Task>, start: Dedup, d: Dedup, d': Dedup)
    requires Grows(d, d') && AllHandled(ts, start, d)
    ensures AllHandled(ts, start, d')
  {
    forall t | t in ts ensures HandledSince(d', start, t.id) {
      assert HandledSince(d, start, t.id);
      var k :| |start.log| <= k < |d.log| && d.log[k].id == t.id;
      assert d'.log[k] == d.log[k];
    }
  }

  lemma SetNxHandles(d: Dedup, v: Visit, start: Dedup)
    requires Grows(start, d)
    ensures Grows(d, SetNx(d, v)) && v.id in SetNx(d, v).keys
    ensures !Taken(d, v) ==> HandledSince(SetNx(d, v), start, v.id)
  {
    if !Taken(d, v) { assert SetNx(d, v).log[|d.log|].id == v.id; }
  }

  /** id was handled after state d0. */
  ghost predicate HandledSince(d: Dedup, d0: Dedup, id: string) {
    exists i :: |d0.log| <= i < |d.log| && d.log[i].id == id
  }

  lemma {:induction false} VisitsGrow(d: Dedup, vs: seq<Visit>)
    ensures d.log <= RunVisits(d, vs).log && d.keys.Keys <= RunVisits(d, vs).keys.Keys
  {
    if vs != [] { VisitsGrow(d, vs[..|vs| - 1]); }
  }

  /** A task whose execution lease is held when the tick looks is never handled by it. */
  lemma HeldLeaseIsLeftAlone(ttl: int, h: seq<Event>, owner: string, at: int, t: Task, locked: set<string>,
                             now: int, maxAge: int)
    requires InTimeOrder(h) && forall m :: 0 <= m < |h| ==> h[m].at <= at
    requires Live(KeyAfter(ttl, h, |h|), at) <==> t.id in locked
    requires Holds(ttl, h, |h|, owner, at)
    ensures !LooksStuck(t, locked, now, maxAge)
  {
    HoldingIsOwning(ttl, h, |h|, owner, at);
  }

  // ---- The requeue delay ----

  /** Milliseconds before a stuck task may run again. */
  function Backoff(attempt: nat): int { Doubling(10_000, 600_000, attempt) }

  /** The delay stays within [10 s, 600 s], never shrinks, and is at its cap exactly from
      the sixth attempt on. */
  lemma BackoffRange(a: nat, b: nat)
    requires a <= b
    ensures 10_000 <= Backoff(a) <= Backoff(b) <= 600_000
    ensures Backoff(a) == 600_000 <==> a >= 6
  {
    DoublingGrows(10_000, 600_000, a, b);
    assert Pow2(5) == 32 by { assert Pow2(3) == 8; }
    assert Pow2(6) == 64;
    if a >= 6 { Pow2Grows(6, a); } else { Pow2Grows(a, 5); }
  }

  /** The enqueue that requeues a stuck task: tickMs is the clock reading of the tick,
      now the one of the enqueue itself. */
  function Requeue(t: Task, tickMs: int, now: int): Q.Event {
    Q.Enqueue(t.id, t.priority, tickMs + Backoff(t.attempt), now)
  }

  /** End to end: an accepted requeue keeps the task away from every dequeue until the
      tick's reading plus the backoff, unless the id is enqueued again. */
  lemma RequeuedTaskWaits(cfg: Q.Config, q: Q.Queue, t: Task, tickMs: int, now: int, events: seq<Q.Event>, k: nat)
    requires Q.Accepts(cfg, q) && 0 <= Q.Timestamp(tickMs + Backoff(t.attempt), now) < Q.TS_BASE
    requires Q.NeverEnqueues(events, t.id) && k < |events| && events[k].Dequeue?
    requires Q.Chosen(cfg, Q.Run(cfg, Q.Step(cfg, q, Requeue(t, tickMs, now)), events[..k]), events[k].now) == Some(t.id)
    ensures events[k].now >= tickMs + Backoff(t.attempt) >= tickMs + 10_000
    ensures Q.Step(cfg, q, Requeue(t, tickMs, now)).pending[t.id] ==
      t.priority * 10_000_000_000_000 + Q.Timestamp(tickMs + Backoff(t.attempt), now)
  {
    Q.NotBeforeItsTime(cfg, q, Requeue(t, tickMs, now), events, k);
    BackoffRange(t.attempt, t.attempt);
  }
}
