/** The queue as the object the manager updates in place (src/platform/queue_manager.py). */
module QueueManager {
  import opened Prelude
  import opened SortedSets
  import opened QueueModel

  /** What a caller of enqueue sees: the open circuit breaker raises. */
  datatype EnqueueReply = Accepted(position: nat, pendingCount: nat) | Full(pendingCount: nat) | BreakerOpen

  /** The candidate loop of the dequeue script. */
  method ScanForDue(q: Queue, candidates: seq<string>, now: int) returns (r: Option<string>)
    ensures r == FirstDue(q, candidates, now)
  {
    for i := 0 to |candidates|
      invariant FirstDue(q, candidates, now) == FirstDue(q, candidates[i..], now)
    {
      assert candidates[i..][1..] == candidates[i + 1..];
      var tid := candidates[i];
      if tid in q.pending && q.pending[tid] % TS_BASE <= now { return Some(tid); }
    }
    r := None;
  }

  /** The pipeline that removes the stale members one by one. */
  method RemoveEach(z: ZSet, stale: set<string>) returns (z': ZSet)
    ensures z' == z - stale
  {
    z' := z;
    var todo, gone := stale, {};
    while todo != {}
      invariant todo !! gone && todo + gone == stale && z' == z - gone
    {
      var id :| id in todo;
      z' := z' - {id};
      todo, gone := todo - {id}, gone + {id};
    }
  }

  class QueueManager {
    const cfg: Config
    var pending: ZSet
    var running: ZSet
    var enqueued: nat
    var dequeued: nat
    var completed: nat
    var failed: nat
    var maxDepth: Option<int>
    var maxConcurrent: Option<int>
    var baseline: Option<int>

    ghost function View(): Queue reads this {
      Queue(pending, running, enqueued, dequeued, completed, failed, maxDepth, maxConcurrent, baseline)
    }

    constructor (cfg: Config, maxDepth: Option<int>, baseline: Option<int>)
      ensures this.cfg == cfg && Empty(View()) && this.maxDepth == maxDepth && this.baseline == baseline
    {
      this.cfg := cfg;
      pending, running, enqueued, dequeued, completed, failed := map[], map[], 0, 0, 0, 0;
      this.maxDepth, maxConcurrent, this.baseline := maxDepth, None, baseline;
    }

    method Enqueue(id: string, priority: int, executeAfter: int, now: int, allowed: bool) returns (r: EnqueueReply)
      modifies this
      ensures View() == if allowed then Step(cfg, old(View()), Event.Enqueue(id, priority, executeAfter, now)) else old(View())
      ensures r.BreakerOpen? <==> !allowed
      ensures r.Accepted? <==> allowed && Accepts(cfg, old(View()))
      ensures r.Accepted? ==> r.position == |old(pending)| + 1 && r.pendingCount == |pending|
      ensures r.Full? ==> r.pendingCount == |old(pending)|
    {
      if !allowed { return BreakerOpen; }
      var ts := if executeAfter > now then executeAfter else now;
      var limit := match maxDepth case Some(d) => d case None => cfg.defaultDepth;
      if limit <= 0 { limit := cfg.defaultDepth; }
      var cur := |pending|;
      if cur >= limit { return Full(cur); }
      pending := pending[id := Pack(priority, ts)];
      enqueued := enqueued + 1;
      r := Accepted(cur + 1, |pending|);
    }

    /** The scan moves the first candidate whose time has come to running. */
    method DequeueReady(now: int, allowed: bool) returns (r: Option<string>)
      modifies this
      ensures r == if allowed then Chosen(cfg, old(View()), now) else None
      ensures View() == if allowed then Step(cfg, old(View()), Event.Dequeue(now)) else old(View())
    {
      if !allowed { return None; }
      var limit := match maxConcurrent case Some(m) => m case None => cfg.defaultConcurrent;
      if limit <= 0 { limit := cfg.defaultConcurrent; }
      if |running| >= limit { return None; }
      var q := Queue(pending, running, enqueued, dequeued, completed, failed, maxDepth, maxConcurrent, baseline);
      r := ScanForDue(q, Scan(cfg, q), now);
      if r.Some? {
        pending := pending - {r.value};
        running := running[r.value := now];
        dequeued := dequeued + 1;
      }
    }

    method Cancel(id: string) returns (removed: bool)
      modifies this
      ensures View() == Step(cfg, old(View()), Event.Cancel(id))
      ensures removed <==> id in old(pending) || id in old(running)
    {
      if id in pending {
        pending := pending - {id};
        return true;
      }
      removed := id in running;
      running := running - {id};
    }

    method Complete(id: string)
      modifies this`running, this`completed
      ensures View() == Step(cfg, old(View()), Event.Complete(id))
    {
      running := running - {id};
      completed := completed + 1;
    }

    method Fail(id: string)
      modifies this`running, this`failed
      ensures View() == Step(cfg, old(View()), Event.FailTask(id))
    {
      running := running - {id};
      failed := failed + 1;
    }

    /** Other clients run these operations. */
    method Interfere(events: seq<Event>)
      modifies this
      ensures View() == Run(cfg, old(View()), events)
    {
      var q := Queue(pending, running, enqueued, dequeued, completed, failed, maxDepth, maxConcurrent, baseline);
      q := Run(cfg, q, events);
      pending, running, enqueued, dequeued := q.pending, q.running, q.enqueued, q.dequeued;
      completed, failed := q.completed, q.failed;
      maxDepth, maxConcurrent, baseline := q.maxDepth, q.maxConcurrent, q.baseline;
    }

    /** Queries the stale entries, then removes them one by one and reports how many the
        query found; `between` is what other clients do in the meantime. */
    method CleanupStaleRunning(cutoff: int, between: seq<Event>) returns (removed: nat)
      modifies this
      ensures removed == |Stale(old(View()), cutoff)|
      ensures View() == if removed == 0 then old(View())
                        else Step(cfg, Run(cfg, old(View()), between), Sweep(Stale(old(View()), cutoff)))
    {
      var stale := set id | id in running && running[id] <= cutoff;
      if stale == {} { return 0; }
      Interfere(between);
      running := RemoveEach(running, stale);
      removed := |stale|;
    }

    method AdjustConcurrent(delta: int) returns (limit: int)
      modifies this`maxConcurrent
      ensures View() == Step(cfg, old(View()), Event.Adjust(delta))
      ensures limit == ConcurrencyLimit(cfg, View()) >= 1
    {
      var cur := match maxConcurrent case Some(m) => m case None => cfg.defaultConcurrent;
      limit := if 1 > cur + delta then 1 else cur + delta;
      maxConcurrent := Some(limit);
    }

    method TryRecoverConcurrent() returns (limit: int)
      modifies this`maxConcurrent
      ensures View() == Step(cfg, old(View()), Event.Recover)
      ensures maxConcurrent.Some? ==> limit == maxConcurrent.value
      ensures maxConcurrent.None? ==> limit == match baseline case Some(b) => b case None => cfg.defaultConcurrent
    {
      var base := match baseline case Some(b) => b case None => cfg.defaultConcurrent;
      var cur := match maxConcurrent case Some(m) => m case None => base;
      if cur < base {
        maxConcurrent := Some(cur + 1);
        return cur + 1;
      }
      limit := cur;
    }
  }
}
