/** The wave scheduler of the DAG engine (src/platform/dag_engine.py, _topo_sort). */
module TopoSort {
  import opened DagModel
  import opened Prelude

  /** A dependency graph: each known step name with its dependency list. */
  type Graph = map<string, seq<string>>

  ghost function GraphOf(steps: seq<DagStep>): Graph {
    if steps == [] then map[]
    else
      var last := steps[|steps| - 1];
      GraphOf(steps[..|steps| - 1])[last.name := last.dependsOn]
  }

  lemma {:induction false} GraphIsStepMap(steps: seq<DagStep>)
    ensures GraphOf(steps).Keys == StepMap(steps).Keys
    ensures forall n :: n in StepMap(steps) ==> GraphOf(steps)[n] == StepMap(steps)[n].dependsOn
  {
    if steps != [] { GraphIsStepMap(steps[..|steps| - 1]); }
  }

  lemma GraphSnoc(steps: seq<DagStep>, i: nat)
    requires DistinctNames(steps) && i < |steps|
    ensures steps[i].name !in GraphOf(steps[..i])
    ensures GraphOf(steps[..i + 1]) == GraphOf(steps[..i])[steps[i].name := steps[i].dependsOn]
  {
    assert steps[..i + 1][..i] == steps[..i];
    GraphIsStepMap(steps[..i]);
  }

  // ---- What a schedule means: chains of dependencies ----

  /** A walk along dependency edges; only its last element may be unknown. */
  ghost predicate IsChain(g: Graph, c: seq<string>) {
    c != [] && forall i :: 0 <= i < |c| - 1 ==> c[i] in g && c[i + 1] in g[c[i]]
  }

  ghost predicate ChainFrom(g: Graph, n: string, c: seq<string>) {
    IsChain(g, c) && c[0] == n
  }

  /** The dependency closure of n is known and free of cycles. */
  ghost predicate Schedulable(g: Graph, n: string) {
    forall c :: ChainFrom(g, n, c) ==> NoRepeats(c) && forall x :: x in c ==> x in g
  }

  /** The longest dependency chain out of n has exactly `len` edges. */
  ghost predicate LongestChain(g: Graph, n: string, len: nat) {
    && (exists c :: ChainFrom(g, n, c) && |c| == len + 1)
    && (forall c :: ChainFrom(g, n, c) ==> |c| <= len + 1)
  }

  /** The promise of the scheduler. */
  ghost predicate CorrectSchedule(g: Graph, waves: seq<seq<string>>) {
    && (forall n :: Schedulable(g, n) <==> exists k :: 0 <= k < |waves| && n in waves[k])
    && (forall k, n :: 0 <= k < |waves| && n in waves[k] ==> LongestChain(g, n, k))
    && (forall k :: 0 <= k < |waves| ==> waves[k] != [] && NoRepeats(waves[k]))
  }

  // ---- Levels: the steps whose dependencies settle within k rounds ----

  ghost function Ready(g: Graph, k: nat): set<string> {
    if k == 0 then {}
    else set n | n in g && forall d :: d in g[n] ==> d in Ready(g, k - 1)
  }

  lemma {:induction false} ReadyGrows(g: Graph, j: nat, k: nat)
    requires j <= k
    ensures Ready(g, j) <= Ready(g, k)
  {
    if j > 0 { ReadyGrows(g, j - 1, k - 1); }
  }

  /** Chains out of a step of level k have at most k nodes, all known, none twice. */
  lemma {:induction false} ReadyBoundsChains(g: Graph, k: nat, c: seq<string>)
    requires IsChain(g, c) && c[0] in Ready(g, k)
    ensures |c| <= k && NoRepeats(c)
    ensures forall i :: 0 <= i < |c| ==> c[i] in g && i < k && c[i] in Ready(g, k - i)
  {
    if |c| > 1 {
      var rest := c[1..];
      assert c[1] in g[c[0]];
      ReadyBoundsChains(g, k - 1, rest);
      assert forall i :: 1 <= i < |c| ==> c[i] == rest[i - 1];
      if exists i :: 1 <= i < |c| && c[i] == c[0] {
        var i :| 1 <= i < |c| && c[i] == c[0];
        CycleImpossible(g, k, c[..i + 1]);
      }
    }
  }

  /** No level contains a step that reaches itself. */
  lemma {:induction false} CycleImpossible(g: Graph, k: nat, c: seq<string>)
    requires IsChain(g, c) && |c| > 1 && c[0] == c[|c| - 1]
    requires c[0] in Ready(g, k)
    ensures false
    decreases k
  {
    ReadyAlong(g, k, c);
    CycleImpossible(g, k - (|c| - 1), c);
  }

  lemma {:induction false} ReadyAlong(g: Graph, k: nat, c: seq<string>)
    requires IsChain(g, c) && c[0] in Ready(g, k)
    ensures |c| <= k && c[|c| - 1] in Ready(g, k - (|c| - 1))
  {
    if |c| > 1 {
      assert c[1] in g[c[0]];
      ReadyAlong(g, k - 1, c[1..]);
    }
  }

  /** A step of level k + 1 but not of level k has a chain of exactly k edges. */
  lemma {:induction false} ReadyHasChain(g: Graph, k: nat, n: string) returns (c: seq<string>)
    requires n in Ready(g, k + 1) && n !in Ready(g, k)
    ensures ChainFrom(g, n, c) && |c| == k + 1
  {
    if k == 0 { return [n]; }
    var d :| d in g[n] && d !in Ready(g, k - 1);
    var rest := ReadyHasChain(g, k - 1, d);
    c := [n] + rest;
    forall i | 0 <= i < |c| - 1
      ensures c[i] in g && c[i + 1] in g[c[i]]
    {
      if i > 0 { assert c[i] == rest[i - 1] && c[i + 1] == rest[i]; }
    }
  }

  /** Outside every level there is always a further dependency outside every level. */
  lemma {:induction false} UnreadyChain(g: Graph, m: nat, n: string, len: nat) returns (c: seq<string>)
    requires Ready(g, m + 1) == Ready(g, m) && n !in Ready(g, m)
    ensures ChainFrom(g, n, c) && (|c| == len + 1 || (|c| <= len && c[|c| - 1] !in g))
    decreases len
  {
    if n !in g || len == 0 { return [n]; }
    var d :| d in g[n] && d !in Ready(g, m);
    var rest := UnreadyChain(g, m, d, len - 1);
    c := [n] + rest;
    forall i | 0 <= i < |c| - 1
      ensures c[i] in g && c[i + 1] in g[c[i]]
    {
      if i > 0 { assert c[i] == rest[i - 1] && c[i + 1] == rest[i]; }
    }
  }

  lemma UnreadyIsUnschedulable(g: Graph, m: nat, n: string)
    requires Ready(g, m + 1) == Ready(g, m) && n !in Ready(g, m)
    ensures !Schedulable(g, n)
  {
    var c := UnreadyChain(g, m, n, |g.Keys|);
    if Schedulable(g, n) {
      assert c[|c| - 1] in c;
      NoRepeatsFits(c, g.Keys);
    }
  }

  lemma ReadyIsSchedulable(g: Graph, k: nat, n: string)
    requires n in Ready(g, k)
    ensures Schedulable(g, n)
  {
    forall c | ChainFrom(g, n, c)
      ensures NoRepeats(c) && forall x :: x in c ==> x in g
    {
      ReadyBoundsChains(g, k, c);
    }
  }

  /** The level waves: wave k holds exactly the steps first ready after k + 1 rounds. */
  ghost predicate LevelWaves(g: Graph, waves: seq<seq<string>>) {
    WavesSoFar(g, waves) && Ready(g, |waves| + 1) == Ready(g, |waves|)
  }

  ghost predicate WavesSoFar(g: Graph, waves: seq<seq<string>>) {
    forall k :: 0 <= k < |waves| ==>
      NoRepeats(waves[k]) && waves[k] != [] && Elements(waves[k]) == Ready(g, k + 1) - Ready(g, k)
  }

  lemma {:induction false} LevelOf(g: Graph, m: nat, n: string) returns (k: nat)
    requires n in Ready(g, m)
    ensures k < m && n in Ready(g, k + 1) && n !in Ready(g, k)
  {
    if n in Ready(g, m - 1) { k := LevelOf(g, m - 1, n); } else { k := m - 1; }
  }

  lemma LevelWavesAreCorrect(g: Graph, waves: seq<seq<string>>)
    requires LevelWaves(g, waves)
    ensures CorrectSchedule(g, waves)
  {
    forall k, n | 0 <= k < |waves| && n in waves[k]
      ensures LongestChain(g, n, k) && Schedulable(g, n)
    {
      assert n in Elements(waves[k]);
      var c := ReadyHasChain(g, k, n);
      forall c | ChainFrom(g, n, c) ensures |c| <= k + 1 { ReadyBoundsChains(g, k + 1, c); }
      ReadyIsSchedulable(g, k + 1, n);
    }
    forall n | Schedulable(g, n)
      ensures exists k :: 0 <= k < |waves| && n in waves[k]
    {
      if n !in Ready(g, |waves|) { UnreadyIsUnschedulable(g, |waves|, n); }
      var k := LevelOf(g, |waves|, n);
      assert n in Elements(waves[k]);
    }
  }

  lemma OneWave(g: Graph, waves: seq<seq<string>>, j: nat, k: nat, n: string)
    requires CorrectSchedule(g, waves) && j < |waves| && k < |waves|
    requires n in waves[j] && n in waves[k]
    ensures j == k
  {
    assert LongestChain(g, n, j) && LongestChain(g, n, k);
    var c :| ChainFrom(g, n, c) && |c| == j + 1;
    var d :| ChainFrom(g, n, d) && |d| == k + 1;
  }

  /** Consequences read off a correct schedule: a step appears in one wave only and
      every dependency sits in a strictly earlier wave. */
  lemma DependenciesComeEarlier(g: Graph, waves: seq<seq<string>>, k: nat, n: string, d: string)
    requires CorrectSchedule(g, waves) && k < |waves| && n in waves[k]
    requires n in g && d in g[n]
    ensures exists j :: 0 <= j < k && d in waves[j]
    ensures forall j :: 0 <= j < |waves| && n in waves[j] ==> j == k
  {
    assert LongestChain(g, n, k);
    forall j | 0 <= j < |waves| && n in waves[j] ensures j == k { OneWave(g, waves, j, k, n); }
    assert Schedulable(g, n);
    forall c | ChainFrom(g, d, c)
      ensures |c| <= k && NoRepeats(c) && forall x :: x in c ==> x in g
    {
      var c' := [n] + c;
      assert forall i :: 0 < i < |c'| ==> c'[i] == c[i - 1];
      assert ChainFrom(g, n, c') by {
        forall i | 0 <= i < |c'| - 1 ensures c'[i] in g && c'[i + 1] in g[c'[i]] {
          if i > 0 { assert c[i - 1] in g && c[i] in g[c[i - 1]]; }
        }
      }
      forall i, j | 0 <= i < j < |c| ensures c[i] != c[j] {
        assert c[i] == c'[i + 1] && c[j] == c'[j + 1];
      }
      assert forall x :: x in c ==> x in c';
    }
    assert Schedulable(g, d);
    var j :| 0 <= j < |waves| && d in waves[j];
    assert LongestChain(g, d, j);
    var c :| ChainFrom(g, d, c) && |c| == j + 1;
  }

  // ---- The algorithm: counting down in-degrees ----

  /** How many entries of a dependency list are still outside `done`. */
  ghost function Remaining(deps: seq<string>, done: set<string>): nat {
    if deps == [] then 0
    else Remaining(deps[..|deps| - 1], done) + if deps[|deps| - 1] in done then 0 else 1
  }

  lemma {:induction false} RemainingZero(deps: seq<string>, done: set<string>)
    ensures Remaining(deps, done) == 0 <==> forall d :: d in deps ==> d in done
  {
    if deps != [] {
      RemainingZero(deps[..|deps| - 1], done);
      assert forall d :: d in deps <==> d in deps[..|deps| - 1] || d == deps[|deps| - 1];
    }
  }

  lemma {:induction false} RemainingDrops(deps: seq<string>, done: set<string>, x: string)
    requires x !in done
    ensures Remaining(deps, done + {x}) == Remaining(deps, done) - multiset(deps)[x]
  {
    if deps != [] {
      RemainingDrops(deps[..|deps| - 1], done, x);
      assert deps == deps[..|deps| - 1] + [deps[|deps| - 1]];
    }
  }

  lemma {:induction false} RemainingNone(deps: seq<string>)
    ensures Remaining(deps, {}) == |deps|
  {
    if deps != [] { RemainingNone(deps[..|deps| - 1]); }
  }

  /** adj lists each dependent once per occurrence in its dependency list. */
  ghost predicate IsAdjacency(g: Graph, adj: map<string, seq<string>>) {
    && adj.Keys == g.Keys
    && (forall d, m :: d in adj && m in g ==> multiset(adj[d])[m] == multiset(g[m])[d])
    && (forall d, m :: d in adj && m in adj[d] ==> m in g)
  }

  /** Each step m is listed under d once per occurrence of d in want[m]. */
  ghost predicate ListsDependents(adj: map<string, seq<string>>, want: Graph) {
    && (forall d, m :: d in adj && m in want ==> multiset(adj[d])[m] == multiset(want[m])[d])
    && (forall d, m :: d in adj && m in adj[d] ==> m in want)
  }

  lemma ListsOneMore(adj: map<string, seq<string>>, want: Graph, name: string, dep: string)
    requires ListsDependents(adj, want) && name in want
    ensures ListsDependents(if dep in adj then adj[dep := adj[dep] + [name]] else adj,
                            want[name := want[name] + [dep]])
  {
    var adj' := if dep in adj then adj[dep := adj[dep] + [name]] else adj;
    var want' := want[name := want[name] + [dep]];
    forall d, m | d in adj' && m in want'
      ensures multiset(adj'[d])[m] == multiset(want'[m])[d]
    {
      assert multiset(adj[d])[m] == multiset(want[m])[d];
    }
  }

  method BuildAdjacency(steps: seq<DagStep>) returns (adj: map<string, seq<string>>)
    requires DistinctNames(steps)
    ensures IsAdjacency(GraphOf(steps), adj)
  {
    adj := map[];
    for i := 0 to |steps|
      invariant adj.Keys == GraphOf(steps[..i]).Keys
      invariant forall d :: d in adj ==> adj[d] == []
    {
      GraphSnoc(steps, i);
      adj := adj[steps[i].name := []];
    }
    assert steps[..|steps|] == steps;
    ghost var names := adj.Keys;
    for i := 0 to |steps|
      invariant adj.Keys == names && ListsDependents(adj, GraphOf(steps[..i]))
    {
      GraphSnoc(steps, i);
      adj := ListStep(adj, steps[i], GraphOf(steps[..i]));
    }
  }

  /** The inner loop: one step joins the list of each of its known dependencies. */
  method ListStep(adj: map<string, seq<string>>, step: DagStep, ghost seen: Graph)
    returns (adj': map<string, seq<string>>)
    requires ListsDependents(adj, seen) && step.name !in seen
    ensures adj'.Keys == adj.Keys && ListsDependents(adj', seen[step.name := step.dependsOn])
  {
    adj' := adj;
    var deps := step.dependsOn;
    ghost var want := seen[step.name := []];
    for j := 0 to |deps|
      invariant adj'.Keys == adj.Keys && ListsDependents(adj', want)
      invariant want == seen[step.name := deps[..j]]
    {
      ListsOneMore(adj', want, step.name, deps[j]);
      assert deps[..j + 1] == deps[..j] + [deps[j]];
      if deps[j] in adj' {
        adj' := adj'[deps[j] := adj'[deps[j]] + [step.name]];
      }
      want := want[step.name := want[step.name] + [deps[j]]];
    }
    assert deps[..|deps|] == deps;
  }

  /** Every in-degree counts the dependencies that are not processed yet. */
  ghost predicate Counts(g: Graph, inDegree: map<string, int>, done: set<string>) {
    inDegree.Keys == g.Keys && forall m :: m in g ==> inDegree[m] == Remaining(g[m], done)
  }

  /** next' extends next by the keys whose count reached zero, each once. */
  ghost predicate Collected(before: map<string, int>, after: map<string, int>, next: seq<string>, next': seq<string>)
    requires before.Keys == after.Keys
  {
    && NoRepeats(next')
    && forall m :: m in next' <==> m in next || (m in before && before[m] != 0 && after[m] == 0)
  }

  lemma CollectOne(before: map<string, int>, mid: map<string, int>, next: seq<string>, next': seq<string>, nbr: string)
    requires before.Keys == mid.Keys && Collected(before, mid, next, next')
    requires forall m :: m in next ==> m in before && before[m] == 0
    requires forall m :: m in before ==> mid[m] <= before[m]
    requires nbr in mid && mid[nbr] >= 1
    ensures Collected(before, mid[nbr := mid[nbr] - 1], next, if mid[nbr] == 1 then next' + [nbr] else next')
  {
    NoRepeatsSnoc(next', nbr);
  }

  /** The decrement loop over one adjacency list. */
  method Decrement(nbrs: seq<string>, inDegree: map<string, int>, next: seq<string>)
    returns (inDegree': map<string, int>, next': seq<string>)
    requires NoRepeats(next) && forall m :: m in next ==> m in inDegree && inDegree[m] == 0
    requires forall m :: m in nbrs ==> m in inDegree
    requires forall m :: m in inDegree ==> multiset(nbrs)[m] <= inDegree[m]
    ensures inDegree'.Keys == inDegree.Keys
    ensures forall m :: m in inDegree ==> inDegree'[m] == inDegree[m] - multiset(nbrs)[m]
    ensures Collected(inDegree, inDegree', next, next')
  {
    inDegree', next' := inDegree, next;
    ghost var taken: multiset<string> := multiset{};
    for j := 0 to |nbrs|
      invariant taken == multiset(nbrs[..j]) && inDegree'.Keys == inDegree.Keys
      invariant forall m :: m in inDegree ==> inDegree'[m] == inDegree[m] - taken[m]
      invariant Collected(inDegree, inDegree', next, next')
    {
      var nbr := nbrs[j];
      MultisetSnoc(nbrs, j);
      assert (taken + multiset{nbr})[nbr] <= inDegree[nbr];
      CollectOne(inDegree, inDegree', next, next', nbr);
      taken := taken + multiset{nbr};
      inDegree' := inDegree'[nbr := inDegree'[nbr] - 1];
      if inDegree'[nbr] == 0 {
        next' := next' + [nbr];
      }
    }
    assert nbrs[..|nbrs|] == nbrs;
  }

  /** Releasing the dependents of one node moves that node into the processed set. */
  lemma CountsAfter(g: Graph, adj: map<string, seq<string>>, sn: string, done: set<string>,
                    inDegree: map<string, int>)
    requires IsAdjacency(g, adj) && Counts(g, inDegree, done) && sn in g && sn !in done
    ensures forall m :: m in g ==>
      multiset(adj[sn])[m] <= inDegree[m] && Remaining(g[m], done + {sn}) == inDegree[m] - multiset(adj[sn])[m]
  {
    forall m | m in g
      ensures Remaining(g[m], done + {sn}) == inDegree[m] - multiset(adj[sn])[m]
    {
      RemainingDrops(g[m], done, sn);
    }
  }

  /** Processed nodes have count zero, and the queue holds the other nodes of count zero. */
  ghost predicate QueueOf(inDegree: map<string, int>, done: set<string>, queue: seq<string>) {
    && NoRepeats(queue)
    && (forall m :: m in done ==> m in inDegree && inDegree[m] == 0)
    && (forall m :: m in queue <==> m in inDegree && inDegree[m] == 0 && m !in done)
  }

  method InDegreeTable(steps: seq<DagStep>) returns (inDegree: map<string, int>)
    requires DistinctNames(steps)
    ensures Counts(GraphOf(steps), inDegree, {})
  {
    inDegree := map[];
    for i := 0 to |steps|
      invariant Counts(GraphOf(steps[..i]), inDegree, {})
    {
      GraphSnoc(steps, i);
      RemainingNone(steps[i].dependsOn);
      inDegree := inDegree[steps[i].name := |steps[i].dependsOn|];
    }
    assert steps[..|steps|] == steps;
  }

  /** The steps without dependencies, in list order. */
  method FirstQueue(steps: seq<DagStep>, inDegree: map<string, int>) returns (queue: seq<string>)
    requires DistinctNames(steps) && inDegree.Keys == GraphOf(steps).Keys
    ensures QueueOf(inDegree, {}, queue)
  {
    queue := [];
    GraphIsStepMap(steps);
    for i := 0 to |steps|
      invariant NoRepeats(queue)
      invariant forall m :: m in queue <==> m in GraphOf(steps[..i]) && m in inDegree && inDegree[m] == 0
    {
      GraphSnoc(steps, i);
      assert steps[i] in steps;
      if inDegree[steps[i].name] == 0 {
        NoRepeatsSnoc(queue, steps[i].name);
        queue := queue + [steps[i].name];
      }
    }
    assert steps[..|steps|] == steps;
  }

  /** Counting against level k, the zero counts are level k + 1. */
  lemma ZeroCounts(g: Graph, k: nat, inDegree: map<string, int>)
    requires Counts(g, inDegree, Ready(g, k))
    ensures forall m :: m in g ==> (inDegree[m] == 0 <==> m in Ready(g, k + 1))
    ensures Ready(g, k) <= Ready(g, k + 1) <= g.Keys
  {
    forall m | m in g ensures inDegree[m] == 0 <==> m in Ready(g, k + 1) {
      RemainingZero(g[m], Ready(g, k));
    }
    ReadyGrows(g, k, k + 1);
  }

  lemma WavesSnoc(g: Graph, waves: seq<seq<string>>, queue: seq<string>)
    requires WavesSoFar(g, waves) && NoRepeats(queue) && queue != []
    requires Elements(queue) == Ready(g, |waves| + 1) - Ready(g, |waves|)
    ensures WavesSoFar(g, waves + [queue])
  {
  }

  lemma QueueIsLevel(g: Graph, k: nat, inDegree: map<string, int>, queue: seq<string>)
    requires Counts(g, inDegree, Ready(g, k)) && QueueOf(inDegree, Ready(g, k), queue)
    ensures Elements(queue) == Ready(g, k + 1) - Ready(g, k)
    ensures Ready(g, k) + Elements(queue) == Ready(g, k + 1) <= g.Keys
  {
    ZeroCounts(g, k, inDegree);
  }

  /** What one decrement round over adj[sn] keeps true of the counts and the queue. */
  lemma AfterNode(g: Graph, adj: map<string, seq<string>>, sn: string, now: set<string>, all: set<string>,
                  before: map<string, int>, after: map<string, int>, next: seq<string>, next': seq<string>)
    requires IsAdjacency(g, adj) && Counts(g, before, now) && sn in g && sn !in now
    requires QueueOf(before, all, next)
    requires after.Keys == before.Keys && Collected(before, after, next, next')
    requires forall m :: m in before ==> after[m] == before[m] - multiset(adj[sn])[m]
    ensures Counts(g, after, now + {sn}) && QueueOf(after, all, next')
  {
    CountsAfter(g, adj, sn, now, before);
  }

  method TopoSort(steps: seq<DagStep>) returns (waves: seq<seq<string>>)
    requires DistinctNames(steps)
    ensures LevelWaves(GraphOf(steps), waves)
    ensures CorrectSchedule(GraphOf(steps), waves)
  {
    ghost var g := GraphOf(steps);
    var inDegree := InDegreeTable(steps);
    var queue := FirstQueue(steps, inDegree);
    var adj := BuildAdjacency(steps);
    waves := [];
    ghost var done := {};
    while queue != []
      invariant WavesSoFar(g, waves) && done == Ready(g, |waves|)
      invariant Counts(g, inDegree, done) && QueueOf(inDegree, done, queue)
      decreases g.Keys - done
    {
      QueueIsLevel(g, |waves|, inDegree, queue);
      WavesSnoc(g, waves, queue);
      ghost var done' := done + Elements(queue);
      assert g.Keys - done' < g.Keys - done by { assert queue[0] in done' - done; }
      waves := waves + [queue];
      inDegree, queue := RunWave(g, adj, queue, inDegree, done);
      done := done';
    }
    QueueIsLevel(g, |waves|, inDegree, queue);
    LevelWavesAreCorrect(g, waves);
  }

  /** One round: the whole queue is processed, and what it released becomes the next queue. */
  method RunWave(ghost g: Graph, adj: map<string, seq<string>>, queue: seq<string>,
                 inDegree: map<string, int>, ghost done: set<string>)
    returns (inDegree': map<string, int>, next: seq<string>)
    requires IsAdjacency(g, adj) && Counts(g, inDegree, done) && QueueOf(inDegree, done, queue)
    ensures Counts(g, inDegree', done + Elements(queue))
    ensures QueueOf(inDegree', done + Elements(queue), next)
  {
    inDegree', next := inDegree, [];
    ghost var all := done + Elements(queue);
    assert Processed(done, queue, 0) == done;
    for i := 0 to |queue|
      invariant Counts(g, inDegree', Processed(done, queue, i)) && QueueOf(inDegree', all, next)
    {
      ghost var before, next0, now := inDegree', next, Processed(done, queue, i);
      NextUnprocessed(inDegree, done, queue, i);
      CountsAfter(g, adj, queue[i], now, inDegree');
      inDegree', next := Decrement(adj[queue[i]], inDegree', next);
      AfterNode(g, adj, queue[i], now, all, before, inDegree', next0, next);
    }
    assert queue[..|queue|] == queue;
  }

  /** The processed set once the first i nodes of the queue are done. */
  ghost function Processed(done: set<string>, queue: seq<string>, i: nat): set<string>
    requires i <= |queue|
  {
    done + Elements(queue[..i])
  }

  lemma NextUnprocessed(inDegree: map<string, int>, done: set<string>, queue: seq<string>, i: nat)
    requires QueueOf(inDegree, done, queue) && i < |queue|
    ensures queue[i] in inDegree && queue[i] !in Processed(done, queue, i)
    ensures Processed(done, queue, i + 1) == Processed(done, queue, i) + {queue[i]}
  {
    ElementsSnoc(queue, i);
  }
}
