/** Greedy GPU node selection (src/platform/node_registry.py, select_nodes). */
module NodeSelection {

  /** What selection reads of a node: its state and its effective GPU count. */
  datatype Node = Node(id: string, state: string, gpus: int)

  predicate Eligible(n: Node) { n.state == "idle" && n.gpus > 0 }

  function Idle(nodes: seq<Node>): seq<Node> {
    if nodes == [] then []
    else (if Eligible(nodes[0]) then [nodes[0]] else []) + Idle(nodes[1..])
  }

  function Gpus(nodes: seq<Node>): int {
    if nodes == [] then 0 else Gpus(nodes[..|nodes| - 1]) + nodes[|nodes| - 1].gpus
  }

  ghost predicate Descending(s: seq<Node>) {
    forall i, j :: 0 <= i < j < |s| ==> s[i].gpus >= s[j].gpus
  }

  // ---- Sorting, as list.sort(key=gpus, reverse=True) does: descending and stable ----

  function Insert(s: seq<Node>, n: Node): seq<Node> {
    if s == [] || s[|s| - 1].gpus >= n.gpus then s + [n]
    else Insert(s[..|s| - 1], n) + [s[|s| - 1]]
  }

  function SortByGpus(s: seq<Node>): seq<Node> {
    if s == [] then [] else Insert(SortByGpus(s[..|s| - 1]), s[|s| - 1])
  }

  lemma {:induction false} InsertAdds(s: seq<Node>, n: Node)
    ensures multiset(Insert(s, n)) == multiset(s) + multiset{n}
  {
    if s != [] && s[|s| - 1].gpus < n.gpus {
      InsertAdds(s[..|s| - 1], n);
      assert s == s[..|s| - 1] + [s[|s| - 1]];
    }
  }

  lemma {:induction false} InsertSorts(s: seq<Node>, n: Node)
    requires Descending(s)
    ensures Descending(Insert(s, n)) && forall x :: x in Insert(s, n) <==> x in s || x == n
  {
    if s != [] && s[|s| - 1].gpus < n.gpus {
      var init, last := s[..|s| - 1], s[|s| - 1];
      InsertSorts(init, n);
      assert s == init + [last];
      var r := Insert(init, n);
      forall i | 0 <= i < |r| ensures r[i].gpus >= last.gpus { assert r[i] in r; }
    }
  }

  lemma {:induction false} SortSorts(s: seq<Node>)
    ensures Descending(SortByGpus(s)) && multiset(SortByGpus(s)) == multiset(s)
  {
    if s != [] {
      SortSorts(s[..|s| - 1]);
      InsertSorts(SortByGpus(s[..|s| - 1]), s[|s| - 1]);
      InsertAdds(SortByGpus(s[..|s| - 1]), s[|s| - 1]);
      assert s == s[..|s| - 1] + [s[|s| - 1]];
    }
  }

  lemma {:induction false} IdleIsEligible(nodes: seq<Node>)
    ensures forall n :: n in Idle(nodes) ==> Eligible(n)
  {
    if nodes != [] { IdleIsEligible(nodes[1..]); }
  }

  /** The filter keeps every eligible node, as often as it is listed. */
  lemma {:induction false} IdleKeepsEligible(nodes: seq<Node>, n: Node)
    ensures multiset(Idle(nodes))[n] == if n.state == "idle" && n.gpus > 0 then multiset(nodes)[n] else 0
  {
    if nodes != [] {
      IdleKeepsEligible(nodes[1..], n);
      assert nodes == [nodes[0]] + nodes[1..];
    }
  }

  // ---- The exchange argument ----

  lemma {:induction false} GpusCons(n: Node, s: seq<Node>)
    ensures Gpus([n] + s) == n.gpus + Gpus(s)
  {
    if s == [] {
      assert [n] + s == [n] && [n][..0] == [];
      assert Gpus([n]) == Gpus([n][..0]) + n.gpus;
    } else {
      GpusCons(n, s[..|s| - 1]);
      assert ([n] + s)[..|s|] == [n] + s[..|s| - 1];
    }
  }

  function Without(s: seq<Node>, i: nat): seq<Node>
    requires i < |s|
  {
    s[..i] + s[i + 1..]
  }

  lemma GpusRemove(s: seq<Node>, i: nat)
    requires i < |s|
    ensures Gpus(s) == s[i].gpus + Gpus(Without(s, i))
    ensures multiset(s) == multiset(Without(s, i)) + multiset{s[i]}
  {
    GpusMiddle(s[..i], s[i], s[i + 1..]);
    SplitAt(s, i);
  }

  lemma SplitAt(s: seq<Node>, i: nat)
    requires i < |s|
    ensures s == s[..i] + [s[i]] + s[i + 1..]
    ensures multiset(s) == multiset(Without(s, i)) + multiset{s[i]}
  {
    var a, b := s[..i], s[i + 1..];
    assert s == a + [s[i]] + b;
    assert multiset(a + [s[i]] + b) == multiset(a) + multiset{s[i]} + multiset(b);
    assert multiset(a + b) == multiset(a) + multiset(b);
  }

  lemma {:induction false} GpusMiddle(a: seq<Node>, n: Node, b: seq<Node>)
    ensures Gpus(a + [n] + b) == n.gpus + Gpus(a + b)
  {
    if a == [] {
      assert a + [n] + b == [n] + b && a + b == b;
      GpusCons(n, b);
    } else {
      GpusMiddle(a[1..], n, b);
      assert a + [n] + b == [a[0]] + (a[1..] + [n] + b);
      assert a + b == [a[0]] + (a[1..] + b);
      GpusCons(a[0], a[1..] + [n] + b);
      GpusCons(a[0], a[1..] + b);
    }
  }

  /** Dropping one element of t, the head of s if t has it, leaves t inside the tail. */
  lemma DropKeepsInside(s: seq<Node>, t: seq<Node>, i: nat)
    requires s != [] && i < |t| && multiset(t) <= multiset(s)
    requires s[0] in t ==> t[i] == s[0]
    ensures multiset(Without(t, i)) <= multiset(s[1..])
  {
    GpusRemove(t, i);
    assert s == [s[0]] + s[1..];
    var rest, tail := multiset(Without(t, i)), multiset(s[1..]);
    assert multiset(s) == multiset{s[0]} + tail;
    forall x ensures rest[x] <= tail[x] {
      assert multiset(t)[x] <= multiset(s)[x];
    }
  }

  lemma SizesFit(s: seq<Node>, t: seq<Node>)
    requires multiset(t) <= multiset(s)
    ensures |t| <= |s| && forall x :: x in t ==> x in s
  {
    assert multiset(s) == multiset(t) + (multiset(s) - multiset(t));
    assert |multiset(s)| == |multiset(t)| + |multiset(s) - multiset(t)|;
    forall x | x in t ensures x in s { assert x in multiset(t) && x in multiset(s); }
  }

  /** No k nodes have more GPUs than the first k in descending order. */
  lemma {:induction false} FirstAreBest(s: seq<Node>, t: seq<Node>)
    requires Descending(s) && multiset(t) <= multiset(s)
    ensures |t| <= |s| && Gpus(t) <= Gpus(s[..|t|])
    decreases |s|
  {
    SizesFit(s, t);
    if t != [] {
      var i := if s[0] in t then (var i :| 0 <= i < |t| && t[i] == s[0]; i) else 0;
      assert t[i] in s && t[i].gpus <= s[0].gpus;
      DropKeepsInside(s, t, i);
      GpusRemove(t, i);
      FirstAreBest(s[1..], Without(t, i));
      assert s[..|t|] == [s[0]] + s[1..][..|t| - 1];
      GpusCons(s[0], s[1..][..|t| - 1]);
    }
  }

  lemma {:induction false} GpusGrow(s: seq<Node>, k: nat)
    requires k <= |s| && forall n :: n in s ==> n.gpus > 0
    ensures Gpus(s[..k]) <= Gpus(s)
  {
    if k == |s| {
      assert s[..k] == s;
    } else {
      GpusGrow(s[..|s| - 1], k);
      assert s[..|s| - 1][..k] == s[..k];
    }
  }

  /** Fewer than k of these nodes never have `required` GPUs. */
  ghost predicate FewerNeverSuffice(idle: seq<Node>, required: int, k: nat) {
    forall t: seq<Node> :: multiset(t) <= multiset(idle) && |t| < k ==> Gpus(t) < required
  }

  /** A selection for a requirement: enough if enough exists, and as few nodes as possible. */
  ghost predicate Optimal(idle: seq<Node>, required: int, selected: seq<Node>) {
    && multiset(selected) <= multiset(idle)
    && (Gpus(idle) >= required ==>
          && Gpus(selected) >= required
          && (selected != [] ==> Gpus(selected[..|selected| - 1]) < required)
          && FewerNeverSuffice(idle, required, |selected|))
    && (Gpus(idle) < required ==> multiset(selected) == multiset(idle))
  }

  /** The loop: take nodes in order until they suffice. */
  method TakeUntilEnough(idle: seq<Node>, required: int) returns (selected: seq<Node>)
    ensures selected <= idle
    ensures Gpus(selected) >= required || |selected| == |idle|
    ensures selected != [] ==> Gpus(selected[..|selected| - 1]) < required && required > 0
  {
    selected := [];
    var total := 0;
    for i := 0 to |idle|
      invariant selected == idle[..i] && total == Gpus(selected)
      invariant selected != [] ==> Gpus(selected[..|selected| - 1]) < required && required > 0
    {
      if total >= required { break; }
      selected := selected + [idle[i]];
      assert selected[..i] == idle[..i];
      total := total + idle[i].gpus;
    }
  }

  method SelectNodes(nodes: seq<Node>, required: int) returns (selected: seq<Node>)
    ensures Optimal(Idle(nodes), required, selected)
    ensures Descending(selected)
    ensures required <= 0 ==> selected == []
  {
    var idle := Idle(nodes);
    var sorted := SortByGpus(idle);
    SortSorts(idle);
    IdleIsEligible(nodes);
    selected := TakeUntilEnough(sorted, required);
    PrefixIs(sorted, selected);
    GreedyIsOptimal(idle, sorted, required, |selected|);
  }

  lemma {:induction false} SameGpus(a: seq<Node>, b: seq<Node>)
    requires multiset(a) == multiset(b)
    ensures Gpus(a) == Gpus(b)
  {
    if a == [] {
      assert |multiset(b)| == 0;
    } else {
      assert a[0] in multiset(b);
      var i :| 0 <= i < |b| && b[i] == a[0];
      GpusRemove(a, 0);
      GpusRemove(b, i);
      assert multiset(Without(a, 0)) == multiset(a) - multiset{a[0]};
      assert multiset(Without(b, i)) == multiset(b) - multiset{a[0]};
      SameGpus(Without(a, 0), Without(b, i));
    }
  }

  /** With fewer nodes than a prefix that just suffices, nothing suffices. */
  lemma FewerMiss(sorted: seq<Node>, required: int, i: nat, t: seq<Node>)
    requires Descending(sorted) && 0 < i <= |sorted| && Gpus(sorted[..i - 1]) < required
    requires forall n :: n in sorted ==> n.gpus > 0
    requires multiset(t) <= multiset(sorted) && |t| < i
    ensures Gpus(t) < required
  {
    FirstAreBest(sorted, t);
    GpusGrow(sorted[..i - 1], |t|);
    assert sorted[..i - 1][..|t|] == sorted[..|t|];
  }

  /** Stopping the descending order at the first sufficient prefix is optimal. */
  lemma GreedyIsOptimal(idle: seq<Node>, sorted: seq<Node>, required: int, i: nat)
    requires Descending(sorted) && multiset(sorted) == multiset(idle) && i <= |sorted|
    requires forall n :: n in idle ==> n.gpus > 0
    requires i > 0 ==> Gpus(sorted[..i - 1]) < required
    requires Gpus(sorted[..i]) >= required || i == |sorted|
    ensures Optimal(idle, required, sorted[..i])
  {
    SizesFit(idle, sorted);
    SameGpus(sorted, idle);
    GpusGrow(sorted, i);
    PrefixFacts(sorted, i);
    if i > 0 { NoneSmaller(idle, sorted, required, i); }
  }

  lemma PrefixIs(sorted: seq<Node>, selected: seq<Node>)
    requires selected <= sorted
    ensures selected == sorted[..|selected|]
    ensures selected != [] ==> selected[..|selected| - 1] == sorted[..|selected| - 1]
    ensures Descending(sorted) ==> Descending(selected)
  {
  }

  lemma PrefixFacts(sorted: seq<Node>, i: nat)
    requires i <= |sorted|
    ensures multiset(sorted[..i]) <= multiset(sorted)
    ensures i == |sorted| ==> sorted[..i] == sorted
    ensures i > 0 ==> sorted[..i][..i - 1] == sorted[..i - 1]
  {
    assert sorted == sorted[..i] + sorted[i..];
  }

  lemma NoneSmaller(idle: seq<Node>, sorted: seq<Node>, required: int, i: nat)
    requires Descending(sorted) && multiset(sorted) == multiset(idle) && 0 < i <= |sorted|
    requires forall n :: n in sorted ==> n.gpus > 0
    requires Gpus(sorted[..i - 1]) < required
    ensures FewerNeverSuffice(idle, required, i)
  {
    forall t: seq<Node> | multiset(t) <= multiset(idle) && |t| < i ensures Gpus(t) < required {
      FewerMiss(sorted, required, i, t);
    }
  }
}
