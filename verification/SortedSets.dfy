/** Redis sorted sets: members ordered by (score, member). */
module SortedSets {
  import opened Prelude

  type ZSet = map<string, int>

  predicate Before(z: ZSet, a: string, b: string)
    requires a in z && b in z
  {
    z[a] < z[b] || (z[a] == z[b] && StrLess(a, b))
  }

  lemma BeforeTotal(z: ZSet, a: string, b: string)
    requires a in z && b in z
    ensures Before(z, a, b) || a == b || Before(z, b, a)
    ensures !(Before(z, a, b) && Before(z, b, a)) && !Before(z, a, a)
  {
    StrLessTotal(a, b);
    StrLessTotal(a, a);
  }

  lemma BeforeTransitive(z: ZSet, a: string, b: string, c: string)
    requires a in z && b in z && c in z && Before(z, a, b) && Before(z, b, c)
    ensures Before(z, a, c)
  {
    if StrLess(a, b) && StrLess(b, c) { StrLessTransitive(a, b, c); }
  }

  predicate IsFirst(z: ZSet, a: string)
    requires a in z
  {
    forall b :: b in z && b != a ==> Before(z, a, b)
  }

  lemma {:induction false} HasFirst(z: ZSet) returns (a: string)
    requires z != map[]
    ensures a in z && IsFirst(z, a)
    decreases |z|
  {
    var x :| x in z;
    var rest := z - {x};
    if rest == map[] {
      assert forall b :: b in z ==> b == x by {
        forall b | b in z && b != x ensures b in rest {}
      }
      return x;
    }
    var m := HasFirst(rest);
    BeforeTotal(z, x, m);
    a := if Before(z, x, m) then x else m;
    forall b | b in z && b != a ensures Before(z, a, b) {
      if a == x && b != m {
        assert Before(rest, m, b);
        BeforeTransitive(z, x, m, b);
      } else if a != x && b != x {
        assert Before(rest, m, b);
      }
    }
  }

  lemma FirstIsUnique(z: ZSet)
    requires z != map[]
    ensures exists a :: a in z && IsFirst(z, a)
    ensures forall a, b :: a in z && b in z && IsFirst(z, a) && IsFirst(z, b) ==> a == b
  {
    var x := HasFirst(z);
    forall a, b | a in z && b in z && IsFirst(z, a) && IsFirst(z, b) ensures a == b {
      BeforeTotal(z, a, b);
    }
  }

  function First(z: ZSet): (a: string)
    requires z != map[]
    ensures a in z && IsFirst(z, a)
  {
    FirstIsUnique(z);
    var a :| a in z && IsFirst(z, a); a
  }

  /** ZRANGE over the whole set: all members in order. */
  function Ranked(z: ZSet): seq<string>
    decreases |z|
  {
    if z == map[] then []
    else
      var a := First(z);
      assert |z - {a}| < |z| by { assert (z - {a}).Keys == z.Keys - {a}; }
      [a] + Ranked(z - {a})
  }

  lemma {:induction false} RankedHas(z: ZSet)
    ensures |Ranked(z)| == |z| && forall x :: x in Ranked(z) <==> x in z
    decreases |z|
  {
    if z != map[] {
      var rest := z - {First(z)};
      assert rest.Keys == z.Keys - {First(z)};
      RankedHas(rest);
    }
  }

  lemma RankedSplits(z: ZSet)
    requires z != map[]
    ensures Ranked(z) == [First(z)] + Ranked(z - {First(z)})
    ensures forall x :: x in z - {First(z)} ==> x in z && (z - {First(z)})[x] == z[x] && Before(z, First(z), x)
  {
  }

  lemma {:induction false} RankedInOrder(z: ZSet, i: nat, j: nat)
    requires i < j < |Ranked(z)|
    ensures Ranked(z)[i] in z && Ranked(z)[j] in z && Before(z, Ranked(z)[i], Ranked(z)[j])
    decreases j
  {
    var rest := z - {First(z)};
    RankedSplits(z);
    RankedHas(rest);
    assert Ranked(rest)[j - 1] in rest;
    if i > 0 { RankedInOrder(rest, i - 1, j - 1); }
  }

  /** The ranking lists exactly the members, in order. */
  lemma RankedLists(z: ZSet)
    ensures |Ranked(z)| == |z|
    ensures forall x :: x in Ranked(z) <==> x in z
    ensures forall i, j :: 0 <= i < j < |Ranked(z)| ==> Before(z, Ranked(z)[i], Ranked(z)[j])
  {
    RankedHas(z);
    forall i, j | 0 <= i < j < |Ranked(z)| ensures Before(z, Ranked(z)[i], Ranked(z)[j]) {
      RankedInOrder(z, i, j);
    }
  }

  /** How many members come before a. */
  ghost function Rank(z: ZSet, a: string): nat
    requires a in z
  {
    |set x | x in z && Before(z, x, a)|
  }

  lemma RankedNoRepeats(z: ZSet)
    ensures NoRepeats(Ranked(z))
  {
    forall p, q | 0 <= p < q < |Ranked(z)| ensures Ranked(z)[p] != Ranked(z)[q] {
      RankedInOrder(z, p, q);
      BeforeTotal(z, Ranked(z)[p], Ranked(z)[q]);
    }
  }

  lemma EarlierIffBefore(z: ZSet, p: nat, i: nat)
    requires p < |Ranked(z)| && i < |Ranked(z)|
    ensures Ranked(z)[p] in z && Ranked(z)[i] in z
    ensures Before(z, Ranked(z)[p], Ranked(z)[i]) <==> p < i
  {
    RankedHas(z);
    assert Ranked(z)[p] in Ranked(z) && Ranked(z)[i] in Ranked(z);
    BeforeTotal(z, Ranked(z)[p], Ranked(z)[i]);
    if p < i { RankedInOrder(z, p, i); } else if i < p { RankedInOrder(z, i, p); }
  }

  lemma RankIsIndex(z: ZSet, i: nat)
    requires i < |Ranked(z)|
    ensures Ranked(z)[i] in z && Rank(z, Ranked(z)[i]) == i
  {
    var r := Ranked(z);
    RankedHas(z);
    RankedNoRepeats(z);
    EarlierIffBefore(z, i, i);
    NoRepeatsSize(r[..i]);
    forall x ensures x in r[..i] <==> x in z && Before(z, x, r[i]) {
      if x in z {
        var p :| 0 <= p < |r| && r[p] == x;
        EarlierIffBefore(z, p, i);
        if p < i { assert r[..i][p] == x; }
      }
    }
    assert Elements(r[..i]) == set x | x in z && Before(z, x, r[i]);
  }
}
