/** The lease protocol shared by the task execution lock (src/platform/task_executor.py),
    node ownership (src/agent/server.py) and reconciler leadership
    (src/platform/task_reconciler.py): SET NX with a time to live, compare-and-renew and
    compare-and-delete on one key, under an explicit clock. */
module Lease {
  import opened Prelude

  datatype Lease = Lease(owner: string, expiry: int)

  type Key = Option<Lease>

  datatype Event =
    | Acquire(who: string, at: int)
    | Renew(who: string, at: int)
    | Release(who: string, at: int)

  predicate Live(k: Key, now: int) { k.Some? && now < k.value.expiry }

  predicate OwnedBy(k: Key, who: string, now: int) { Live(k, now) && k.value.owner == who }

  predicate Succeeds(k: Key, e: Event) {
    match e
    case Acquire(_, now) => !Live(k, now)
    case Renew(who, now) => OwnedBy(k, who, now)
    case Release(who, now) => OwnedBy(k, who, now)
  }

  function Apply(ttl: int, k: Key, e: Event): Key {
    if !Succeeds(k, e) then k
    else match e
      case Acquire(who, now) => Some(Lease(who, now + ttl))
      case Renew(who, now) => Some(Lease(who, now + ttl))
      case Release(_, _) => None
  }

  /** The key after the first n events, from an absent key. */
  function KeyAfter(ttl: int, h: seq<Event>, n: nat): Key
    requires n <= |h|
  {
    if n == 0 then None else Apply(ttl, KeyAfter(ttl, h, n - 1), h[n - 1])
  }

  ghost predicate InTimeOrder(h: seq<Event>) {
    forall i, j :: 0 <= i < j < |h| ==> h[i].at <= h[j].at
  }

  /** The i-th event succeeded. */
  ghost predicate Won(ttl: int, h: seq<Event>, i: nat)
    requires i < |h|
  {
    Succeeds(KeyAfter(ttl, h, i), h[i])
  }

  /** What a holder knows from its own calls: it acquired or renewed at event i, has not
      released among the first n events, and less than ttl has passed at time t. */
  ghost predicate HoldsSince(ttl: int, h: seq<Event>, n: nat, who: string, t: int, i: nat)
    requires n <= |h|
  {
    && i < n && h[i].who == who && !h[i].Release? && Won(ttl, h, i) && t < h[i].at + ttl
    && forall m :: i < m < n && h[m] == Release(who, h[m].at) ==> !Won(ttl, h, m)
  }

  ghost predicate Holds(ttl: int, h: seq<Event>, n: nat, who: string, t: int)
    requires n <= |h|
  {
    exists i :: HoldsSince(ttl, h, n, who, t, i)
  }

  /** While a holder's own knowledge is good, the key is its own. */
  lemma {:induction false} HolderOwnsKey(ttl: int, h: seq<Event>, n: nat, who: string, t: int, i: nat)
    requires InTimeOrder(h) && n <= |h| && HoldsSince(ttl, h, n, who, t, i)
    requires forall m :: 0 <= m < n ==> h[m].at <= t
    ensures OwnedBy(KeyAfter(ttl, h, n), who, t) && KeyAfter(ttl, h, n).value.expiry >= h[i].at + ttl
  {
    if i < n - 1 {
      HolderOwnsKey(ttl, h, n - 1, who, t, i);
      var k, e := KeyAfter(ttl, h, n - 1), h[n - 1];
      assert Live(k, e.at);
      assert h[i].at <= e.at;
      assert e == Release(who, e.at) ==> !Won(ttl, h, n - 1);
    }
  }

  /** Conversely the owner on record is a holder. */
  lemma {:induction false} OwnerHolds(ttl: int, h: seq<Event>, n: nat, t: int) returns (i: nat)
    requires InTimeOrder(h) && n <= |h| && Live(KeyAfter(ttl, h, n), t)
    ensures HoldsSince(ttl, h, n, KeyAfter(ttl, h, n).value.owner, t, i)
    ensures KeyAfter(ttl, h, n).value.expiry == h[i].at + ttl
  {
    var k, e := KeyAfter(ttl, h, n - 1), h[n - 1];
    if Succeeds(k, e) {
      i := n - 1;
    } else {
      i := OwnerHolds(ttl, h, n - 1, t);
      forall m | i < m < n && h[m] == Release(k.value.owner, h[m].at) ensures !Won(ttl, h, m) {
      }
    }
  }

  /** The key names exactly the party whose own calls say that it holds the lease. */
  lemma HoldingIsOwning(ttl: int, h: seq<Event>, n: nat, who: string, t: int)
    requires InTimeOrder(h) && n <= |h| && forall m :: 0 <= m < n ==> h[m].at <= t
    ensures Holds(ttl, h, n, who, t) <==> OwnedBy(KeyAfter(ttl, h, n), who, t)
  {
    if Holds(ttl, h, n, who, t) {
      var i :| HoldsSince(ttl, h, n, who, t, i);
      HolderOwnsKey(ttl, h, n, who, t, i);
    }
    if OwnedBy(KeyAfter(ttl, h, n), who, t) {
      var i := OwnerHolds(ttl, h, n, t);
    }
  }

  /** Mutual exclusion: over every timed run at most one party holds the lease. */
  lemma AtMostOneHolder(ttl: int, h: seq<Event>, n: nat, a: string, b: string, t: int)
    requires InTimeOrder(h) && n <= |h| && forall m :: 0 <= m < n ==> h[m].at <= t
    requires Holds(ttl, h, n, a, t) && Holds(ttl, h, n, b, t)
    ensures a == b
  {
    HoldingIsOwning(ttl, h, n, a, t);
    HoldingIsOwning(ttl, h, n, b, t);
  }

  /** While one party holds the lease nothing another party does succeeds or changes the
      key: neither a fresh acquire nor a stale holder's renew or release. */
  lemma OthersAreShutOut(ttl: int, h: seq<Event>, n: nat, a: string)
    requires InTimeOrder(h) && n < |h| && Holds(ttl, h, n, a, h[n].at) && h[n].who != a
    ensures !Won(ttl, h, n) && KeyAfter(ttl, h, n + 1) == KeyAfter(ttl, h, n)
    ensures Holds(ttl, h, n + 1, a, h[n].at)
  {
    HoldingIsOwning(ttl, h, n, a, h[n].at);
    var i :| HoldsSince(ttl, h, n, a, h[n].at, i);
    assert HoldsSince(ttl, h, n + 1, a, h[n].at, i);
  }

  /** The expired holder loses silently: with no renewal for ttl, an acquire succeeds. */
  lemma ExpiredLeaseIsFree(ttl: int, h: seq<Event>, n: nat)
    requires InTimeOrder(h) && n < |h| && h[n].Acquire?
    ensures Won(ttl, h, n) <==> forall who :: !Holds(ttl, h, n, who, h[n].at)
  {
    forall who ensures Holds(ttl, h, n, who, h[n].at) <==> OwnedBy(KeyAfter(ttl, h, n), who, h[n].at) {
      HoldingIsOwning(ttl, h, n, who, h[n].at);
    }
    if Live(KeyAfter(ttl, h, n), h[n].at) {
      assert OwnedBy(KeyAfter(ttl, h, n), KeyAfter(ttl, h, n).value.owner, h[n].at);
    }
  }

  // ---- What others can do while a party is between two commands ----

  function ApplyAll(ttl: int, k: Key, events: seq<Event>): Key {
    if events == [] then k else Apply(ttl, ApplyAll(ttl, k, events[..|events| - 1]), events[|events| - 1])
  }

  /** Commands of parties other than who, in order, between the two readings. */
  ghost predicate Foreign(events: seq<Event>, who: string, from: int, to: int) {
    && from <= to && InTimeOrder(events)
    && forall i :: 0 <= i < |events| ==> events[i].who != who && from <= events[i].at <= to
  }

  /** They cannot make who the owner. */
  lemma {:induction false} OthersCannotOwnForMe(ttl: int, k: Key, events: seq<Event>, who: string, from: int, to: int)
    requires Foreign(events, who, from, to) && !OwnedBy(k, who, from)
    ensures !OwnedBy(ApplyAll(ttl, k, events), who, to)
  {
    if events != [] {
      var n := |events| - 1;
      OthersCannotOwnForMe(ttl, k, events[..n], who, from, events[n].at);
    }
  }

  /** The last three rounds failed. */
  predicate LostThree(oks: seq<bool>) { |oks| >= 3 && forall i :: |oks| - 3 <= i < |oks| ==> !oks[i] }

  // ---- The key as Redis holds it, and the callers' compound operations ----

  class LeaseKey {
    const ttl: int
    var key: Key
    ghost var history: seq<Event>

    ghost predicate Valid() reads this {
      InTimeOrder(history) && key == KeyAfter(ttl, history, |history|)
    }

    /** now is not before any earlier event. */
    ghost predicate Current(now: int) reads this {
      forall m :: 0 <= m < |history| ==> history[m].at <= now
    }

    constructor (ttl: int)
      ensures Valid() && this.ttl == ttl && history == []
    {
      this.ttl, key, history := ttl, None, [];
    }

    /** Ghost bookkeeping shared by the three scripts. */
    lemma Extend(e: Event)
      requires Valid() && Current(e.at)
      ensures var h := history + [e];
        InTimeOrder(h) && KeyAfter(ttl, h, |h|) == Apply(ttl, key, e) && KeyAfter(ttl, h, |h| - 1) == key
    {
      PrefixKeeps(ttl, history, history + [e], |history|);
    }

    method SetNx(who: string, now: int) returns (ok: bool)
      requires Valid() && Current(now)
      modifies this
      ensures Valid() && Current(now) && history == old(history) + [Acquire(who, now)]
      ensures ok == Succeeds(old(key), Acquire(who, now)) && key == Apply(ttl, old(key), Acquire(who, now))
    {
      Extend(Acquire(who, now));
      history := history + [Acquire(who, now)];
      if key.Some? && now < key.value.expiry { return false; }
      key := Some(Lease(who, now + ttl));
      ok := true;
    }

    method CompareAndRenew(who: string, now: int) returns (ok: bool)
      requires Valid() && Current(now)
      modifies this
      ensures Valid() && Current(now) && history == old(history) + [Renew(who, now)]
      ensures ok == Succeeds(old(key), Renew(who, now)) && key == Apply(ttl, old(key), Renew(who, now))
    {
      Extend(Renew(who, now));
      history := history + [Renew(who, now)];
      ok := key.Some? && now < key.value.expiry && key.value.owner == who;
      if ok { key := Some(key.value.(expiry := now + ttl)); }
    }

    method CompareAndDelete(who: string, now: int) returns (ok: bool)
      requires Valid() && Current(now)
      modifies this
      ensures Valid() && Current(now) && history == old(history) + [Release(who, now)]
      ensures ok == Succeeds(old(key), Release(who, now)) && key == Apply(ttl, old(key), Release(who, now))
    {
      Extend(Release(who, now));
      history := history + [Release(who, now)];
      ok := key.Some? && now < key.value.expiry && key.value.owner == who;
      if ok { key := None; }
    }

    /** Other parties run these commands. */
    method Interfere(events: seq<Event>, who: string, from: int, to: int)
      requires Valid() && Current(from) && Foreign(events, who, from, to)
      modifies this
      ensures Valid() && Current(to) && key == ApplyAll(ttl, old(key), events)
    {
      for i := 0 to |events|
        invariant Valid() && key == ApplyAll(ttl, old(key), events[..i])
        invariant Current(if i == 0 then from else events[i - 1].at)
      {
        assert events[..i + 1] == events[..i] + [events[i]];
        Extend(events[i]);
        history := history + [events[i]];
        key := Apply(ttl, key, events[i]);
      }
      assert events[..|events|] == events;
    }

    /** Leader election: SET NX, else renew, with what others do in between. Success means
        holding the lease for ttl, failure not owning it. */
    method TryBecomeLeader(who: string, now: int, between: seq<Event>, later: int) returns (leader: bool)
      requires Valid() && Current(now) && Foreign(between, who, now, later) && ttl > 0
      modifies this
      ensures Valid()
      ensures leader ==> OwnedBy(key, who, now) && key.value.expiry >= now + ttl
      ensures leader <==> !Live(old(key), now) || OwnedBy(ApplyAll(ttl, old(key), between), who, later)
      ensures !leader ==> key == ApplyAll(ttl, old(key), between)
    {
      leader := SetNx(who, now);
      if !leader {
        Interfere(between, who, now, later);
        leader := CompareAndRenew(who, later);
      }
    }

    /** One heartbeat of a node agent: renew, else try to acquire again, with what others do
        in between. It fails exactly if another party owns the key by then. */
    method Heartbeat(who: string, now: int, between: seq<Event>, later: int) returns (owned: bool)
      requires Valid() && Current(now) && Foreign(between, who, now, later) && ttl > 0
      modifies this
      ensures Valid() && Current(later)
      ensures owned ==> OwnedBy(key, who, now) && key.value.expiry >= now + ttl
      ensures !owned ==> key == ApplyAll(ttl, old(key), between) && Live(key, later) && key.value.owner != who
      ensures old(OwnedBy(key, who, now)) ==> owned
    {
      if !OwnedBy(key, who, now) { OthersCannotOwnForMe(ttl, key, between, who, now, later); }
      owned := CompareAndRenew(who, now);
      if !owned {
        Interfere(between, who, now, later);
        owned := SetNx(who, later);
      }
    }

    /** The heartbeat loop for at most n rounds: it gives up exactly at the first three
        failed rounds in a row, and then another party owns the key. Others act within and
        between the rounds. */
    method HeartbeatTask(who: string, n: nat, clock: nat -> int, others: nat -> seq<Event>)
      returns (lost: bool, oks: seq<bool>)
      requires Valid() && Current(clock(0)) && ttl > 0
      requires forall k: nat :: Foreign(others(k), who, clock(k), clock(k + 1))
      modifies this
      ensures Valid() && (!lost ==> |oks| == n)
      ensures var k := |oks|; lost <==> k >= 3 && !oks[k - 1] && !oks[k - 2] && !oks[k - 3]
      ensures forall j :: 0 <= j < |oks| ==> !LostThree(oks[..j])
      ensures lost ==> Live(key, clock(2 * |oks| - 1)) && key.value.owner != who
    {
      oks, lost := [], false;
      var failures := 0;
      for i := 0 to n
        invariant Valid() && Current(clock(2 * i)) && |oks| == i && !lost
        invariant 0 <= failures < 3 && failures <= i && (failures < i ==> oks[i - 1 - failures])
        invariant forall j :: i - failures <= j < i ==> !oks[j]
        invariant forall j :: 0 <= j <= i ==> !LostThree(oks[..j])
      {
        var before := oks;
        var ok := Heartbeat(who, clock(2 * i), others(2 * i), clock(2 * i + 1));
        oks := oks + [ok];
        failures := if ok then 0 else failures + 1;
        forall j | 0 <= j <= i ensures !LostThree(oks[..j]) { assert oks[..j] == before[..j]; }
        assert oks[..i + 1] == oks;
        if failures >= 3 { return true, oks; }
        Interfere(others(2 * i + 1), who, clock(2 * i + 1), clock(2 * i + 2));
      }
      assert oks[..n] == oks;
    }
  }

  lemma {:induction false} PrefixKeeps(ttl: int, h: seq<Event>, h': seq<Event>, n: nat)
    requires h <= h' && n <= |h|
    ensures KeyAfter(ttl, h', n) == KeyAfter(ttl, h, n)
  {
    if n > 0 { PrefixKeeps(ttl, h, h', n - 1); }
  }
}
