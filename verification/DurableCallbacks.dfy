/** The durable callback retry queue (src/platform/task_completion_node.py): processors
    pop due events, post them once, and put them back, mark them done or dead-letter them.
    Any number of processors interleave at the granularity of single Redis commands. */
module DurableCallbacks {
  import opened Prelude

  /** A member of the retry set: the callback (task, url and payload) and its attempt. */
  datatype Member = Member(key: string, attempt: nat)

  /** A popped event; posted holds the outcome of the HTTP call once it was made. */
  datatype Claim = Claim(event: Member, posted: Option<bool>)

  datatype World = World(
    retry: map<Member, int>, claims: map<string, Claim>, done: set<string>, dead: set<Member>, posts: seq<Member>)

  datatype Event =
    | Enqueue(key: string, now: int)
    | Pop(proc: string, event: Member, now: int)
    | Post(proc: string, ok: bool)
    | Settle(proc: string, now: int)

  /** Seconds until the given attempt is due. */
  function Delay(attempt: nat): int
    requires attempt >= 1
  {
    Doubling(10, 600, attempt - 1)
  }

  /** Delays lie between 10 s and 600 s and never shrink from one attempt to the next. */
  lemma DelayRange(a: nat, b: nat)
    requires 1 <= a <= b
    ensures 10 <= Delay(a) <= Delay(b) <= 600
  {
    DoublingGrows(10, 600, a - 1, b - 1);
  }

  function AddRetry(w: World, key: string, attempt: nat, now: int): World
    requires attempt >= 1
  {
    w.(retry := w.retry[Member(key, attempt) := now + Delay(attempt)])
  }

  /** A processor that fetched `event` as due tries to remove it; only one removal wins. */
  predicate Pops(w: World, e: Event)
    requires e.Pop?
  {
    e.proc !in w.claims && e.event in w.retry && w.retry[e.event] <= e.now
  }

  function SettleClaim(maxAttempts: int, w: World, proc: string, now: int): World
    requires proc in w.claims
  {
    var c := w.claims[proc];
    var w' := w.(claims := w.claims - {proc});
    if c.posted == Some(true) then w'.(done := w'.done + {c.event.key})
    else if c.event.attempt < maxAttempts then AddRetry(w', c.event.key, c.event.attempt + 1, now)
    else w'.(dead := w'.dead + {c.event})
  }

  function Step(maxAttempts: int, w: World, e: Event): World {
    match e
    case Enqueue(key, now) => AddRetry(w, key, 1, now)
    case Pop(proc, event, now) =>
      if Pops(w, e) then w.(retry := w.retry - {event}, claims := w.claims[proc := Claim(event, None)]) else w
    case Post(proc, ok) =>
      if proc in w.claims && w.claims[proc].posted.None? then
        w.(claims := w.claims[proc := w.claims[proc].(posted := Some(ok))], posts := w.posts + [w.claims[proc].event])
      else w
    case Settle(proc, now) =>
      if proc in w.claims && w.claims[proc].posted.Some? then SettleClaim(maxAttempts, w, proc, now) else w
  }

  function Run(maxAttempts: int, w: World, events: seq<Event>): World {
    if events == [] then w else Step(maxAttempts, Run(maxAttempts, w, events[..|events| - 1]), events[|events| - 1])
  }

  // ---- Where a callback is ----

  datatype Place =
    | Pending(attempt: nat)
    | Held(proc: string, attempt: nat, posted: Option<bool>)
    | Delivered(attempt: nat)
    | Dead(attempt: nat)

  type Places = map<string, Place>

  /** How many posts a callback at this place has had. */
  function PostsAt(p: Place): int {
    match p
    case Pending(a) => a - 1
    case Held(_, a, posted) => if posted.Some? then a else a - 1
    case Delivered(a) => a
    case Dead(a) => a
  }

  ghost function Cap(maxAttempts: int): int { if maxAttempts >= 1 then maxAttempts else 1 }

  ghost predicate Bounded(maxAttempts: int, p: Place) {
    1 <= p.attempt <= Cap(maxAttempts) && (p.Dead? ==> p.attempt == Cap(maxAttempts))
  }

  ghost function CountPosts(posts: seq<Member>, key: string): nat {
    if posts == [] then 0
    else CountPosts(posts[..|posts| - 1], key) + if posts[|posts| - 1].key == key then 1 else 0
  }

  function At(places: Places, key: string): Option<Place> {
    if key in places then Some(places[key]) else None
  }

  /** Every structure says of this callback what its place says, and nothing else: it is
      in exactly one of them. Its posts are the attempts 1, 2, ... each made once. */
  ghost predicate Located(w: World, k: string, p: Option<Place>) {
    && (forall a :: Member(k, a) in w.retry <==> p == Some(Pending(a)))
    && (forall proc, a, o :: ClaimIs(w, proc, k, a, o) <==> p == Some(Held(proc, a, o)))
    && (k in w.done <==> p.Some? && p.value.Delivered?)
    && (forall a :: Member(k, a) in w.dead <==> p == Some(Dead(a)))
    && PostsAre(w.posts, k, if p.Some? then PostsAt(p.value) else 0)
  }

  ghost predicate ClaimIs(w: World, proc: string, k: string, a: nat, o: Option<bool>) {
    proc in w.claims && w.claims[proc] == Claim(Member(k, a), o)
  }

  ghost predicate PostsAre(posts: seq<Member>, k: string, n: int) {
    && (forall a: nat :: Member(k, a) in posts <==> 1 <= a <= n)
    && CountPosts(posts, k) == n
  }

  lemma OnePost(posts: seq<Member>, m: Member, k: string, n: int)
    requires PostsAre(posts, k, n)
    ensures m.key != k ==> PostsAre(posts + [m], k, n)
    ensures m == Member(k, n + 1) && n >= 0 ==> PostsAre(posts + [m], k, n + 1)
  {
    assert (posts + [m])[..|posts|] == posts;
  }

  ghost predicate Inv(maxAttempts: int, w: World, places: Places) {
    && NoRepeats(w.posts)
    && forall k :: Located(w, k, At(places, k)) && (k in places ==> Bounded(maxAttempts, places[k]))
  }

  /** Where a failed or delivered post sends the callback. */
  ghost function Settled(maxAttempts: int, event: Member, ok: bool): Place {
    if ok then Delivered(event.attempt)
    else if event.attempt < maxAttempts then Pending(event.attempt + 1)
    else Dead(event.attempt)
  }

  /** The callback an event moves, and its new place. */
  ghost function Moves(maxAttempts: int, w: World, e: Event): Option<(string, Place)> {
    match e
    case Enqueue(key, _) => Some((key, Pending(1)))
    case Pop(proc, event, _) => if Pops(w, e) then Some((event.key, Held(proc, event.attempt, None))) else None
    case Post(proc, ok) =>
      if proc in w.claims && w.claims[proc].posted.None? then
        Some((w.claims[proc].event.key, Held(proc, w.claims[proc].event.attempt, Some(ok))))
      else None
    case Settle(proc, _) =>
      if proc in w.claims && w.claims[proc].posted.Some? then
        Some((w.claims[proc].event.key, Settled(maxAttempts, w.claims[proc].event, w.claims[proc].posted.value)))
      else None
  }

  ghost function MovePlaces(maxAttempts: int, w: World, places: Places, e: Event): Places {
    match Moves(maxAttempts, w, e) case None => places case Some((k, p)) => places[k := p]
  }

  /** A callback is enqueued at most once. */
  ghost predicate Fresh(places: Places, e: Event) { e.Enqueue? ==> e.key !in places }

  lemma OthersStay(maxAttempts: int, w: World, e: Event, k: string, p: Option<Place>)
    requires Located(w, k, p) && (Moves(maxAttempts, w, e).Some? ==> Moves(maxAttempts, w, e).value.0 != k)
    ensures Located(Step(maxAttempts, w, e), k, p)
  {
    var w' := Step(maxAttempts, w, e);
    if e.Post? && Moves(maxAttempts, w, e).Some? {
      OnePost(w.posts, w.claims[e.proc].event, k, if p.Some? then PostsAt(p.value) else 0);
    }
    if Moves(maxAttempts, w, e).Some? {
      forall proc, a, o ensures ClaimIs(w', proc, k, a, o) <==> ClaimIs(w, proc, k, a, o) {}
    }
  }

  lemma PopMoves(maxAttempts: int, w: World, e: Event, p: Option<Place>)
    requires e.Pop? && Pops(w, e) && Located(w, e.event.key, p)
    ensures Located(Step(maxAttempts, w, e), e.event.key, Some(Held(e.proc, e.event.attempt, None)))
    ensures p == Some(Pending(e.event.attempt))
  {
    var k := e.event.key;
    assert e.event == Member(k, e.event.attempt);
    var w' := Step(maxAttempts, w, e);
    forall proc, a, o ensures ClaimIs(w', proc, k, a, o) <==> proc == e.proc && a == e.event.attempt && o == None {
      assert !ClaimIs(w, proc, k, a, o);
    }
  }

  lemma PostMoves(maxAttempts: int, w: World, e: Event, p: Option<Place>)
    requires e.Post? && Moves(maxAttempts, w, e).Some? && Located(w, w.claims[e.proc].event.key, p)
    requires p.Some? ==> Bounded(maxAttempts, p.value)
    ensures var ev := w.claims[e.proc].event;
      Located(Step(maxAttempts, w, e), ev.key, Some(Held(e.proc, ev.attempt, Some(e.ok)))) && p == Some(Held(e.proc, ev.attempt, None))
  {
    var ev := w.claims[e.proc].event;
    var k := ev.key;
    assert ClaimIs(w, e.proc, k, ev.attempt, None);
    var w' := Step(maxAttempts, w, e);
    OnePost(w.posts, ev, k, ev.attempt - 1);
    forall proc, a, o ensures ClaimIs(w', proc, k, a, o) <==> proc == e.proc && a == ev.attempt && o == Some(e.ok) {
      assert ClaimIs(w, proc, k, a, o) ==> proc == e.proc;
    }
  }

  lemma SettleMoves(maxAttempts: int, w: World, e: Event, p: Option<Place>)
    requires e.Settle? && Moves(maxAttempts, w, e).Some? && Located(w, w.claims[e.proc].event.key, p)
    requires p.Some? ==> Bounded(maxAttempts, p.value)
    ensures var c := w.claims[e.proc];
      && p == Some(Held(e.proc, c.event.attempt, c.posted))
      && Located(Step(maxAttempts, w, e), c.event.key, Some(Settled(maxAttempts, c.event, c.posted.value)))
      && Bounded(maxAttempts, Settled(maxAttempts, c.event, c.posted.value))
  {
    var c := w.claims[e.proc];
    var k := c.event.key;
    assert ClaimIs(w, e.proc, k, c.event.attempt, c.posted);
    var w' := Step(maxAttempts, w, e);
    forall proc, a, o ensures !ClaimIs(w', proc, k, a, o) {
      assert ClaimIs(w, proc, k, a, o) ==> proc == e.proc;
    }
    assert c.event == Member(k, c.event.attempt);
  }

  /** An attempt is only posted when it was not posted before. */
  lemma PostIsNew(maxAttempts: int, w: World, places: Places, e: Event)
    requires Inv(maxAttempts, w, places)
    ensures NoRepeats(Step(maxAttempts, w, e).posts)
  {
    if e.Post? && Moves(maxAttempts, w, e).Some? {
      var ev := w.claims[e.proc].event;
      assert Located(w, ev.key, At(places, ev.key)) && (ev.key in places ==> Bounded(maxAttempts, places[ev.key]));
      PostMoves(maxAttempts, w, e, At(places, ev.key));
      assert ev == Member(ev.key, ev.attempt) && ev !in w.posts;
    }
  }

  lemma StepKeepsInv(maxAttempts: int, w: World, places: Places, e: Event)
    requires Inv(maxAttempts, w, places) && Fresh(places, e)
    ensures Inv(maxAttempts, Step(maxAttempts, w, e), MovePlaces(maxAttempts, w, places, e))
  {
    var places' := MovePlaces(maxAttempts, w, places, e);
    PostIsNew(maxAttempts, w, places, e);
    forall k
      ensures Located(Step(maxAttempts, w, e), k, At(places', k))
      ensures k in places' ==> Bounded(maxAttempts, places'[k])
    {
      assert Located(w, k, At(places, k));
      assert k in places ==> Bounded(maxAttempts, places[k]);
      if Moves(maxAttempts, w, e).Some? && Moves(maxAttempts, w, e).value.0 == k {
        MovesTo(maxAttempts, w, e, At(places, k));
      } else {
        OthersStay(maxAttempts, w, e, k, At(places, k));
      }
    }
  }

  lemma MovesTo(maxAttempts: int, w: World, e: Event, p: Option<Place>)
    requires Moves(maxAttempts, w, e).Some? && Located(w, Moves(maxAttempts, w, e).value.0, p)
    requires (p.Some? ==> Bounded(maxAttempts, p.value)) && (e.Enqueue? ==> p.None?)
    ensures var (k, p') := Moves(maxAttempts, w, e).value;
      Located(Step(maxAttempts, w, e), k, Some(p')) && Bounded(maxAttempts, p')
  {
    match e
    case Enqueue(_, _) =>
      forall proc, a, o ensures !ClaimIs(w, proc, e.key, a, o) && !ClaimIs(Step(maxAttempts, w, e), proc, e.key, a, o) {}
    case Pop(_, _, _) => PopMoves(maxAttempts, w, e, p);
    case Post(_, _) => PostMoves(maxAttempts, w, e, p);
    case Settle(_, _) => SettleMoves(maxAttempts, w, e, p);
  }

  // ---- Whole runs ----

  const Nothing := World(map[], map[], {}, {}, [])

  ghost function PlacesAfter(maxAttempts: int, events: seq<Event>): Places {
    if events == [] then map[]
    else
      var n := |events| - 1;
      MovePlaces(maxAttempts, Run(maxAttempts, Nothing, events[..n]), PlacesAfter(maxAttempts, events[..n]), events[n])
  }

  /** No callback is enqueued twice. */
  ghost predicate FreshRun(maxAttempts: int, events: seq<Event>) {
    events != [] ==>
      FreshRun(maxAttempts, events[..|events| - 1])
      && Fresh(PlacesAfter(maxAttempts, events[..|events| - 1]), events[|events| - 1])
  }

  lemma {:induction false} RunKeepsInv(maxAttempts: int, events: seq<Event>)
    requires FreshRun(maxAttempts, events)
    ensures Inv(maxAttempts, Run(maxAttempts, Nothing, events), PlacesAfter(maxAttempts, events))
  {
    if events == [] {
      forall k ensures Located(Nothing, k, None) {}
    } else {
      var n := |events| - 1;
      RunKeepsInv(maxAttempts, events[..n]);
      StepKeepsInv(maxAttempts, Run(maxAttempts, Nothing, events[..n]), PlacesAfter(maxAttempts, events[..n]), events[n]);
    }
  }

  ghost predicate IsPending(w: World, k: string) { exists a :: Member(k, a) in w.retry }
  ghost predicate IsClaimed(w: World, k: string) { exists proc :: proc in w.claims && w.claims[proc].event.key == k }
  ghost predicate IsDead(w: World, k: string) { exists a :: Member(k, a) in w.dead }

  /** Over every interleaving of any number of processors, each enqueued callback is in
      exactly one of pending, claimed by one processor, done, dead-letter. No attempt is
      posted twice, and once the permitted posts are made and settled it is done or dead. */
  lemma EachCallbackInOnePlace(maxAttempts: int, events: seq<Event>, k: string)
    requires FreshRun(maxAttempts, events)
    ensures var w := Run(maxAttempts, Nothing, events);
      && !(IsPending(w, k) && IsClaimed(w, k)) && !(IsPending(w, k) && k in w.done) && !(IsPending(w, k) && IsDead(w, k))
      && !(IsClaimed(w, k) && k in w.done) && !(IsClaimed(w, k) && IsDead(w, k)) && !(k in w.done && IsDead(w, k))
      && (k in PlacesAfter(maxAttempts, events) <==> IsPending(w, k) || IsClaimed(w, k) || k in w.done || IsDead(w, k))
      && (forall p, q :: p in w.claims && q in w.claims && w.claims[p].event.key == w.claims[q].event.key == k ==> p == q)
      && NoRepeats(w.posts)
      && CountPosts(w.posts, k) <= Cap(maxAttempts)
      && (CountPosts(w.posts, k) == Cap(maxAttempts) && !IsClaimed(w, k) ==> k in w.done || IsDead(w, k))
  {
    RunKeepsInv(maxAttempts, events);
    var w, p := Run(maxAttempts, Nothing, events), At(PlacesAfter(maxAttempts, events), k);
    assert Located(w, k, p) && (p.Some? ==> Bounded(maxAttempts, p.value));
    forall proc | proc in w.claims && w.claims[proc].event.key == k
      ensures p == Some(Held(proc, w.claims[proc].event.attempt, w.claims[proc].posted))
    {
      assert ClaimIs(w, proc, k, w.claims[proc].event.attempt, w.claims[proc].posted);
    }
    if p.Some? {
      match p.value
      case Pending(a) => assert Member(k, a) in w.retry;
      case Held(proc, a, o) => assert ClaimIs(w, proc, k, a, o);
      case Delivered(a) =>
      case Dead(a) => assert Member(k, a) in w.dead;
    }
  }

  /** Ever enqueued means having a place. */
  lemma {:induction false} EnqueuedHasPlace(maxAttempts: int, events: seq<Event>, i: nat)
    requires i < |events| && events[i].Enqueue?
    ensures events[i].key in PlacesAfter(maxAttempts, events)
  {
    if i < |events| - 1 { EnqueuedHasPlace(maxAttempts, events[..|events| - 1], i); }
  }

  // ---- A pass of one processor ----

  /** Pop, post and settle each fetched event in turn. */
  ghost function PassOf(proc: string, fetched: seq<Member>, now: int, sends: nat -> bool, clock: nat -> int, n: nat): seq<Event>
    requires n <= |fetched|
  {
    if n == 0 then []
    else
      var before := PassOf(proc, fetched, now, sends, clock, n - 1);
      before + [Pop(proc, fetched[n - 1], now)] + [Post(proc, sends(n - 1))] + [Settle(proc, clock(n - 1))]
  }

  ghost function Turn(maxAttempts: int, w: World, proc: string, f: Member, now: int, ok: bool, at: int): World {
    Step(maxAttempts, Step(maxAttempts, Step(maxAttempts, w, Pop(proc, f, now)), Post(proc, ok)), Settle(proc, at))
  }

  lemma PassOneMore(maxAttempts: int, w: World, proc: string, fetched: seq<Member>, now: int, sends: nat -> bool,
                    clock: nat -> int, n: nat)
    requires n < |fetched|
    ensures var before := Run(maxAttempts, w, PassOf(proc, fetched, now, sends, clock, n));
      Run(maxAttempts, w, PassOf(proc, fetched, now, sends, clock, n + 1)) ==
        Turn(maxAttempts, before, proc, fetched[n], now, sends(n), clock(n))
  {
    var (t0, pop, post) := (PassOf(proc, fetched, now, sends, clock, n), Pop(proc, fetched[n], now), Post(proc, sends(n)));
    RunSnoc(maxAttempts, w, t0, pop);
    RunSnoc(maxAttempts, w, t0 + [pop], post);
    RunSnoc(maxAttempts, w, t0 + [pop] + [post], Settle(proc, clock(n)));
  }

  /** The processor is free, and m is still due as it was, or posted if its turn is over. */
  ghost predicate DueOrPosted(w: World, proc: string, m: Member, due: int, over: bool) {
    && proc !in w.claims
    && (if over then m in w.posts else m in w.retry && w.retry[m] == due)
  }

  lemma TurnPosts(maxAttempts: int, w: World, proc: string, f: Member, now: int, ok: bool, at: int, m: Member, due: int, over: bool)
    requires DueOrPosted(w, proc, m, due, over) && due <= now && (f == m || f.key != m.key)
    ensures DueOrPosted(Turn(maxAttempts, w, proc, f, now, ok, at), proc, m, due, over || f == m)
  {
    var w1 := Step(maxAttempts, w, Pop(proc, f, now));
    var w2 := Step(maxAttempts, w1, Post(proc, ok));
    if Pops(w, Pop(proc, f, now)) {
      assert w1.claims[proc] == Claim(f, None) && w2.claims[proc] == Claim(f, Some(ok)) && w2.posts == w.posts + [f];
      assert f.key != m.key ==> Member(f.key, f.attempt + 1) != m && f != m;
    } else {
      assert w1 == w && w2 == w;
    }
  }

  /** The turns for the fetched events from the k-th on. */
  ghost function PassFrom(maxAttempts: int, w: World, proc: string, fetched: seq<Member>, now: int,
                          sends: nat -> bool, clock: nat -> int, k: nat): World
    requires k <= |fetched|
    decreases |fetched| - k
  {
    if k == |fetched| then w
    else PassFrom(maxAttempts, Turn(maxAttempts, w, proc, fetched[k], now, sends(k), clock(k)), proc, fetched, now, sends, clock, k + 1)
  }

  /** A pass is a run of the protocol by one processor. */
  lemma {:induction false} PassIsRun(maxAttempts: int, w: World, proc: string, fetched: seq<Member>, now: int,
                                     sends: nat -> bool, clock: nat -> int, n: nat)
    requires n <= |fetched|
    ensures PassFrom(maxAttempts, w, proc, fetched, now, sends, clock, 0) ==
      PassFrom(maxAttempts, Run(maxAttempts, w, PassOf(proc, fetched, now, sends, clock, n)), proc, fetched, now, sends, clock, n)
  {
    if n > 0 {
      PassIsRun(maxAttempts, w, proc, fetched, now, sends, clock, n - 1);
      PassOneMore(maxAttempts, w, proc, fetched, now, sends, clock, n - 1);
    }
  }

  lemma {:induction false} PassPosts(maxAttempts: int, w: World, proc: string, fetched: seq<Member>, now: int,
                                     sends: nat -> bool, clock: nat -> int, i: nat, k: nat, due: int)
    requires i < |fetched| && k <= |fetched| && due <= now
    requires forall j :: 0 <= j < |fetched| && j != i ==> fetched[j].key != fetched[i].key
    requires DueOrPosted(w, proc, fetched[i], due, k > i)
    ensures DueOrPosted(PassFrom(maxAttempts, w, proc, fetched, now, sends, clock, k), proc, fetched[i], due, true)
    decreases |fetched| - k
  {
    if k < |fetched| {
      assert k != i ==> fetched[k].key != fetched[i].key;
      TurnPosts(maxAttempts, w, proc, fetched[k], now, sends(k), clock(k), fetched[i], due, k > i);
      PassPosts(maxAttempts, Turn(maxAttempts, w, proc, fetched[k], now, sends(k), clock(k)), proc, fetched, now, sends, clock, i, k + 1, due);
    }
  }

  /** A pass posts every fetched event that is due, given that no two of them belong to the
      same callback, as in every reachable state. */
  lemma DueArePosted(maxAttempts: int, w: World, proc: string, fetched: seq<Member>, now: int,
                     sends: nat -> bool, clock: nat -> int, i: nat)
    requires i < |fetched| && forall j :: 0 <= j < |fetched| && j != i ==> fetched[j].key != fetched[i].key
    requires proc !in w.claims && fetched[i] in w.retry && w.retry[fetched[i]] <= now
    ensures fetched[i] in PassFrom(maxAttempts, w, proc, fetched, now, sends, clock, 0).posts
  {
    PassPosts(maxAttempts, w, proc, fetched, now, sends, clock, i, 0, w.retry[fetched[i]]);
  }

  // ---- No retry before its delay ----

  /** e puts m into the retry set at time `at`: the first attempt, or the next one after an
      attempt that failed with attempts left. */
  ghost predicate Adds(maxAttempts: int, w: World, e: Event, m: Member, at: int) {
    || (e == Enqueue(m.key, at) && m.attempt == 1)
    || (e.Settle? && e.now == at && e.proc in w.claims && w.claims[e.proc].event.key == m.key
        && w.claims[e.proc].event.attempt + 1 == m.attempt <= maxAttempts && w.claims[e.proc].posted == Some(false))
  }

  ghost predicate NeverAdds(maxAttempts: int, w: World, events: seq<Event>, m: Member) {
    forall k, at :: 0 <= k < |events| ==> !Adds(maxAttempts, Run(maxAttempts, w, events[..k]), events[k], m, at)
  }

  lemma BackIntoRetry(maxAttempts: int, w: World, e: Event, m: Member)
    requires forall at :: !Adds(maxAttempts, w, e, m, at)
    ensures m in Step(maxAttempts, w, e).retry ==> m in w.retry && Step(maxAttempts, w, e).retry[m] == w.retry[m]
  {
    assert m == Member(m.key, m.attempt);
    if e.Enqueue? || e.Settle? {
      assert !Adds(maxAttempts, w, e, m, e.now);
      assert e.Enqueue? ==> e == Enqueue(e.key, e.now);
    }
    if e.Settle? && e.proc in w.claims && w.claims[e.proc].posted.Some? {
      var ok := w.claims[e.proc].posted.value;
      assert w.claims[e.proc].posted == if ok then Some(true) else Some(false);
    }
  }

  lemma {:induction false} DueIsKept(maxAttempts: int, w: World, events: seq<Event>, m: Member)
    requires NeverAdds(maxAttempts, w, events, m)
    ensures m in Run(maxAttempts, w, events).retry ==> m in w.retry && Run(maxAttempts, w, events).retry[m] == w.retry[m]
  {
    if events != [] {
      var n := |events| - 1;
      forall k, at | 0 <= k < n ensures !Adds(maxAttempts, Run(maxAttempts, w, events[..n][..k]), events[..n][k], m, at) {
        assert events[..n][..k] == events[..k];
      }
      DueIsKept(maxAttempts, w, events[..n], m);
      BackIntoRetry(maxAttempts, Run(maxAttempts, w, events[..n]), events[n], m);
    }
  }

  /** After attempt n of a callback was put into the retry set, a free processor pops it
      exactly if ten seconds, doubled n - 1 times and at most ten minutes, are over. */
  lemma NotBeforeItsDelay(maxAttempts: int, w: World, e: Event, m: Member, at: int, events: seq<Event>, k: nat)
    requires Adds(maxAttempts, w, e, m, at) && NeverAdds(maxAttempts, Step(maxAttempts, w, e), events, m)
    requires k < |events| && events[k].Pop? && events[k].event == m
    requires var now := Run(maxAttempts, Step(maxAttempts, w, e), events[..k]);
      m in now.retry && events[k].proc !in now.claims
    ensures m !in Step(maxAttempts, Run(maxAttempts, Step(maxAttempts, w, e), events[..k]), events[k]).retry <==>
      events[k].now >= at + if 10 * Pow2(m.attempt - 1) < 600 then 10 * Pow2(m.attempt - 1) else 600
  {
    var w' := Step(maxAttempts, w, e);
    assert m in w'.retry && w'.retry[m] == at + Delay(m.attempt);
    forall j, t | 0 <= j < k ensures !Adds(maxAttempts, Run(maxAttempts, w', events[..k][..j]), events[..k][j], m, t) {
      assert events[..k][..j] == events[..j];
    }
    DueIsKept(maxAttempts, w', events[..k], m);
  }

  lemma RunSnoc(maxAttempts: int, w: World, events: seq<Event>, e: Event)
    ensures Run(maxAttempts, w, events + [e]) == Step(maxAttempts, Run(maxAttempts, w, events), e)
  {
    assert (events + [e])[..|events|] == events;
  }

  /** The Redis structures behind the retry queue. */
  class RetryQueue {
    const maxAttempts: int
    var retry: map<Member, int>
    var claims: map<string, Claim>
    var done: set<string>
    var dead: set<Member>
    var posts: seq<Member>

    ghost function View(): World reads this { World(retry, claims, done, dead, posts) }

    constructor (maxAttempts: int)
      ensures this.maxAttempts == maxAttempts && View() == Nothing
    {
      this.maxAttempts := maxAttempts;
      retry, claims, done, dead, posts := map[], map[], {}, {}, [];
    }

    method EnqueueRetry(key: string, attempt: nat, now: int)
      requires attempt >= 1
      modifies this`retry
      ensures View() == AddRetry(old(View()), key, attempt, now)
    {
      var delay := Delay(attempt);
      retry := retry[Member(key, attempt) := now + delay];
    }

    /** One fetched event: pop it, post it, settle it. */
    method ProcessOne(proc: string, m: Member, now: int, ok: bool, at: int) returns (popped: bool)
      requires proc !in claims
      modifies this
      ensures View() == Step(maxAttempts, Step(maxAttempts, Step(maxAttempts, old(View()),
                          Pop(proc, m, now)), Post(proc, ok)), Settle(proc, at))
      ensures proc !in claims && posts == old(posts) + (if popped then [m] else [])
    {
      popped := m in retry && retry[m] <= now;
      if !popped { return; }
      retry := retry - {m};
      claims := claims[proc := Claim(m, None)];
      posts := posts + [m];
      claims := claims[proc := Claim(m, Some(ok))];
      claims := claims - {proc};
      if ok {
        done := done + {m.key};
      } else if m.attempt < maxAttempts {
        EnqueueRetry(m.key, m.attempt + 1, at);
      } else {
        dead := dead + {m};
      }
    }

    /** One pass over the events fetched as due, in which sends(i) is the fate of the i-th
        HTTP post and clock(i) the time it is settled. The pass is a run of the protocol
        in which only this processor acts and which leaves it holding nothing. */
    method ProcessDue(proc: string, fetched: seq<Member>, now: int, sends: nat -> bool, clock: nat -> int)
      returns (processed: nat)
      requires proc !in claims
      modifies this
      ensures View() == PassFrom(maxAttempts, old(View()), proc, fetched, now, sends, clock, 0)
      ensures proc !in claims && processed == |posts| - |old(posts)| <= |fetched|
    {
      processed := 0;
      for i := 0 to |fetched|
        invariant PassFrom(maxAttempts, old(View()), proc, fetched, now, sends, clock, 0) ==
          PassFrom(maxAttempts, View(), proc, fetched, now, sends, clock, i)
        invariant proc !in claims && processed == |posts| - |old(posts)| <= i
      {
        var popped := ProcessOne(proc, fetched[i], now, sends(i), clock(i));
        if popped { processed := processed + 1; }
      }
    }
  }
}
