/** The callback outbox: the dispatcher (src/services/callback_dispatcher.py) posts pending
    rows with a table of delays, the operator (src/services/callback_ops.py) may replay a
    row at any moment, also between the dispatcher's read and its commit, and a pass may be
    lost before its commit. */
module Outbox {
  import opened Prelude

  datatype Status = Pending | Delivered | DeadLetter

  /** The columns that matter of one outbox row; times are in seconds. */
  datatype Row = Row(status: Status, attempts: nat, nextAt: Option<int>)

  const NewRow := Row(Pending, 0, None)

  const BACKOFF: seq<int> := [10, 30, 60, 300, 900, 1800, 3600]

  /** The delay after the given number of attempts. */
  function Delay(attempts: int): int {
    var idx := if attempts - 1 < |BACKOFF| - 1 then attempts - 1 else |BACKOFF| - 1;
    BACKOFF[if idx > 0 then idx else 0]
  }

  lemma DelayGrows(a: int, b: int)
    requires a <= b
    ensures 10 <= Delay(a) <= Delay(b) <= 3600
    ensures Delay(a) == 3600 <==> a >= 7
    ensures Delay(1) == 10 && Delay(2) == 30 && Delay(3) == 60 && Delay(4) == 300 && Delay(5) == 900 && Delay(6) == 1800
  {
  }

  predicate Eligible(row: Row, now: int) { row.status.Pending? && (row.nextAt.Some? ==> row.nextAt.value <= now) }

  /** The columns a pass that read the clock at `now` and loaded `loaded` attempts writes
      back; the others keep what the database holds by then. */
  function Settle(max: int, row: Row, now: int, loaded: nat, ok: bool): Row {
    if ok then row.(status := Delivered, attempts := loaded + 1)
    else if loaded + 1 >= max then row.(status := DeadLetter, attempts := loaded + 1)
    else row.(attempts := loaded + 1, nextAt := Some(now + Delay(loaded + 1)))
  }

  function Replayed(row: Row): Row { row.(status := Pending, nextAt := None) }

  // ---- One row under a dispatcher and an operator ----

  /** The row as the dispatcher holds it between reading it and committing. */
  datatype Flight = Flight(now: int, loaded: nat, posted: Option<bool>)

  /** What happened to the row: a post, stamped with the clock reading of its pass, a
      replay, or the loss of a pass that had posted and did not commit. */
  datatype Entry = Posted(at: int, ok: bool) | Replay | Lost

  datatype State = State(row: Row, flight: Option<Flight>, log: seq<Entry>)

  datatype Event = Load(now: int) | Post(ok: bool) | Commit | Lose | Operator

  predicate InFlightPosted(s: State) { s.flight.Some? && s.flight.value.posted.Some? }

  /** Events that do not apply leave the state alone. */
  function Step(max: int, s: State, e: Event): State {
    match e
    case Load(now) =>
      if s.flight.None? && Eligible(s.row, now) then s.(flight := Some(Flight(now, s.row.attempts, None))) else s
    case Post(ok) =>
      if s.flight.Some? && s.flight.value.posted.None? then
        s.(flight := Some(s.flight.value.(posted := Some(ok))), log := s.log + [Posted(s.flight.value.now, ok)])
      else s
    case Commit =>
      if s.flight.Some? && s.flight.value.posted.Some? then
        var f := s.flight.value;
        s.(row := Settle(max, s.row, f.now, f.loaded, f.posted.value), flight := None)
      else s
    case Lose => s.(flight := None, log := if InFlightPosted(s) then s.log + [Lost] else s.log)
    case Operator => s.(row := Replayed(s.row), log := s.log + [Replay])
  }

  function Run(max: int, events: seq<Event>): State {
    if events == [] then State(NewRow, None, [])
    else Step(max, Run(max, events[..|events| - 1]), events[|events| - 1])
  }

  ghost function Posts(log: seq<Entry>): nat {
    if log == [] then 0 else Posts(log[..|log| - 1]) + if log[|log| - 1].Posted? then 1 else 0
  }

  ghost function Replays(log: seq<Entry>): nat {
    if log == [] then 0 else Replays(log[..|log| - 1]) + if log[|log| - 1].Replay? then 1 else 0
  }

  ghost function Losses(log: seq<Entry>): nat {
    if log == [] then 0 else Losses(log[..|log| - 1]) + if log[|log| - 1].Lost? then 1 else 0
  }

  /** The posts that were not lost again. */
  ghost function Kept(log: seq<Entry>): int { Posts(log) - Losses(log) }

  lemma Snoc(log: seq<Entry>, e: Entry)
    ensures Posts(log + [e]) == Posts(log) + if e.Posted? then 1 else 0
    ensures Replays(log + [e]) == Replays(log) + if e.Replay? then 1 else 0
    ensures Losses(log + [e]) == Losses(log) + if e.Lost? then 1 else 0
  {
    assert (log + [e])[..|log|] == log;
  }

  ghost function Cap(max: int): nat { if max >= 1 then max else 1 }

  /** Every post that is not lost is counted once, and posting past the cap needs a replay. */
  ghost predicate Bounded(max: int, s: State) {
    && Kept(s.log) == s.row.attempts + (if InFlightPosted(s) then 1 else 0)
    && s.row.attempts <= Cap(max) + Replays(s.log)
    && (s.row.status.Pending? || s.flight.Some? ==> s.row.attempts + 1 <= Cap(max) + Replays(s.log))
    && (s.row.status.DeadLetter? ==> s.row.attempts >= max)
    && (s.flight.Some? ==> s.flight.value.loaded == s.row.attempts && s.row.status.Pending?)
  }

  lemma StepBounded(max: int, s: State, e: Event)
    requires Bounded(max, s)
    ensures Bounded(max, Step(max, s, e))
  {
    if e.Post? && s.flight.Some? { Snoc(s.log, Posted(s.flight.value.now, e.ok)); }
    if e.Operator? { Snoc(s.log, Replay); }
    if e.Lose? { Snoc(s.log, Lost); }
  }

  lemma {:induction false} RunBounded(max: int, events: seq<Event>)
    ensures Bounded(max, Run(max, events))
  {
    if events != [] {
      RunBounded(max, events[..|events| - 1]);
      StepBounded(max, Run(max, events[..|events| - 1]), events[|events| - 1]);
    }
  }

  /** Over every interleaving of passes, replays and losses: at most max posts plus one for
      each replay and loss, a pending row that was never replayed has attempts left, a
      dead-letter row has none. */
  lemma PostsAreBounded(max: nat, events: seq<Event>)
    requires max >= 1
    ensures var s := Run(max, events);
      && Posts(s.log) <= max + Replays(s.log) + Losses(s.log)
      && (s.row.status.Pending? && Replays(s.log) == 0 ==> s.row.attempts < max)
      && (s.row.status.DeadLetter? ==> s.row.attempts >= max)
  {
    RunBounded(max, events);
  }

  /** Without commits there is no bound: any number of posts can leave the row new. */
  lemma {:induction false} LossesUnbound(max: int, n: nat) returns (events: seq<Event>)
    ensures var s := Run(max, events); s.row == NewRow && s.flight.None? && Posts(s.log) == n && Replays(s.log) == 0
  {
    if n == 0 { return []; }
    var before := LossesUnbound(max, n - 1);
    var s := Run(max, before);
    events := before + [Load(0)] + [Post(true)] + [Lose];
    RunSnoc(max, before, Load(0));
    RunSnoc(max, before + [Load(0)], Post(true));
    RunSnoc(max, before + [Load(0)] + [Post(true)], Lose);
    Snoc(s.log, Posted(0, true));
    Snoc(s.log + [Posted(0, true)], Lost);
  }

  lemma RunSnoc(max: int, events: seq<Event>, e: Event)
    ensures Run(max, events + [e]) == Step(max, Run(max, events), e)
  {
    assert (events + [e])[..|events|] == events;
  }

  // ---- Spacing of failed posts ----

  /** The j-th entry, if it is a post directly after a failed post, waited out the delay. */
  ghost predicate WaitsAt(log: seq<Entry>, j: nat)
    requires 0 < j < |log|
  {
    log[j].Posted? && log[j - 1].Posted? && !log[j - 1].ok ==>
      log[j].at >= log[j - 1].at + Delay(Kept(log[..j]))
  }

  ghost predicate Spaced(log: seq<Entry>) {
    forall j :: 0 < j < |log| ==> WaitsAt(log, j)
  }

  /** The last thing that happened was a failed post. */
  ghost predicate JustFailed(s: State) { s.log != [] && s.log[|s.log| - 1].Posted? && !s.log[|s.log| - 1].ok }

  /** After a failed post with no replay or loss since, the row is still uncommitted, or dead, or
      not eligible before the delay is over, or loaded by a pass that began after that. */
  ghost predicate Waiting(s: State) {
    JustFailed(s) ==>
      var t := s.log[|s.log| - 1].at;
      var waits := s.row.nextAt == Some(t + Delay(Kept(s.log)));
      if s.flight.None? then s.row.status.DeadLetter? || waits
      else if s.flight.value.posted.None? then waits && s.flight.value.now >= t + Delay(Kept(s.log))
      else s.flight.value.posted == Some(false) && s.flight.value.now == t
  }

  lemma SpacedSnoc(log: seq<Entry>, e: Entry)
    requires Spaced(log)
    requires log != [] && log[|log| - 1].Posted? && !log[|log| - 1].ok && e.Posted? ==>
      e.at >= log[|log| - 1].at + Delay(Kept(log))
    ensures Spaced(log + [e])
  {
    var log' := log + [e];
    forall j | 0 < j < |log'| ensures WaitsAt(log', j) {
      assert log'[..j] == log[..j];
      if j < |log| { assert WaitsAt(log, j); } else { assert log[..j] == log; }
    }
  }

  lemma StepSpaced(max: int, s: State, e: Event)
    requires Bounded(max, s) && Spaced(s.log) && Waiting(s)
    ensures Spaced(Step(max, s, e).log) && Waiting(Step(max, s, e))
  {
    if e.Post? && s.flight.Some? && s.flight.value.posted.None? {
      Snoc(s.log, Posted(s.flight.value.now, e.ok));
      SpacedSnoc(s.log, Posted(s.flight.value.now, e.ok));
    } else if e.Operator? {
      SpacedSnoc(s.log, Replay);
    } else if e.Lose? {
      SpacedSnoc(s.log, Lost);
    }
  }

  lemma {:induction false} RunSpaced(max: int, events: seq<Event>)
    ensures Spaced(Run(max, events).log) && Waiting(Run(max, events))
  {
    if events != [] {
      RunSpaced(max, events[..|events| - 1]);
      RunBounded(max, events[..|events| - 1]);
      StepSpaced(max, Run(max, events[..|events| - 1]), events[|events| - 1]);
    }
  }

  /** A replayed row is posted by the next pass, whenever that is, whatever its status and its
      delay were; it keeps its count. */
  lemma ReplayIsDueAtOnce(max: int, s: State, now: int)
    requires s.flight.None?
    ensures var s' := Step(max, Step(max, s, Operator), Load(now));
      s'.flight == Some(Flight(now, s.row.attempts, None)) && s'.row.attempts == s.row.attempts
  {
  }

  // ---- Delivery ----

  /** Every successful post is followed by a replay or a loss, if by anything. */
  ghost predicate DeliveredOnce(log: seq<Entry>) {
    forall j :: 0 <= j < |log| - 1 && log[j].Posted? && log[j].ok ==> !log[j + 1].Posted?
  }

  ghost predicate HasGoodPost(log: seq<Entry>) { exists j :: 0 <= j < |log| && log[j].Posted? && log[j].ok }

  /** After a successful post with no replay or loss since, the pass is about to commit it or
      the row is delivered; and a row is delivered only after a successful post. */
  ghost predicate Delivers(s: State) {
    && (s.log != [] && s.log[|s.log| - 1].Posted? && s.log[|s.log| - 1].ok ==>
          if s.flight.None? then s.row.status.Delivered? else s.flight.value.posted == Some(true))
    && (s.row.status.Delivered? || (s.flight.Some? && s.flight.value.posted == Some(true)) ==> HasGoodPost(s.log))
    && (s.row.status.Delivered? ==> s.flight.None?)
  }

  lemma StepDelivers(max: int, s: State, e: Event)
    requires Delivers(s) && DeliveredOnce(s.log)
    ensures Delivers(Step(max, s, e)) && DeliveredOnce(Step(max, s, e).log)
  {
    var s' := Step(max, s, e);
    if s.row.status.Delivered? || (s.flight.Some? && s.flight.value.posted == Some(true)) {
      var j :| 0 <= j < |s.log| && s.log[j].Posted? && s.log[j].ok;
      assert s'.log[j] == s.log[j];
    }
    if s'.log != s.log { assert s'.log[|s.log|] == s'.log[|s'.log| - 1]; }
  }

  /** Over every interleaving: a row whose last event is a committed successful post is
      DELIVERED, a delivered row was posted successfully, and without a replay or the loss of
      that post it is never posted again. */
  lemma {:induction false} RunDelivers(max: int, events: seq<Event>)
    ensures Delivers(Run(max, events)) && DeliveredOnce(Run(max, events).log)
  {
    if events != [] {
      RunDelivers(max, events[..|events| - 1]);
      StepDelivers(max, Run(max, events[..|events| - 1]), events[|events| - 1]);
    }
  }

  // ---- The table and one pass over it ----

  class OutboxTable {
    const maxAttempts: int
    var rows: map<int, Row>

    constructor (maxAttempts: int)
      ensures this.maxAttempts == maxAttempts && rows == map[]
    {
      this.maxAttempts, rows := maxAttempts, map[];
    }

    /** One dispatcher pass over the rows the query returned, at most 50 of them; ok(id) is
        the fate of the post. Each row goes through load, post and commit, the others stay. */
    method ProcessOnce(now: int, picked: seq<int>, ok: int -> bool) returns (processed: nat)
      requires |picked| <= 50 && NoRepeats(picked)
      requires forall id :: id in picked ==> id in rows && Eligible(rows[id], now)
      modifies this
      ensures processed == |picked| && rows.Keys == old(rows).Keys
      ensures forall id :: id in picked ==>
        rows[id] == Settle(maxAttempts, old(rows)[id], now, old(rows)[id].attempts, ok(id))
      ensures forall id :: id in rows && id !in picked ==> rows[id] == old(rows)[id]
    {
      processed := 0;
      for i := 0 to |picked|
        invariant rows.Keys == old(rows).Keys && processed == i
        invariant forall k :: 0 <= k < i ==> picked[k] in rows && picked[k] in old(rows)
        invariant forall k :: 0 <= k < i ==>
          rows[picked[k]] == Settle(maxAttempts, old(rows)[picked[k]], now, old(rows)[picked[k]].attempts, ok(picked[k]))
        invariant forall id :: id in rows && id !in picked[..i] ==> rows[id] == old(rows)[id]
      {
        var id := picked[i];
        assert id !in picked[..i];
        var row := rows[id];
        if ok(id) {
          row := row.(status := Delivered, attempts := row.attempts + 1);
        } else {
          row := row.(attempts := row.attempts + 1);
          if row.attempts >= maxAttempts {
            row := row.(status := DeadLetter);
          } else {
            row := row.(nextAt := Some(now + Delay(row.attempts)));
          }
        }
        rows := rows[id := row];
        processed := processed + 1;
      }
    }

    /** The operator reopens a row, whatever its status. */
    method ReplayDeadLetter(id: int) returns (found: bool)
      modifies this
      ensures found <==> id in old(rows)
      ensures rows == if found then old(rows)[id := Replayed(old(rows)[id])] else old(rows)
    {
      if id !in rows { return false; }
      rows := rows[id := rows[id].(status := Pending, nextAt := None)];
      found := true;
    }
  }

  /** One row of a pass is one load, post and commit of the row's own history. */
  lemma PassIsThreeSteps(max: int, s: State, now: int, ok: bool)
    requires s.flight.None? && Eligible(s.row, now)
    ensures var s' := Step(max, Step(max, Step(max, s, Load(now)), Post(ok)), Commit);
      s'.row == Settle(max, s.row, now, s.row.attempts, ok) && s'.flight.None? && s'.log == s.log + [Posted(now, ok)]
  {
  }
}
