/** Phase 0 of the reconciler (src/platform/task_reconciler.py, _rebuild_redis_from_mysql):
    fill the Redis cache and the pending sets from the durable rows, touching nothing that
    is already there. */
module Rebuild {

  /** A task row; id is "" when the row has none, capability when it has none. */
  datatype Row = Row(id: string, capability: string, status: string, details: string)

  /** A cache value; an empty value counts as missing. */
  datatype Entry = Blank | Json(row: Row)

  type ZSets = map<string, map<string, real>>

  datatype Redis = Redis(cache: map<string, Entry>, pending: ZSets, running: ZSets)

  predicate Cached(s: Redis, id: string) { id in s.cache && s.cache[id].Json? }

  predicate In(z: ZSets, capability: string, id: string) { capability in z && id in z[capability] }

  function Add(z: ZSets, capability: string, id: string, score: real): ZSets {
    z[capability := (if capability in z then z[capability] else map[])[id := score]]
  }

  predicate Queueable(row: Row) { row.capability != "" && row.status in ["queued", "scheduled"] }

  function RebuildRow(s: Redis, row: Row, now: real): Redis {
    if row.id == "" then s
    else
      var s1 := if Cached(s, row.id) then s else s.(cache := s.cache[row.id := Json(row)]);
      if Queueable(row) && !In(s1.pending, row.capability, row.id) && !In(s1.running, row.capability, row.id) then
        s1.(pending := Add(s1.pending, row.capability, row.id, now))
      else s1
  }

  /** The rows in order; clock(i) is the reading used for the i-th row. */
  function RebuildAll(s: Redis, rows: seq<Row>, clock: nat -> real): Redis {
    if rows == [] then s else RebuildRow(RebuildAll(s, rows[..|rows| - 1], clock), rows[|rows| - 1], clock(|rows| - 1))
  }

  /** Nothing that s holds is changed in s'. */
  ghost predicate Extends(s: Redis, s': Redis) {
    && (forall id :: Cached(s, id) ==> Cached(s', id) && s'.cache[id] == s.cache[id])
    && (forall c, id :: In(s.pending, c, id) ==> In(s'.pending, c, id) && s'.pending[c][id] == s.pending[c][id])
    && s'.running == s.running
  }

  /** The row is represented: cached, and waiting or running if it should be. */
  ghost predicate Restored(s: Redis, row: Row) {
    row.id != "" ==>
      && Cached(s, row.id)
      && (row.capability != "" && (row.status == "queued" || row.status == "scheduled") ==>
            In(s.pending, row.capability, row.id) || In(s.running, row.capability, row.id))
  }

  ghost predicate AllRestored(s: Redis, rows: seq<Row>) {
    forall i :: 0 <= i < |rows| ==> Restored(s, rows[i])
  }

  /** What s' has beyond s comes from the rows: a missing cache entry is filled with a row
      of that id, a pending entry is a queueable row that was neither pending nor running. */
  ghost predicate AddsOnly(s: Redis, s': Redis, rows: seq<Row>, clock: nat -> real) {
    && (forall id :: Cached(s', id) && !Cached(s, id) ==> s'.cache[id].row in rows && s'.cache[id].row.id == id)
    && (forall c, id :: In(s'.pending, c, id) && !In(s.pending, c, id) ==>
          !In(s.running, c, id) && Source(s', rows, clock, c, id))
  }

  /** The pending entry stems from a row that should wait, and carries the reading of it. */
  ghost predicate Source(s: Redis, rows: seq<Row>, clock: nat -> real, c: string, id: string)
    requires In(s.pending, c, id)
  {
    exists i :: 0 <= i < |rows| && rows[i].id == id && rows[i].capability == c && c != ""
      && (rows[i].status == "queued" || rows[i].status == "scheduled") && s.pending[c][id] == clock(i)
  }

  lemma RowRestores(s: Redis, row: Row, now: real)
    ensures Extends(s, RebuildRow(s, row, now)) && Restored(RebuildRow(s, row, now), row)
    ensures Restored(s, row) ==> RebuildRow(s, row, now) == s
  {
  }

  lemma ExtendsKeepsRestored(s: Redis, s': Redis, row: Row)
    requires Extends(s, s') && Restored(s, row)
    ensures Restored(s', row)
  {
  }

  /** Existing entries, scores and running sets survive, every row is represented
      afterwards, and nothing else is added. */
  lemma {:induction false} RebuildRestores(s: Redis, rows: seq<Row>, clock: nat -> real)
    ensures var s' := RebuildAll(s, rows, clock); Extends(s, s') && AllRestored(s', rows) && AddsOnly(s, s', rows, clock)
  {
    if rows != [] {
      var n := |rows| - 1;
      RebuildRestores(s, rows[..n], clock);
      var mid := RebuildAll(s, rows[..n], clock);
      RowRestores(mid, rows[n], clock(n));
      forall i | 0 <= i < n ensures Restored(RebuildRow(mid, rows[n], clock(n)), rows[i]) {
        assert rows[i] == rows[..n][i];
        ExtendsKeepsRestored(mid, RebuildRow(mid, rows[n], clock(n)), rows[i]);
      }
      RowAddsOnly(s, mid, rows, clock);
    }
  }

  lemma RowAddsOnly(s: Redis, mid: Redis, rows: seq<Row>, clock: nat -> real)
    requires rows != [] && AddsOnly(s, mid, rows[..|rows| - 1], clock) && Extends(s, mid)
    ensures AddsOnly(s, RebuildRow(mid, rows[|rows| - 1], clock(|rows| - 1)), rows, clock)
  {
    var n := |rows| - 1;
    var s' := RebuildRow(mid, rows[n], clock(n));
    assert rows[n] in rows && forall r :: r in rows[..n] ==> r in rows;
    forall c, id | In(s'.pending, c, id) && !In(s.pending, c, id)
      ensures !In(s.running, c, id) && Source(s', rows, clock, c, id)
    {
      RowAddsItself(mid, rows[n], clock(n), c, id);
      if In(mid.pending, c, id) { StillSource(mid, s', rows, n, clock, c, id); }
    }
  }

  lemma StillSource(mid: Redis, s: Redis, rows: seq<Row>, n: nat, clock: nat -> real, c: string, id: string)
    requires n < |rows| && In(mid.pending, c, id) && Source(mid, rows[..n], clock, c, id)
    requires In(s.pending, c, id) && s.pending[c][id] == mid.pending[c][id]
    ensures Source(s, rows, clock, c, id)
  {
    var init := rows[..n];
    var i :| 0 <= i < |init| && init[i].id == id && init[i].capability == c && c != ""
      && (init[i].status == "queued" || init[i].status == "scheduled") && mid.pending[c][id] == clock(i);
    assert rows[i] == init[i];
  }

  lemma RowAddsItself(s: Redis, row: Row, now: real, c: string, id: string)
    ensures var s' := RebuildRow(s, row, now);
      && (In(s'.pending, c, id) && !In(s.pending, c, id) ==>
            c == row.capability && id == row.id && Queueable(row) && !In(s.running, c, id) && s'.pending[c][id] == now)
      && (In(s.pending, c, id) ==> In(s'.pending, c, id) && s'.pending[c][id] == s.pending[c][id])
  {
  }

  lemma {:induction false} RestoredIsFixed(s: Redis, rows: seq<Row>, clock: nat -> real)
    requires AllRestored(s, rows)
    ensures RebuildAll(s, rows, clock) == s
  {
    if rows != [] {
      var n := |rows| - 1;
      assert forall i :: 0 <= i < n ==> rows[..n][i] == rows[i];
      RestoredIsFixed(s, rows[..n], clock);
      RowRestores(s, rows[n], clock(n));
    }
  }

  /** A second rebuild, at whatever later time, changes nothing. */
  lemma RebuildIsIdempotent(s: Redis, rows: seq<Row>, clock: nat -> real, later: nat -> real)
    ensures RebuildAll(RebuildAll(s, rows, clock), rows, later) == RebuildAll(s, rows, clock)
  {
    RebuildRestores(s, rows, clock);
    RestoredIsFixed(RebuildAll(s, rows, clock), rows, later);
  }

  class RedisState {
    var cache: map<string, Entry>
    var pending: ZSets
    var running: ZSets

    function View(): Redis reads this { Redis(cache, pending, running) }

    constructor (s: Redis)
      ensures View() == s
    {
      cache, pending, running := s.cache, s.pending, s.running;
    }

    /** The loop over all rows. */
    method RebuildFromMySql(rows: seq<Row>, clock: nat -> real)
      modifies this`cache, this`pending
      ensures View() == RebuildAll(old(View()), rows, clock)
      ensures Extends(old(View()), View()) && AllRestored(View(), rows)
    {
      for i := 0 to |rows|
        invariant View() == RebuildAll(old(View()), rows[..i], clock)
      {
        assert rows[..i + 1][..i] == rows[..i];
        var row := rows[i];
        if row.id == "" { continue; }
        if !Cached(View(), row.id) { cache := cache[row.id := Json(row)]; }
        if Queueable(row) {
          var inPending := In(pending, row.capability, row.id);
          var inRunning := In(running, row.capability, row.id);
          if !inPending && !inRunning { pending := Add(pending, row.capability, row.id, clock(i)); }
        }
      }
      assert rows[..|rows|] == rows;
      RebuildRestores(old(View()), rows, clock);
    }
  }
}
