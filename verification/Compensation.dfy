/** MySQL-first writes (src/common/transaction.py) and the compensation pass that repairs
    what Redis missed (src/services/compensation.py). Any Redis command may fail. */
module Compensation {
  import opened Prelude

  datatype TxStatus = PendingRedis | Committed | Failed | Recovered | Expired

  datatype Tx = Tx(id: string, task: string, operation: string, status: TxStatus,
                   mysqlWritten: bool, redisWritten: bool, retries: nat)

  /** A task row; `recent` says that it was updated within the last 24 hours. */
  datatype Row = Row(status: string, recent: bool, details: string)

  /** The cached copy of a row. */
  datatype Entry = Entry(status: string, details: string)

  datatype Effect = MySqlWrite(tx: string) | RedisWrite(tx: string)

  function EntryOf(row: Row): Entry { Entry(row.status, row.details) }

  predicate Active(row: Row) { row.recent && row.status in ["queued", "running", "scheduled"] }

  function Find(txs: map<string, Tx>, id: string): Option<Tx> { if id in txs then Some(txs[id]) else None }

  predicate NeedsRepair(tx: Tx) { tx.status.PendingRedis? || tx.status.Failed? }

  /** What a caller of write_atomic sees. */
  datatype WriteReply = Returned(tx: Tx) | Raised

  /** The stored record after a repair of tx: gone, unchanged, or with one more retry,
      which only happens below the maximum. */
  ghost predicate RepairResult(max: int, tx: Tx, after: Option<Tx>) {
    || after.None?
    || after == Some(tx)
    || (tx.retries < max && after == Some(tx.(retries := tx.retries + 1)))
  }

  /** No Redis effect without its MySQL write before it. */
  ghost predicate MySqlFirst(effects: seq<Effect>) {
    forall j :: 0 <= j < |effects| && effects[j].RedisWrite? ==>
      exists i :: 0 <= i < j && effects[i] == MySqlWrite(effects[j].tx)
  }

  lemma PairKeepsOrder(effects: seq<Effect>, tx: string)
    ensures MySqlFirst(effects) ==> MySqlFirst(effects + [MySqlWrite(tx)])
    ensures MySqlFirst(effects) ==> MySqlFirst(effects + [MySqlWrite(tx)] + [RedisWrite(tx)])
  {
    if MySqlFirst(effects) {
      var one, two := effects + [MySqlWrite(tx)], effects + [MySqlWrite(tx)] + [RedisWrite(tx)];
      forall j | 0 <= j < |two| && two[j].RedisWrite?
        ensures exists i :: 0 <= i < j && two[i] == MySqlWrite(two[j].tx)
        ensures j < |one| ==> exists i :: 0 <= i < j && one[i] == MySqlWrite(one[j].tx)
      {
        if j < |effects| {
          var i :| 0 <= i < j && effects[i] == MySqlWrite(effects[j].tx);
          assert one[i] == effects[i] && two[i] == effects[i];
        } else {
          assert two[|effects|] == MySqlWrite(tx);
        }
      }
    }
  }

  // ---- The retry bound over whole runs ----

  /** The stored record of one transaction, before and after each repair of a run. */
  ghost predicate RepairHistory(max: int, hist: seq<Option<Tx>>) {
    forall k :: 0 <= k < |hist| - 1 ==>
      if hist[k].None? then hist[k + 1].None? else RepairResult(max, hist[k].value, hist[k + 1])
  }

  /** How many of the repairs recorded one more retry. */
  ghost function RecordedFailures(hist: seq<Option<Tx>>): nat {
    if |hist| < 2 then 0
    else
      var n := |hist| - 1;
      RecordedFailures(hist[..n]) + if hist[n].Some? && hist[n] != hist[n - 1] then 1 else 0
  }

  /** A saved transaction sees at most max recorded failed repairs before it is removed. */
  lemma {:induction false} FailedRepairsAreBounded(max: nat, hist: seq<Option<Tx>>)
    requires RepairHistory(max, hist) && hist != [] && hist[0].Some? && hist[0].value.retries == 0
    ensures RecordedFailures(hist) <= max
    ensures hist[|hist| - 1].Some? ==> hist[|hist| - 1].value.retries == RecordedFailures(hist)
  {
    if |hist| >= 2 {
      var n := |hist| - 1;
      var init := hist[..n];
      FailedRepairsAreBounded(max, init);
      assert init[n - 1] == hist[n - 1];
      assert if hist[n - 1].None? then hist[n - 1 + 1].None? else RepairResult(max, hist[n - 1].value, hist[n - 1 + 1]);
    }
  }

  /** No repair of the run raised: each removed the record or counted itself. */
  ghost predicate NoneRaised(hist: seq<Option<Tx>>) {
    forall k :: 0 <= k < |hist| - 1 && hist[k].Some? ==> hist[k + 1] != hist[k]
  }

  /** How many repairs a record can see that has been counted up `retries` times. */
  function RepairsLeft(max: int, retries: nat): nat { if max > retries then max - retries + 1 else 1 }

  lemma HistoryGrows(max: int, hist: seq<Option<Tx>>, next: Option<Tx>)
    requires hist != []
    ensures var last := hist[|hist| - 1];
      var step := if last.None? then next.None? else RepairResult(max, last.value, next);
      && (RepairHistory(max, hist + [next]) <==> RepairHistory(max, hist) && step)
      && (NoneRaised(hist + [next]) <==> NoneRaised(hist) && (last.Some? ==> next != last))
  {
    var longer := hist + [next];
    forall k | 0 <= k < |hist| ensures longer[k] == hist[k] {}
    assert longer[|hist| - 1 + 1] == next;
  }

  /** If no repair raises, the record is gone after the repairs it had left, max + 1 for a
      new one. */
  lemma {:induction false} RepairsEnd(max: int, hist: seq<Option<Tx>>, k: nat)
    requires RepairHistory(max, hist) && NoneRaised(hist) && k < |hist| && hist[0].Some?
    ensures hist[k].Some? ==> k < RepairsLeft(max, hist[0].value.retries) && hist[k].value.retries == hist[0].value.retries + k
  {
    if k > 0 {
      RepairsEnd(max, hist, k - 1);
      assert if hist[k - 1].None? then hist[k - 1 + 1].None? else RepairResult(max, hist[k - 1].value, hist[k - 1 + 1]);
      assert hist[k - 1].Some? ==> hist[k - 1 + 1] != hist[k - 1];
    }
  }

  // ---- The records through one pass ----

  ghost predicate WellKeyed(txs: map<string, Tx>) {
    forall id :: Find(txs, id).Some? ==> Find(txs, id).value.id == id
  }

  /** Every record that needs repair was removed, kept, or counted up, the others stay, and
      none is new. */
  ghost predicate Repaired(max: int, before: map<string, Tx>, after: map<string, Tx>) {
    && WellKeyed(after)
    && forall id :: match Find(before, id)
         case None => Find(after, id).None?
         case Some(tx) => if tx.status.PendingRedis? || tx.status.Failed? then RepairResult(max, tx, Find(after, id)) else Find(after, id) == Some(tx)
  }

  /** The records still to do are as they were, and need repair. */
  ghost predicate Waiting(todo: set<string>, before: map<string, Tx>, now: map<string, Tx>) {
    forall id :: id in todo ==> Find(now, id) == Find(before, id) && Find(now, id).Some? && NeedsRepair(Find(now, id).value)
  }

  /** Outside todo nothing needs repair. */
  ghost predicate Clean(todo: set<string>, txs: map<string, Tx>) {
    forall id :: Find(txs, id).Some? && NeedsRepair(Find(txs, id).value) ==> id in todo
  }

  /** The cache holds what the repair of tx is for: the row's status where the task has an
      entry, and all of the row if the task was to be created. */
  ghost predicate Synced(tx: Tx, mysql: map<string, Row>, cache: map<string, Entry>) {
    tx.task in mysql ==>
      && (tx.operation == "create_task" ==>
            tx.task in cache && cache[tx.task] == Entry(mysql[tx.task].status, mysql[tx.task].details))
      && (tx.operation == "update_status" && tx.task in cache ==> cache[tx.task].status == mysql[tx.task].status)
  }

  /** Between the two caches an entry is the same, taken over from its row, or has taken over
      its row's status; new entries are taken over; none goes. */
  ghost predicate FromRows(mysql: map<string, Row>, before: map<string, Entry>, after: map<string, Entry>) {
    && before.Keys <= after.Keys
    && forall k :: k in after ==>
         || (k in before && after[k] == before[k])
         || (k in mysql && after[k] == Entry(mysql[k].status, mysql[k].details))
         || (k in mysql && k in before && after[k] == before[k].(status := mysql[k].status))
  }

  lemma FromRowsChain(mysql: map<string, Row>, a: map<string, Entry>, b: map<string, Entry>, c: map<string, Entry>)
    requires FromRows(mysql, a, b) && FromRows(mysql, b, c)
    ensures FromRows(mysql, a, c)
  {
  }

  lemma StaysSynced(tx: Tx, mysql: map<string, Row>, before: map<string, Entry>, after: map<string, Entry>)
    requires Synced(tx, mysql, before) && FromRows(mysql, before, after)
    ensures Synced(tx, mysql, after)
  {
  }

  /** Every record that was below the maximum and is gone has had its repair. */
  ghost predicate GoneAreSynced(max: int, before: map<string, Tx>, now: map<string, Tx>,
                                mysql: map<string, Row>, cache: map<string, Entry>)
  {
    forall id :: Find(before, id).Some? && Find(now, id).None? && Find(before, id).value.retries < max ==>
      Synced(Find(before, id).value, mysql, cache)
  }

  lemma RepairedOneMore(max: int, before: map<string, Tx>, now: map<string, Tx>, next: map<string, Tx>, todo: set<string>, id: string)
    requires Repaired(max, before, now) && Waiting(todo, before, now) && id in todo
    requires forall x :: x != id ==> Find(next, x) == Find(now, x)
    requires RepairResult(max, Find(now, id).value, Find(next, id))
    ensures Repaired(max, before, next) && Waiting(todo - {id}, before, next)
    ensures Clean(todo, now) && Find(next, id).None? ==> Clean(todo - {id}, next)
  {
    forall x ensures Find(next, x).Some? ==> Find(next, x).value.id == x {
      assert Find(now, x).Some? ==> Find(now, x).value.id == x;
      assert Find(now, id).value.id == id;
    }
  }

  lemma GoneOneMore(max: int, before: map<string, Tx>, now: map<string, Tx>, next: map<string, Tx>, id: string,
                    mysql: map<string, Row>, cached: map<string, Entry>, cache: map<string, Entry>)
    requires GoneAreSynced(max, before, now, mysql, cached) && FromRows(mysql, cached, cache)
    requires Find(now, id).Some? && Find(now, id) == Find(before, id)
    requires forall x :: x != id ==> Find(next, x) == Find(now, x)
    requires Find(next, id).None? && Find(now, id).value.retries < max ==> Synced(Find(now, id).value, mysql, cache)
    ensures GoneAreSynced(max, before, next, mysql, cache)
  {
    forall x | Find(before, x).Some? && Find(next, x).None? && Find(before, x).value.retries < max
      ensures Synced(Find(before, x).value, mysql, cache)
    {
      if x != id { StaysSynced(Find(before, x).value, mysql, cached, cache); }
    }
  }

  class DualStore {
    const maxRetries: int
    const batchSize: nat
    const hasCompensation: bool
    // Whether the n-th Redis command goes through.
    const up: nat -> bool
    var commands: nat
    var mysql: map<string, Row>
    var cache: map<string, Entry>
    var txs: map<string, Tx>
    // The effects of coordinated writes, in order.
    var effects: seq<Effect>

    constructor (maxRetries: int, batchSize: nat, hasCompensation: bool, up: nat -> bool,
                 mysql: map<string, Row>, cache: map<string, Entry>, txs: map<string, Tx>)
      ensures this.maxRetries == maxRetries && this.batchSize == batchSize && this.hasCompensation == hasCompensation
      ensures this.mysql == mysql && this.cache == cache && this.txs == txs && effects == []
    {
      this.maxRetries, this.batchSize, this.hasCompensation, this.up := maxRetries, batchSize, hasCompensation, up;
      this.mysql, this.cache, this.txs, commands, effects := mysql, cache, txs, 0, [];
    }

    /** Redis answers every command from now on. */
    ghost predicate NoFaults() reads this { forall n :: n >= commands ==> up(n) }

    /** Redis answers no command from now on. */
    ghost predicate Down() reads this { forall n :: n >= commands ==> !up(n) }

    /** One Redis command. */
    method Command() returns (ok: bool)
      modifies this`commands
      ensures commands == old(commands) + 1 && ok == up(old(commands))
    {
      ok := up(commands);
      commands := commands + 1;
    }

    /** _save_transaction: finished transactions are deleted, others stored. */
    method Save(tx: Tx) returns (ok: bool)
      modifies this`commands, this`txs
      ensures commands == old(commands) + 1 && ok == up(old(commands))
      ensures old(NoFaults()) ==> ok && NoFaults()
      ensures old(Down()) ==> !ok && Down()
      ensures !ok ==> txs == old(txs)
      ensures ok ==> txs == if tx.status.Committed? || tx.status.Expired? then old(txs) - {tx.id} else old(txs)[tx.id := tx]
    {
      ok := Command();
      if ok {
        if tx.status.Committed? || tx.status.Expired? { txs := txs - {tx.id}; } else { txs := txs[tx.id := tx]; }
      }
    }

    /** Saves a failed transaction twice, by the coordinator, which swallows its errors and
        leaves out whether MySQL was written, and by the compensation service, which does not. */
    method Park(tx: Tx) returns (ok: bool)
      requires tx.status.Failed?
      modifies this`commands, this`txs
      ensures ok <==> !hasCompensation || up(old(commands) + 1)
      ensures txs == if hasCompensation && up(old(commands) + 1) then old(txs)[tx.id := tx]
                     else if up(old(commands)) then old(txs)[tx.id := tx.(mysqlWritten := false)]
                     else old(txs)
    {
      var saved := Save(tx.(mysqlWritten := false));
      ok := true;
      if hasCompensation { ok := Save(tx); }
    }

    /** The coordinated write: MySQL first, then Redis; a failed Redis write leaves the
        transaction saved for compensation as far as Redis lets it. */
    method WriteAtomic(id: string, task: string, operation: string, row: Row, mysqlOk: bool) returns (r: WriteReply)
      modifies this
      ensures effects == old(effects)
        + (if mysqlOk then [MySqlWrite(id)] else [])
        + (if r.Returned? && r.tx.redisWritten then [RedisWrite(id)] else [])
      ensures mysql == if mysqlOk then old(mysql)[task := row] else old(mysql)
      ensures cache == if r.Returned? && r.tx.redisWritten then old(cache)[task := EntryOf(row)] else old(cache)
      ensures old(MySqlFirst(effects)) ==> MySqlFirst(effects)
      ensures r.Returned? ==>
        mysqlOk && r.tx == Tx(id, task, operation, if r.tx.redisWritten then Committed else Failed, true, r.tx.redisWritten, 0)
      ensures var tx := Tx(id, task, operation, Failed, true, false, 0);
        txs == if !mysqlOk || up(old(commands)) then old(txs)
               else if hasCompensation && up(old(commands) + 2) then old(txs)[id := tx]
               else if up(old(commands) + 1) then old(txs)[id := tx.(mysqlWritten := false)]
               else old(txs)
      ensures mysqlOk && old(NoFaults()) ==> r.Returned? && r.tx.redisWritten
      ensures r.Raised? <==> !mysqlOk || (hasCompensation && !up(old(commands)) && !up(old(commands) + 2))
      ensures r.Returned? ==> r.tx.redisWritten == up(old(commands))
    {
      var tx := Tx(id, task, operation, PendingRedis, false, false, 0);
      if !mysqlOk { return Raised; }
      PairKeepsOrder(effects, id);
      mysql, effects := mysql[task := row], effects + [MySqlWrite(id)];
      tx := tx.(mysqlWritten := true);
      var ok := Command();
      if ok {
        PairKeepsOrder(old(effects), id);
        cache, effects := cache[task := EntryOf(row)], effects + [RedisWrite(id)];
        tx := tx.(redisWritten := true, status := Committed);
        return Returned(tx);
      }
      tx := tx.(status := Failed);
      ok := Park(tx);
      r := if ok then Returned(tx) else Raised;
    }

    /** Everything but the record of tx and the cache entry of its task stays, and that entry
        only ever takes over what its row says. */
    twostate predicate OnlyConcerns(tx: Tx)
      reads this
    {
      && mysql == old(mysql) && effects == old(effects)
      && (forall x :: x != tx.id ==> Find(txs, x) == Find(old(txs), x))
      && cache - {tx.task} == old(cache) - {tx.task} && FromRows(mysql, old(cache), cache)
    }

    /** The Redis work of a repair. On an exception `tx'` is the transaction as it stands
        in memory. */
    method Redo(tx: Tx) returns (ok: bool, tx': Tx)
      requires NeedsRepair(tx) && tx.id in txs && txs[tx.id] == tx
      modifies this`commands, this`cache, this`txs
      ensures OnlyConcerns(tx)
      ensures ok ==> tx.id !in txs
      ensures !ok ==> txs == old(txs)
      ensures tx'.(status := tx.status, redisWritten := tx.redisWritten) == tx
      ensures tx' == tx || tx'.status.Committed? || tx'.status.Expired?
      ensures old(Down()) ==> !ok && Down() && cache == old(cache)
      ensures old(NoFaults()) ==> ok && NoFaults()
      ensures ok || tx' != tx ==> Synced(tx, mysql, cache)
      ensures tx.operation != "create_task" ==> cache.Keys == old(cache).Keys
      ensures !ok && tx' == tx ==> cache == old(cache)
    {
      tx' := tx;
      if tx.operation !in ["create_task", "update_status"] || tx.task !in mysql {
        tx' := tx.(status := Expired);
        ok := Save(tx');
        return;
      }
      var row := mysql[tx.task];
      if tx.operation == "create_task" {
        ok := Command();
        if !ok { return; }
        cache := cache[tx.task := EntryOf(row)];
      } else {
        ok := Command();
        if !ok { return; }
        if tx.task in cache {
          ok := Command();
          if !ok { return; }
          cache := cache[tx.task := cache[tx.task].(status := row.status)];
        }
      }
      tx' := tx.(status := Committed, redisWritten := true);
      ok := Save(tx');
    }

    /** One repair: the saved record is removed, or stored again with one more retry, which
        only happens below maxRetries, or its bookkeeping failed too and the repair raises. */
    method RepairTransaction(tx: Tx) returns (ok: bool)
      requires NeedsRepair(tx) && tx.id in txs && txs[tx.id] == tx
      modifies this`commands, this`cache, this`txs
      ensures OnlyConcerns(tx)
      ensures RepairResult(maxRetries, tx, Find(txs, tx.id)) && (Find(txs, tx.id) == Some(tx) <==> !ok)
      ensures old(NoFaults()) ==> ok && NoFaults() && tx.id !in txs
      ensures old(Down()) ==> !ok && Down() && txs == old(txs) && cache == old(cache)
      ensures tx.operation != "create_task" ==> cache.Keys == old(cache).Keys
      ensures tx.retries < maxRetries && tx.id !in txs ==> Synced(tx, mysql, cache)
      ensures tx.retries >= maxRetries ==> cache == old(cache)
    {
      if tx.retries >= maxRetries {
        ok := Save(tx.(status := Expired));
        return;
      }
      var tx';
      ok, tx' := Redo(tx);
      if !ok {
        ok := Save(tx'.(retries := tx'.retries + 1));
      }
    }

    /** The same record repaired pass after pass, at most n times. `raised` says whether some
        repair did, which leaves the record as it was. */
    method RepairRepeatedly(id: string, n: nat) returns (raised: bool, ghost hist: seq<Option<Tx>>)
      requires id in txs && txs[id].id == id && NeedsRepair(txs[id])
      modifies this`commands, this`cache, this`txs
      ensures |hist| == n + 1 && hist[0] == Some(old(txs)[id]) && hist[n] == Find(txs, id)
      ensures RepairHistory(maxRetries, hist) && (!raised <==> NoneRaised(hist))
      ensures !raised && n >= RepairsLeft(maxRetries, old(txs)[id].retries) ==> id !in txs
      ensures old(Down()) ==> Down() && txs == old(txs)
      ensures old(NoFaults()) && n >= 1 ==> id !in txs && !raised
    {
      raised, hist := false, [Some(txs[id])];
      for i := 0 to n
        invariant |hist| == i + 1 && hist[0] == Some(old(txs)[id]) && hist[i] == Find(txs, id)
        invariant RepairHistory(maxRetries, hist) && (!raised <==> NoneRaised(hist))
        invariant id in txs ==> txs[id].id == id && NeedsRepair(txs[id])
        invariant old(Down()) ==> Down() && txs == old(txs)
        invariant old(NoFaults()) ==> NoFaults() && !raised && (i >= 1 ==> id !in txs)
      {
        ghost var before := hist;
        if id in txs {
          var ok := RepairTransaction(txs[id]);
          raised := raised || !ok;
        }
        hist := hist + [Find(txs, id)];
        HistoryGrows(maxRetries, before, Find(txs, id));
      }
      if !raised { RepairsEnd(maxRetries, hist, n); }
    }

    /** The rows that should be cached: recent, and queued, running or scheduled. */
    ghost function ActiveIds(): (ids: set<string>)
      reads this
      ensures forall t :: t in ids <==>
        t in mysql && mysql[t].recent
        && (mysql[t].status == "queued" || mysql[t].status == "running" || mysql[t].status == "scheduled")
    {
      set t | t in mysql && Active(mysql[t])
    }

    /** Part one of a pass: repair every transaction found pending, in any order. */
    method RepairPending() returns (ok: bool)
      requires WellKeyed(txs)
      modifies this`commands, this`cache, this`txs
      ensures mysql == old(mysql) && effects == old(effects) && FromRows(mysql, old(cache), cache)
      ensures Repaired(maxRetries, old(txs), txs) && GoneAreSynced(maxRetries, old(txs), txs, mysql, cache)
      ensures old(NoFaults()) ==> ok && NoFaults() && Clean({}, txs)
    {
      ok := true;
      var scanned := Command();
      if !scanned { return; }
      var todo := set id | id in txs && NeedsRepair(txs[id]);
      while todo != {}
        invariant mysql == old(mysql) && effects == old(effects) && FromRows(mysql, old(cache), cache) && ok
        invariant GoneAreSynced(maxRetries, old(txs), txs, mysql, cache)
        invariant Repaired(maxRetries, old(txs), txs) && Waiting(todo, old(txs), txs)
        invariant old(NoFaults()) ==> NoFaults() && Clean(todo, txs)
      {
        var id :| id in todo;
        ghost var before, cached := txs, cache;
        assert Find(txs, id).Some? && Find(txs, id).value.id == id;
        ok := RepairTransaction(txs[id]);
        FromRowsChain(mysql, old(cache), cached, cache);
        GoneOneMore(maxRetries, old(txs), before, txs, id, mysql, cached, cache);
        RepairedOneMore(maxRetries, old(txs), before, txs, todo, id);
        todo := todo - {id};
        if !ok { return; }
      }
    }

    /** Part two of a pass: the entries of the picked rows that are missing. */
    method RestoreMissing(picked: set<string>)
      requires forall t :: t in picked ==> t in mysql
      modifies this`commands, this`cache
      ensures FromRows(mysql, old(cache), cache) && (old(NoFaults()) ==> NoFaults() && picked <= cache.Keys)
      ensures cache.Keys <= old(cache).Keys + picked && (old(Down()) ==> Down() && cache == old(cache))
      ensures forall k :: k in old(cache) ==> k in cache && cache[k] == old(cache)[k]
    {
      var todo := picked - cache.Keys;
      while todo != {}
        invariant todo <= picked && todo !! old(cache).Keys && FromRows(mysql, old(cache), cache)
        invariant old(NoFaults()) ==> NoFaults() && picked - todo <= cache.Keys
        invariant cache.Keys <= old(cache).Keys + picked && (old(Down()) ==> Down() && cache == old(cache))
        invariant forall k :: k in old(cache) ==> k in cache && cache[k] == old(cache)[k]
      {
        var t :| t in todo;
        var done := Command();
        if done { cache := cache[t := EntryOf(mysql[t])]; }
        todo := todo - {t};
      }
    }

    /** The whole pass. `picked` are the rows MySQL returns under the LIMIT. */
    method ScanAndRepair(picked: set<string>) returns (ok: bool)
      requires WellKeyed(txs) && picked <= ActiveIds()
      requires |picked| == if |ActiveIds()| <= batchSize then |ActiveIds()| else batchSize
      modifies this`commands, this`cache, this`txs
      ensures mysql == old(mysql) && effects == old(effects) && FromRows(mysql, old(cache), cache)
      ensures Repaired(maxRetries, old(txs), txs) && GoneAreSynced(maxRetries, old(txs), txs, mysql, cache)
      ensures old(NoFaults()) ==> ok && (forall id :: id in txs ==> !txs[id].status.PendingRedis? && !txs[id].status.Failed?) && picked <= cache.Keys
      ensures old(NoFaults()) && |ActiveIds()| <= batchSize ==> ActiveIds() <= cache.Keys
    {
      ok := RepairPending();
      if !ok { return; }
      assert old(NoFaults()) ==> forall id :: id in txs ==> Find(txs, id).Some? && !NeedsRepair(Find(txs, id).value);
      if |ActiveIds()| <= batchSize { SameSize(picked, ActiveIds()); }
      if picked == {} { return; }
      ok := Command();
      if !ok { return; }
      ghost var before := cache;
      RestoreMissing(picked);
      FromRowsChain(mysql, old(cache), before, cache);
      ScanKeepsSynced(maxRetries, old(txs), txs, mysql, before, cache);
    }
  }

  lemma ScanKeepsSynced(max: int, before: map<string, Tx>, now: map<string, Tx>, mysql: map<string, Row>,
                        cached: map<string, Entry>, cache: map<string, Entry>)
    requires GoneAreSynced(max, before, now, mysql, cached) && FromRows(mysql, cached, cache)
    ensures GoneAreSynced(max, before, now, mysql, cache)
  {
    forall x | Find(before, x).Some? && Find(now, x).None? && Find(before, x).value.retries < max
      ensures Synced(Find(before, x).value, mysql, cache)
    {
      StaysSynced(Find(before, x).value, mysql, cached, cache);
    }
  }

  lemma SameSize(a: set<string>, b: set<string>)
    requires a <= b && |a| == |b|
    ensures a == b
  {
    assert a + (b - a) == b && |a + (b - a)| == |a| + |b - a|;
  }
}
