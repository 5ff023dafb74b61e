/**
  The CURP master's tables: what was executed, and what of it has not been synced. The state also
  remembers, for the proofs, every call of execute_op in order and how many of them a sync covers.
*/
module CurpSpec {
  import opened Types
  import opened KeyValue
  import opened WitnessSpec

  datatype ProposeResult = ProposeResult(success: bool, fastPath: bool, needSync: bool, error: string)

  datatype Tables = Tables(unsyncedKeys: set<Bytes>, unsyncedOps: map<nat, CurpOp>, executedOps: map<nat, Bytes>)

  const NO_TABLES := Tables({}, map[], map[])

  /** The tables, with every call of execute_op so far, in order, and how many of them are synced. */
  datatype Master = Master(tables: Tables, trace: seq<CurpOp>, synced: nat)

  const NEW_MASTER := Master(NO_TABLES, [], 0)

  /** mark_unsynced, execute_op and record_executed, in whichever order. */
  function Execute(m: Master, o: CurpOp): Master {
    var t := m.tables;
    Master(Tables(t.unsyncedKeys + {o.key}, t.unsyncedOps[o.rpcId := o], t.executedOps[o.rpcId := []]), m.trace + [o], m.synced)
  }

  /** can_speculative_execute: the same test for each of the three types. */
  predicate CanSpeculate(t: Tables, o: CurpOp) {
    o.key !in t.unsyncedKeys
  }

  predicate FastPath(t: Tables, o: CurpOp) {
    o.rpcId !in t.executedOps && CanSpeculate(t, o)
  }

  /** The critical section of propose. */
  function Propose(m: Master, o: CurpOp): (Master, ProposeResult) {
    if o.rpcId in m.tables.executedOps then (m, ProposeResult(true, true, false, ""))
    else if CanSpeculate(m.tables, o) then (Execute(m, o), ProposeResult(true, true, false, ""))
    else (m, ProposeResult(false, false, true, "key conflict"))
  }

  /** A replayed record becomes a PUT of the serialized request. */
  function OpOf(r: WitnessRecord): CurpOp {
    CurpOp(r.rpcId, r.clientId, PUT, r.key, r.requestData)
  }

  function Replay(m: Master, records: seq<WitnessRecord>): Master {
    if records == [] then m
    else
      var before, r := Replay(m, records[..|records| - 1]), records[|records| - 1];
      if r.rpcId in before.tables.executedOps then before else Execute(before, OpOf(r))
  }

  /** do_sync, on the tables. */
  function Sync(m: Master): Master {
    if |m.tables.unsyncedOps| == 0 then m
    else Master(m.tables.(unsyncedKeys := {}, unsyncedOps := map[]), m.trace, |m.trace|)
  }

  // ---- Runs ------------------------------------------------------------------------------

  /** Each event is one critical section; a propose whose check of the state came earlier is a propose all the same. */
  datatype Event =
    | EPropose(o: CurpOp)
    | EReplay(records: seq<WitnessRecord>)
    | ESync

  function Next(m: Master, e: Event): Master {
    match e
    case EPropose(o) => Propose(m, o).0
    case EReplay(records) => Replay(m, records)
    case ESync => Sync(m)
  }

  function After(es: seq<Event>): Master {
    if es == [] then NEW_MASTER else Next(After(es[..|es| - 1]), es[|es| - 1])
  }

  // ---- The tables ------------------------------------------------------------------------

  /** The operations executed since the last sync, in execution order. */
  function Pending(m: Master): seq<CurpOp>
    requires m.synced <= |m.trace|
  {
    m.trace[m.synced..]
  }

  ghost predicate HasId(ops: seq<CurpOp>, id: nat) {
    exists i :: 0 <= i < |ops| && ops[i].rpcId == id
  }

  ghost predicate HasKey(ops: seq<CurpOp>, key: Bytes) {
    exists i :: 0 <= i < |ops| && ops[i].key == key
  }

  ghost predicate DistinctIds(ops: seq<CurpOp>) {
    forall i, j :: 0 <= i < j < |ops| ==> ops[i].rpcId != ops[j].rpcId
  }

  /** The unsynced tables list exactly these operations. */
  ghost predicate Lists(t: Tables, ops: seq<CurpOp>) {
    && (forall i :: 0 <= i < |ops| ==> ops[i].rpcId in t.unsyncedOps && t.unsyncedOps[ops[i].rpcId] == ops[i])
    && (forall id :: id in t.unsyncedOps ==> t.unsyncedOps[id] in ops && t.unsyncedOps[id].rpcId == id)
    && (forall k :: k in t.unsyncedKeys <==> HasKey(ops, k))
  }

  /**
    No operation ran twice; executed_ops_ has exactly the ids of those that ran; the unsynced tables
    list exactly those that ran since the last sync.
  */
  ghost predicate TablesOk(m: Master) {
    && m.synced <= |m.trace| && DistinctIds(m.trace)
    && (forall id :: id in m.tables.executedOps <==> HasId(m.trace, id))
    && (forall id :: id in m.tables.executedOps ==> m.tables.executedOps[id] == [])
    && Lists(m.tables, Pending(m))
  }

  lemma HasMore(ops: seq<CurpOp>, o: CurpOp)
    ensures forall id :: HasId(ops + [o], id) <==> HasId(ops, id) || id == o.rpcId
    ensures forall k :: HasKey(ops + [o], k) <==> HasKey(ops, k) || k == o.key
  {
    var more := ops + [o];
    assert more[|ops|] == o;
    forall id | HasId(ops, id) ensures HasId(more, id) {
      var i :| 0 <= i < |ops| && ops[i].rpcId == id;
      assert more[i] == ops[i];
    }
    forall k | HasKey(ops, k) ensures HasKey(more, k) {
      var i :| 0 <= i < |ops| && ops[i].key == k;
      assert more[i] == ops[i];
    }
  }

  lemma ExecuteLists(m: Master, o: CurpOp)
    requires TablesOk(m) && o.rpcId !in m.tables.executedOps
    ensures Lists(Execute(m, o).tables, Pending(m) + [o])
  {
    hide HasKey, DistinctIds, HasId;
    HasMore(Pending(m), o);
    NewIdNotPending(m, o.rpcId);
  }

  lemma NewIdNotPending(m: Master, id: nat)
    requires m.synced <= |m.trace| && !HasId(m.trace, id)
    ensures forall i :: 0 <= i < |Pending(m)| ==> Pending(m)[i].rpcId != id
  {
    forall i | 0 <= i < |Pending(m)| ensures Pending(m)[i].rpcId != id {
      assert m.trace[m.synced + i] == Pending(m)[i];
    }
  }

  lemma ExecuteOk(m: Master, o: CurpOp)
    requires TablesOk(m) && o.rpcId !in m.tables.executedOps
    ensures TablesOk(Execute(m, o)) && Pending(Execute(m, o)) == Pending(m) + [o]
  {
    hide Lists, HasId, HasKey, DistinctIds;
    HasMore(m.trace, o);
    NewIdDistinct(m.trace, o);
    ExecuteLists(m, o);
    assert Pending(Execute(m, o)) == Pending(m) + [o];
  }

  lemma NewIdDistinct(ops: seq<CurpOp>, o: CurpOp)
    requires DistinctIds(ops) && !HasId(ops, o.rpcId)
    ensures DistinctIds(ops + [o])
  {
  }

  lemma {:induction false} ReplayOk(m: Master, records: seq<WitnessRecord>)
    requires TablesOk(m)
    ensures TablesOk(Replay(m, records)) && Replay(m, records).synced == m.synced
    ensures m.trace <= Replay(m, records).trace
  {
    if records != [] {
      hide TablesOk;
      ReplayOk(m, records[..|records| - 1]);
      var before, r := Replay(m, records[..|records| - 1]), records[|records| - 1];
      if r.rpcId !in before.tables.executedOps {
        ExecuteOk(before, OpOf(r));
      }
    }
  }

  lemma SyncOk(m: Master)
    requires TablesOk(m)
    ensures TablesOk(Sync(m))
  {
  }

  /**
    After a sync nothing is unsynced: no key, no operation, nothing pending. What ran, and what is known
    to have run, is as before, and the synced store is the store that execution gave.
  */
  lemma SyncExactly(es: seq<Event>)
    ensures var m, m' := After(es), After(es + [ESync]);
      && m'.tables == Tables({}, map[], m.tables.executedOps)
      && m'.trace == m.trace && m'.synced == |m.trace|
      && ApplyAll(map[], m'.trace[..m'.synced]) == ApplyAll(map[], m.trace)
  {
    assert (es + [ESync])[..|es|] == es;
    TablesAgree(es);
    var m := After(es);
    if |m.tables.unsyncedOps| == 0 {
      NothingUnsynced(m);
    }
    assert m.trace[..|m.trace|] == m.trace;
  }

  lemma FirstListed(t: Tables, ops: seq<CurpOp>)
    requires Lists(t, ops) && |ops| > 0
    ensures |t.unsyncedOps| > 0
  {
    assert ops[0].rpcId in t.unsyncedOps;
  }

  lemma NothingUnsynced(m: Master)
    requires TablesOk(m) && |m.tables.unsyncedOps| == 0
    ensures m.tables.unsyncedOps == map[] && m.tables.unsyncedKeys == {} && m.synced == |m.trace|
  {
    if |Pending(m)| > 0 {
      FirstListed(m.tables, Pending(m));
      assert false;
    }
    forall k ensures k !in m.tables.unsyncedKeys {
      assert !HasKey([], k);
    }
  }

  /** So after a sync any operation that did not run yet takes the fast path, whatever its key, and every key can be read. */
  lemma SyncLetsProceed(es: seq<Event>, o: CurpOp)
    requires !HasId(After(es).trace, o.rpcId)
    ensures var m := After(es + [ESync]);
      && o.key !in m.tables.unsyncedKeys
      && Propose(m, o).1 == ProposeResult(true, true, false, "")
      && Propose(m, o).0.trace == After(es).trace + [o]
  {
    SyncExactly(es);
    TablesAgree(es);
    hide After, Lists, HasId;
  }

  lemma NextOk(m: Master, e: Event)
    requires TablesOk(m)
    ensures TablesOk(Next(m, e))
  {
    hide TablesOk;
    match e
    case EPropose(o) =>
      if FastPath(m.tables, o) {
        ExecuteOk(m, o);
      }
    case EReplay(records) => ReplayOk(m, records);
    case ESync => SyncOk(m);
  }

  /** Over every run no operation runs twice, and the tables agree with what ran. */
  lemma {:induction false} TablesAgree(es: seq<Event>)
    ensures TablesOk(After(es))
  {
    if es != [] {
      TablesAgree(es[..|es| - 1]);
      NextOk(After(es[..|es| - 1]), es[|es| - 1]);
    }
  }

  /** Whatever happened before, a propose succeeds exactly if its operation has then been executed, now or earlier. */
  lemma SuccessMeansExecuted(es: seq<Event>, o: CurpOp)
    ensures var m := After(es);
      var (m', result) := Propose(m, o);
      && (result.success <==> HasId(m'.trace, o.rpcId)) && (result.needSync <==> !result.success)
      && (result.fastPath <==> result.success) && result.error == (if result.success then "" else "key conflict")
      && (result.success <==> HasId(m.trace, o.rpcId) || (m.synced <= |m.trace| && !HasKey(Pending(m), o.key)))
      && (m'.trace == m.trace || m'.trace == m.trace + [o])
  {
    var m := After(es);
    TablesAgree(es);
    HasMore(m.trace, o);
    assert o.key in m.tables.unsyncedKeys <==> HasKey(Pending(m), o.key);
    hide After, Lists, HasKey, HasId;
  }

  // ---- Distinct keys ---------------------------------------------------------------------

  /** The replay executes record i: its id is new to the master and to the records before. */
  predicate Replays(t: Tables, records: seq<WitnessRecord>, i: nat)
    requires i < |records|
  {
    records[i].rpcId !in t.executedOps && forall j :: 0 <= j < i ==> records[j].rpcId != records[i].rpcId
  }

  /** No two records to be executed, and no such record and an unsynced operation, have the same key. */
  predicate NoClash(t: Tables, records: seq<WitnessRecord>) {
    && (forall i :: 0 <= i < |records| && Replays(t, records, i) ==> records[i].key !in t.unsyncedKeys)
    && (forall i, j :: 0 <= i < j < |records| && Replays(t, records, i) && Replays(t, records, j) ==>
        records[i].key != records[j].key)
  }

  ghost predicate KeysDistinct(m: Master)
    requires m.synced <= |m.trace|
  {
    DistinctKeys(Pending(m))
  }

  lemma DistinctMore(ops: seq<CurpOp>, o: CurpOp)
    ensures DistinctKeys(ops + [o]) <==> DistinctKeys(ops) && !HasKey(ops, o.key)
  {
    var more := ops + [o];
    assert forall i :: 0 <= i < |ops| ==> more[i] == ops[i];
    assert more[|ops|] == o;
    if DistinctKeys(more) {
      forall i, j | 0 <= i < j < |ops| ensures ops[i].key != ops[j].key {
        assert more[i].key != more[j].key;
      }
      forall i | 0 <= i < |ops| ensures ops[i].key != o.key {
        assert more[i].key != more[|ops|].key;
      }
    }
  }

  lemma ExecuteKeys(m: Master, o: CurpOp)
    requires TablesOk(m) && o.rpcId !in m.tables.executedOps
    ensures TablesOk(Execute(m, o))
    ensures KeysDistinct(Execute(m, o)) <==> KeysDistinct(m) && o.key !in m.tables.unsyncedKeys
  {
    ExecuteOk(m, o);
    assert HasKey(Pending(m), o.key) <==> o.key in m.tables.unsyncedKeys;
    hide TablesOk, DistinctKeys, HasKey;
    DistinctMore(Pending(m), o);
  }

  ghost predicate IdIn(records: seq<WitnessRecord>, id: nat) {
    exists i :: 0 <= i < |records| && records[i].rpcId == id
  }

  /** The replay executes a record with this key. */
  ghost predicate KeyReplayed(t: Tables, records: seq<WitnessRecord>, key: Bytes) {
    exists i :: 0 <= i < |records| && Replays(t, records, i) && records[i].key == key
  }

  lemma OneMoreRecord(t: Tables, records: seq<WitnessRecord>)
    requires records != []
    ensures var n := |records| - 1;
      && (forall id :: IdIn(records, id) <==> IdIn(records[..n], id) || id == records[n].rpcId)
      && (forall k :: KeyReplayed(t, records, k) <==>
          KeyReplayed(t, records[..n], k) || (Replays(t, records, n) && k == records[n].key))
      && (Replays(t, records, n) <==> records[n].rpcId !in t.executedOps && !IdIn(records[..n], records[n].rpcId))
      && (forall i :: 0 <= i < n ==> (Replays(t, records[..n], i) <==> Replays(t, records, i)))
  {
  }

  /** Which ids and keys a replay adds. */
  lemma {:induction false} ReplayAdds(m: Master, records: seq<WitnessRecord>)
    ensures var t := Replay(m, records).tables;
      && (forall id :: id in t.executedOps <==> id in m.tables.executedOps || IdIn(records, id))
      && (forall k :: k in t.unsyncedKeys <==> k in m.tables.unsyncedKeys || KeyReplayed(m.tables, records, k))
  {
    if records != [] {
      ReplayAdds(m, records[..|records| - 1]);
      OneMoreRecord(m.tables, records);
      hide IdIn, KeyReplayed, Replays;
    }
  }

  /** The last record, if it is to be executed, clashes with nothing before. */
  ghost predicate LastFits(t: Tables, records: seq<WitnessRecord>, n: nat)
    requires n < |records|
  {
    Replays(t, records, n) ==> records[n].key !in t.unsyncedKeys && !KeyReplayed(t, records[..n], records[n].key)
  }

  lemma ReplaysBefore(t: Tables, records: seq<WitnessRecord>, i: nat)
    requires i < |records| - 1
    ensures Replays(t, records[..|records| - 1], i) <==> Replays(t, records, i)
    ensures Replays(t, records, i) ==> KeyReplayed(t, records[..|records| - 1], records[i].key)
  {
  }

  lemma KeyClashes(t: Tables, records: seq<WitnessRecord>, n: nat)
    requires n == |records| - 1 && Replays(t, records, n) && KeyReplayed(t, records[..n], records[n].key)
    ensures !NoClash(t, records)
  {
    var i :| 0 <= i < n && Replays(t, records[..n], i) && records[..n][i].key == records[n].key;
    ReplaysBefore(t, records, i);
    hide Replays;
  }

  lemma NoClashLess(t: Tables, records: seq<WitnessRecord>, n: nat)
    requires n == |records| - 1 && NoClash(t, records)
    ensures NoClash(t, records[..n]) && LastFits(t, records, n)
  {
    hide Replays, KeyReplayed;
    var init := records[..n];
    forall i | 0 <= i < n && Replays(t, init, i) ensures init[i].key !in t.unsyncedKeys {
      ReplaysBefore(t, records, i);
    }
    forall i, j | 0 <= i < j < n && Replays(t, init, i) && Replays(t, init, j) ensures init[i].key != init[j].key {
      ReplaysBefore(t, records, i);
      ReplaysBefore(t, records, j);
      assert records[i].key != records[j].key;
    }
    if Replays(t, records, n) && KeyReplayed(t, init, records[n].key) {
      KeyClashes(t, records, n);
      assert false;
    }
  }

  lemma NoClashMore(t: Tables, records: seq<WitnessRecord>, n: nat)
    requires n == |records| - 1 && NoClash(t, records[..n]) && LastFits(t, records, n)
    ensures NoClash(t, records)
  {
    hide Replays, KeyReplayed;
    var init := records[..n];
    forall i | 0 <= i <= n && Replays(t, records, i) ensures records[i].key !in t.unsyncedKeys {
      if i < n {
        ReplaysBefore(t, records, i);
        assert init[i].key !in t.unsyncedKeys;
      }
    }
    forall i, j | 0 <= i < j <= n && Replays(t, records, i) && Replays(t, records, j) ensures records[i].key != records[j].key {
      ReplaysBefore(t, records, i);
      if j < n {
        ReplaysBefore(t, records, j);
        assert init[i].key != init[j].key;
      }
    }
  }

  /** A replay leaves the unsynced operations with distinct keys exactly if no two of the keys involved clash. */
  lemma {:induction false} ReplayKeysExactly(m: Master, records: seq<WitnessRecord>)
    requires TablesOk(m) && KeysDistinct(m)
    ensures TablesOk(Replay(m, records))
    ensures KeysDistinct(Replay(m, records)) <==> NoClash(m.tables, records)
  {
    hide TablesOk;
    ReplayOk(m, records);
    if records != [] {
      var n := |records| - 1;
      var before := Replay(m, records[..n]);
      ReplayKeysExactly(m, records[..n]);
      ReplayAdds(m, records[..n]);
      OneMoreRecord(m.tables, records);
      if NoClash(m.tables, records) { NoClashLess(m.tables, records, n); }
      if NoClash(m.tables, records[..n]) && LastFits(m.tables, records, n) { NoClashMore(m.tables, records, n); }
      hide NoClash, Replays, IdIn, KeyReplayed, KeysDistinct;
      if records[n].rpcId !in before.tables.executedOps {
        ExecuteKeys(before, OpOf(records[n]));
      }
    }
  }

  /** On a master with nothing unsynced, the records of one witness never clash, in whatever order it returns them. */
  lemma WitnessRecordsNoClash(t: Tables, w: State, records: seq<WitnessRecord>)
    requires t.unsyncedKeys == {} && Enumerates(records, w.records)
    ensures NoClash(t, records)
  {
  }

  lemma NothingPending(m: Master)
    requires TablesOk(m) && m.tables.unsyncedKeys == {}
    ensures Pending(m) == [] && m.synced == |m.trace| && KeysDistinct(m)
  {
    if Pending(m) != [] {
      assert HasKey(Pending(m), Pending(m)[0].key);
      assert false;
    }
  }

  /** Every replay of the run is one whose keys do not clash. */
  ghost predicate CleanReplays(es: seq<Event>) {
    forall i :: 0 <= i < |es| && es[i].EReplay? ==> NoClash(After(es[..i]).tables, es[i].records)
  }

  lemma NextKeys(m: Master, e: Event)
    requires TablesOk(m) && KeysDistinct(m) && (e.EReplay? ==> NoClash(m.tables, e.records))
    ensures TablesOk(Next(m, e)) && KeysDistinct(Next(m, e))
  {
    hide TablesOk, KeysDistinct, NoClash;
    NextOk(m, e);
    match e
    case EPropose(o) =>
      if FastPath(m.tables, o) {
        ExecuteKeys(m, o);
      }
    case EReplay(records) => ReplayKeysExactly(m, records);
    case ESync => SyncKeys(m);
  }

  lemma SyncKeys(m: Master)
    requires TablesOk(m) && KeysDistinct(m)
    ensures TablesOk(Sync(m)) && KeysDistinct(Sync(m))
  {
    SyncOk(m);
    hide TablesOk;
  }

  /** Then the unsynced operations have pairwise distinct keys throughout. */
  lemma {:induction false} KeysStayDistinct(es: seq<Event>)
    requires CleanReplays(es)
    ensures TablesOk(After(es)) && KeysDistinct(After(es))
  {
    hide CleanReplays, TablesOk, KeysDistinct, NoClash, Next;
    TablesAgree(es);
    if es == [] {
      NothingPending(After(es));
    } else {
      CleanLess(es);
      KeysStayDistinct(es[..|es| - 1]);
      NextKeys(After(es[..|es| - 1]), es[|es| - 1]);
    }
  }

  lemma CleanLess(es: seq<Event>)
    requires CleanReplays(es) && es != []
    ensures var n := |es| - 1;
      CleanReplays(es[..n]) && (es[n].EReplay? ==> NoClash(After(es[..n]).tables, es[n].records))
  {
    var n := |es| - 1;
    assert forall i :: 0 <= i < n ==> es[..n][i] == es[i] && es[..n][..i] == es[..i];
    hide NoClash, After;
  }

  // ---- Speculative batches commute -------------------------------------------------------

  /** All of the unsynced operations, in some order. */
  ghost predicate EnumeratesOps(order: seq<CurpOp>, t: Tables) {
    && (forall i :: 0 <= i < |order| ==> order[i].rpcId in t.unsyncedOps && t.unsyncedOps[order[i].rpcId] == order[i])
    && (forall id :: id in t.unsyncedOps ==> t.unsyncedOps[id] in order)
    && DistinctIds(order)
  }

  lemma OneMoreId(ops: seq<CurpOp>, o: CurpOp)
    requires DistinctIds(ops) && forall i :: 0 <= i < |ops| ==> ops[i].rpcId != o.rpcId
    ensures DistinctIds(ops + [o])
  {
  }

  lemma OrderIsPending(m: Master, order: seq<CurpOp>)
    requires TablesOk(m) && KeysDistinct(m) && EnumeratesOps(order, m.tables)
    ensures SameOps(order, Pending(m)) && DistinctKeys(order)
  {
  }

  /**
    Applying the unsynced operations in any order to what was synced gives the store that execution
    order gave. So the order in which a sync, or a recovery, takes them does not matter.
  */
  lemma AnySyncOrder(es: seq<Event>, order: seq<CurpOp>)
    requires CleanReplays(es) && EnumeratesOps(order, After(es).tables)
    ensures var m := After(es);
      m.synced <= |m.trace| && ApplyAll(ApplyAll(map[], m.trace[..m.synced]), order) == ApplyAll(map[], m.trace)
  {
    var m := After(es);
    KeysStayDistinct(es);
    OrderIsPending(m, order);
    assert m.trace == m.trace[..m.synced] + Pending(m);
    ApplyAllConcat(map[], m.trace[..m.synced], Pending(m));
    BatchesCommute(ApplyAll(map[], m.trace[..m.synced]), order, Pending(m));
  }

  /** A read is answered only for a key that no unsynced operation touched: syncing changes nothing about it. */
  lemma AnsweredReadIsSynced(es: seq<Event>, key: Bytes)
    requires key !in After(es).tables.unsyncedKeys
    ensures var m := After(es);
      m.synced <= |m.trace| && AgreeOn(ApplyAll(map[], m.trace), ApplyAll(map[], m.trace[..m.synced]), key)
  {
    var m := After(es);
    TablesAgree(es);
    assert !HasKey(Pending(m), key);
    assert m.trace == m.trace[..m.synced] + Pending(m);
    ApplyAllConcat(map[], m.trace[..m.synced], Pending(m));
    Untouched(ApplyAll(map[], m.trace[..m.synced]), Pending(m), key);
  }

  // ---- One fast path per key -------------------------------------------------------------

  lemma KeyStaysOnce(m: Master, e: Event, key: Bytes)
    requires key in m.tables.unsyncedKeys && !e.ESync?
    ensures key in Next(m, e).tables.unsyncedKeys
  {
    hide Replay, KeyReplayed, IdIn;
    if e.EReplay? {
      ReplayAdds(m, e.records);
    }
  }

  lemma {:induction false} KeyStays(es: seq<Event>, a: nat, b: nat, key: Bytes)
    requires a <= b <= |es| && key in After(es[..a]).tables.unsyncedKeys
    requires forall i :: a <= i < b ==> !es[i].ESync?
    ensures key in After(es[..b]).tables.unsyncedKeys
    decreases b
  {
    if a < b {
      hide Next, Replay, KeyReplayed, IdIn;
      KeyStays(es, a, b - 1, key);
      assert es[..b][..b - 1] == es[..b - 1];
      KeyStaysOnce(After(es[..b - 1]), es[b - 1], key);
    }
  }

  /** Between two fast-path executions on one key there is a sync. */
  lemma FastPathsSeparated(es: seq<Event>, a: nat, b: nat)
    requires a < b < |es| && es[a].EPropose? && es[b].EPropose? && es[a].o.key == es[b].o.key
    requires FastPath(After(es[..a]).tables, es[a].o) && FastPath(After(es[..b]).tables, es[b].o)
    ensures exists i :: a < i < b && es[i].ESync?
  {
    assert es[..a + 1][..a] == es[..a];
    if forall i :: a + 1 <= i < b ==> !es[i].ESync? {
      KeyStays(es, a + 1, b, es[a].o.key);
      assert false;
    }
  }

  // ---- Recovery order --------------------------------------------------------------------

  /** The replay executes this operation. */
  ghost predicate OpReplayed(t: Tables, records: seq<WitnessRecord>, o: CurpOp) {
    exists i :: 0 <= i < |records| && Replays(t, records, i) && OpOf(records[i]) == o
  }

  lemma OneMoreOp(t: Tables, records: seq<WitnessRecord>, o: CurpOp)
    requires records != []
    ensures var n := |records| - 1;
      OpReplayed(t, records, o) <==> OpReplayed(t, records[..n], o) || (Replays(t, records, n) && o == OpOf(records[n]))
  {
    var n := |records| - 1;
    var init := records[..n];
    assert forall i :: 0 <= i < n ==> init[i] == records[i];
    OneMoreRecord(t, records);
    hide Replays;
    if OpReplayed(t, init, o) {
      var i :| 0 <= i < n && Replays(t, init, i) && OpOf(init[i]) == o;
      assert Replays(t, records, i) && OpOf(records[i]) == o;
    }
    if OpReplayed(t, records, o) {
      var i :| 0 <= i <= n && Replays(t, records, i) && OpOf(records[i]) == o;
      assert i < n ==> Replays(t, init, i) && OpOf(init[i]) == o;
    }
  }

  /** The operations a replay leaves unsynced: those there were, and one for each record whose id is new. */
  lemma {:induction false} ReplayPending(m: Master, records: seq<WitnessRecord>)
    requires TablesOk(m)
    ensures TablesOk(Replay(m, records))
    ensures forall o :: o in Pending(Replay(m, records)) <==> o in Pending(m) || OpReplayed(m.tables, records, o)
  {
    hide TablesOk, Replays, KeyReplayed, IdIn;
    ReplayOk(m, records);
    if records != [] {
      hide OpReplayed;
      var n := |records| - 1;
      var before := Replay(m, records[..n]);
      ReplayPending(m, records[..n]);
      ReplayAdds(m, records[..n]);
      OneMoreRecord(m.tables, records);
      forall o ensures OpReplayed(m.tables, records, o) <==>
        OpReplayed(m.tables, records[..n], o) || (Replays(m.tables, records, n) && o == OpOf(records[n]))
      {
        OneMoreOp(m.tables, records, o);
      }
      if records[n].rpcId !in before.tables.executedOps {
        ExecuteOk(before, OpOf(records[n]));
      }
    }
  }

  lemma EnumeratesAll(result: seq<WitnessRecord>, records: map<Bytes, WitnessRecord>)
    requires Enumerates(result, records)
    ensures forall k :: k in records ==> records[k] in result
  {
    var keys := set i | 0 <= i < |result| :: result[i].key;
    KeyCount(result);
    assert keys <= records.Keys;
    if keys < records.Keys {
      assert |records.Keys| == |records|;
      SmallerSet(keys, records.Keys);
      assert false;
    }
    forall k | k in records ensures records[k] in result {
      assert k in keys;
    }
  }

  lemma SmallerSet(a: set<Bytes>, b: set<Bytes>)
    requires a < b
    ensures |a| < |b|
  {
    assert |b| == |b - a| + |a| && b - a != {};
  }

  lemma {:induction false} KeyCount(result: seq<WitnessRecord>)
    requires forall i, j :: 0 <= i < j < |result| ==> result[i].key != result[j].key
    ensures |set i | 0 <= i < |result| :: result[i].key| == |result|
  {
    if result != [] {
      var n := |result| - 1;
      KeyCount(result[..n]);
      var fewer := set i | 0 <= i < n :: result[..n][i].key;
      assert (set i | 0 <= i < |result| :: result[i].key) == fewer + {result[n].key};
    }
  }

  lemma EnumerationHas(order: seq<WitnessRecord>, other: seq<WitnessRecord>, w: State, i: nat)
    requires Enumerates(order, w.records) && Enumerates(other, w.records) && i < |order|
    ensures exists j :: 0 <= j < |other| && other[j] == order[i]
  {
    EnumeratesAll(other, w.records);
    assert order[i] in other;
  }

  lemma NewIdReplays(t: Tables, order: seq<WitnessRecord>, w: State, i: nat)
    requires Enumerates(order, w.records) && OneKeyEach(w.records) && i < |order|
    ensures Replays(t, order, i) <==> order[i].rpcId !in t.executedOps
  {
  }

  /** One order of the records replays no more operations and ids than another. */
  lemma OrderAddsNoMore(t: Tables, order: seq<WitnessRecord>, other: seq<WitnessRecord>, w: State)
    requires Enumerates(order, w.records) && Enumerates(other, w.records) && OneKeyEach(w.records)
    ensures forall o :: OpReplayed(t, order, o) ==> OpReplayed(t, other, o)
    ensures forall id :: IdIn(order, id) ==> IdIn(other, id)
  {
    forall o | OpReplayed(t, order, o) ensures OpReplayed(t, other, o) {
      var i :| 0 <= i < |order| && Replays(t, order, i) && OpOf(order[i]) == o;
      EnumerationHas(order, other, w, i);
      var j :| 0 <= j < |other| && other[j] == order[i];
      NewIdReplays(t, order, w, i);
      NewIdReplays(t, other, w, j);
      hide *;
    }
    forall id | IdIn(order, id) ensures IdIn(other, id) {
      var i :| 0 <= i < |order| && order[i].rpcId == id;
      EnumerationHas(order, other, w, i);
    }
  }

  lemma ListsDetermined(s: Tables, t: Tables, a: seq<CurpOp>, b: seq<CurpOp>)
    requires Lists(s, a) && Lists(t, b) && SameOps(a, b)
    ensures s.unsyncedOps == t.unsyncedOps && s.unsyncedKeys == t.unsyncedKeys
  {
  }

  /**
    The order in which the witness returns its records does not matter to a master with nothing
    unsynced: any two orders leave the same tables and the same store.
  */
  lemma AnyRecoveryOrder(m: Master, w: State, order: seq<WitnessRecord>, other: seq<WitnessRecord>)
    requires TablesOk(m) && m.tables.unsyncedKeys == {} && IndexOk(w)
    requires Enumerates(order, w.records) && Enumerates(other, w.records)
    ensures Replay(m, order).tables == Replay(m, other).tables
    ensures ApplyAll(map[], Replay(m, order).trace) == ApplyAll(map[], Replay(m, other).trace)
  {
    var x, y := Replay(m, order), Replay(m, other);
    NothingPending(m);
    RecoveryOk(m, w, order);
    RecoveryOk(m, w, other);
    RecoveryWithin(m, w, order, other);
    RecoveryWithin(m, w, other, order);
    hide TablesOk, DistinctKeys;
    SameTables(x, y);
    ApplyAllConcat(map[], m.trace, Pending(x));
    ApplyAllConcat(map[], m.trace, Pending(y));
    BatchesCommute(ApplyAll(map[], m.trace), Pending(x), Pending(y));
  }

  lemma RecoveryOk(m: Master, w: State, order: seq<WitnessRecord>)
    requires TablesOk(m) && m.tables.unsyncedKeys == {} && Enumerates(order, w.records)
    ensures var x := Replay(m, order);
      TablesOk(x) && KeysDistinct(x) && x.trace == m.trace + Pending(x)
  {
    hide TablesOk, NoClash, KeysDistinct, Enumerates;
    NothingPending(m);
    ReplayOk(m, order);
    WitnessRecordsNoClash(m.tables, w, order);
    ReplayKeysExactly(m, order);
  }

  lemma RecoveryWithin(m: Master, w: State, order: seq<WitnessRecord>, other: seq<WitnessRecord>)
    requires TablesOk(m) && OneKeyEach(w.records) && Enumerates(order, w.records) && Enumerates(other, w.records)
    ensures TablesOk(Replay(m, order)) && TablesOk(Replay(m, other))
    ensures forall o :: o in Pending(Replay(m, order)) ==> o in Pending(Replay(m, other))
    ensures forall id :: id in Replay(m, order).tables.executedOps ==> id in Replay(m, other).tables.executedOps
  {
    hide TablesOk, OpReplayed, IdIn, KeyReplayed, OneKeyEach, Enumerates;
    OrderAddsNoMore(m.tables, order, other, w);
    ReplayPending(m, order);
    ReplayPending(m, other);
    ReplayAdds(m, order);
    ReplayAdds(m, other);
  }

  /**
    What a recovery gives: each key of the witness whose request is new has its data, every other key is
    as it was.
  */
  lemma RecoveredStore(m: Master, w: State, order: seq<WitnessRecord>, key: Bytes)
    requires TablesOk(m) && m.tables.unsyncedKeys == {} && IndexOk(w) && Enumerates(order, w.records)
    ensures var before, store := ApplyAll(map[], m.trace), ApplyAll(map[], Replay(m, order).trace);
      if key in w.records && w.records[key].rpcId !in m.tables.executedOps
      then key in store && store[key] == w.records[key].requestData
      else AgreeOn(store, before, key)
  {
    var x := Replay(m, order);
    hide TablesOk, DistinctKeys, IndexOk, Enumerates;
    NothingPending(m);
    RecoveryOk(m, w, order);
    ReplayOk(m, order);
    ReplayPending(m, order);
    ApplyAllConcat(map[], m.trace, Pending(x));
    assert OneKeyEach(w.records) by { IndexKeys(w); }
    if key in w.records && w.records[key].rpcId !in m.tables.executedOps {
      RecordReplayed(m.tables, w, order, key);
      assert OpOf(w.records[key]) in Pending(x);
      var i :| 0 <= i < |Pending(x)| && Pending(x)[i] == OpOf(w.records[key]);
      DecidesKey(ApplyAll(map[], m.trace), Pending(x), i);
    } else {
      forall i | 0 <= i < |Pending(x)| ensures Pending(x)[i].key != key {
        assert Pending(x)[i] in Pending(x);
        OnlyNewKeys(m.tables, w, order, Pending(x)[i]);
      }
      Untouched(ApplyAll(map[], m.trace), Pending(x), key);
    }
  }

  lemma IndexKeys(w: State)
    requires IndexOk(w)
    ensures OneKeyEach(w.records)
  {
  }

  lemma RecordReplayed(t: Tables, w: State, order: seq<WitnessRecord>, key: Bytes)
    requires OneKeyEach(w.records) && Enumerates(order, w.records)
    requires key in w.records && w.records[key].rpcId !in t.executedOps
    ensures OpReplayed(t, order, OpOf(w.records[key])) && w.records[key].key == key
  {
    EnumeratesAll(order, w.records);
    var i :| 0 <= i < |order| && order[i] == w.records[key];
    NewIdReplays(t, order, w, i);
  }

  lemma OnlyNewKeys(t: Tables, w: State, order: seq<WitnessRecord>, o: CurpOp)
    requires Enumerates(order, w.records) && OpReplayed(t, order, o)
    ensures o.key in w.records && w.records[o.key].rpcId !in t.executedOps
  {
  }

  lemma SameTables(x: Master, y: Master)
    requires TablesOk(x) && TablesOk(y) && SameOps(Pending(x), Pending(y))
    requires forall id :: id in x.tables.executedOps <==> id in y.tables.executedOps
    ensures x.tables == y.tables
  {
    ListsDetermined(x.tables, y.tables, Pending(x), Pending(y));
    assert x.tables.executedOps == y.tables.executedOps;
  }

  lemma ReplayClashes(m: Master, r: WitnessRecord)
    requires TablesOk(m) && KeysDistinct(m) && r.key in m.tables.unsyncedKeys && r.rpcId !in m.tables.executedOps
    ensures TablesOk(Replay(m, [r])) && !KeysDistinct(Replay(m, [r]))
  {
    hide TablesOk, KeysDistinct;
    assert Replays(m.tables, [r], 0) && [r][0].key in m.tables.unsyncedKeys;
    ReplayKeysExactly(m, [r]);
  }

  /** After this run the unsynced operations have one key twice: the replay came onto a non-empty table. */
  lemma ReplayCanClash(o: CurpOp, r: WitnessRecord)
    requires o.key == r.key && o.rpcId != r.rpcId
    ensures var m := After([EPropose(o), EReplay([r])]); TablesOk(m) && !KeysDistinct(m)
  {
    var es := [EPropose(o), EReplay([r])];
    assert es[..1] == [EPropose(o)] && [EPropose(o)][..0] == [];
    var m := After([EPropose(o)]);
    TablesAgree([EPropose(o)]);
    assert After([]) == NEW_MASTER;
    assert m == Next(After([EPropose(o)][..0]), EPropose(o));
    assert m == Execute(NEW_MASTER, o);
    hide TablesOk, Replay;
    assert Pending(m) == [o];
    ReplayClashes(m, r);
  }
}

/** The CURP side of the master object. */
module CurpMasterModule {
  import opened Types
  import opened KeyValue
  import opened CurpSpec
  import WitnessSpec
  import opened WitnessModule

  datatype CurpState = NORMAL | RECOVERING | STOPPED

  class CurpMaster {
    /** The node id in decimal, under which the witness knows this master. */
    const name: Bytes

    var curpState: CurpState
    var localWitness: Witness?
    var unsyncedKeys: set<Bytes>
    var unsyncedOps: map<nat, CurpOp>
    var executedOps: map<nat, Bytes>
    var lastSyncIndex: nat

    /** Every call of ExecuteOp so far, and how many of them were there at the last sync. */
    ghost var trace: seq<CurpOp>
    ghost var synced: nat

    ghost function View(): Master
      reads this
    {
      Master(Tables(unsyncedKeys, unsyncedOps, executedOps), trace, synced)
    }

    constructor (name: Bytes)
      ensures View() == NEW_MASTER && this.name == name
      ensures curpState == NORMAL && localWitness == null && lastSyncIndex == 0
    {
      this.name := name;
      curpState, localWitness, lastSyncIndex := NORMAL, null, 0;
      unsyncedKeys, unsyncedOps, executedOps := {}, map[], map[];
      trace, synced := [], 0;
    }

    method CanSpeculativeExecute(o: CurpOp) returns (can: bool)
      ensures can <==> CanSpeculate(View().tables, o)
    {
      if o.op == PUT || o.op == DELETE_OP {
        return o.key !in unsyncedKeys;
      }
      if o.op == GET {
        return o.key !in unsyncedKeys;
      }
      can := true;
    }

    method MarkUnsynced(o: CurpOp)
      modifies this`unsyncedKeys, this`unsyncedOps
      ensures unsyncedKeys == old(unsyncedKeys) + {o.key} && unsyncedOps == old(unsyncedOps)[o.rpcId := o]
    {
      unsyncedKeys := unsyncedKeys + {o.key};
      unsyncedOps := unsyncedOps[o.rpcId := o];
    }

    /** A stub in the program: it only logs. */
    method ExecuteOp(o: CurpOp) returns (result: Bytes)
      modifies this`trace
      ensures trace == old(trace) + [o] && result == []
    {
      trace := trace + [o];
      result := [];
    }

    method Propose(o: CurpOp) returns (result: ProposeResult)
      modifies this`unsyncedKeys, this`unsyncedOps, this`executedOps, this`trace
      ensures if curpState == RECOVERING
              then View() == old(View()) && result == ProposeResult(false, false, false, "master is recovering")
              else (View(), result) == CurpSpec.Propose(old(View()), o)
    {
      if curpState == RECOVERING {
        return ProposeResult(false, false, false, "master is recovering");
      }
      if o.rpcId in executedOps {
        return ProposeResult(true, true, false, "");
      }
      var can := CanSpeculativeExecute(o);
      if can {
        MarkUnsynced(o);
        var outcome := ExecuteOp(o);
        executedOps := executedOps[o.rpcId := outcome];
        result := ProposeResult(true, true, false, "");
      } else {
        result := ProposeResult(false, false, true, "key conflict");
      }
    }

    method Read(key: Bytes) returns (success: bool)
      ensures success <==> curpState != RECOVERING && key !in View().tables.unsyncedKeys
    {
      if curpState == RECOVERING {
        return false;
      }
      success := key !in unsyncedKeys;
    }

    method ReplayOps(records: seq<WitnessSpec.WitnessRecord>)
      modifies this`unsyncedKeys, this`unsyncedOps, this`executedOps, this`trace
      ensures View() == Replay(old(View()), records)
    {
      for i := 0 to |records|
        invariant View() == Replay(old(View()), records[..i])
      {
        assert records[..i + 1][..i] == records[..i];
        var record := records[i];
        if record.rpcId in executedOps {
          continue;
        }
        var o := CurpOp(record.rpcId, record.clientId, PUT, record.key, record.requestData);
        var outcome := ExecuteOp(o);
        executedOps := executedOps[o.rpcId := outcome];
        MarkUnsynced(o);
      }
      assert records[..|records|] == records;
    }

    /** Closes the witness and replays what it had; a witness bound to another name gives nothing and stays open. */
    method ReplayFromLocalWitness() returns (count: nat, ghost records: seq<WitnessSpec.WitnessRecord>)
      requires localWitness != null && WitnessSpec.IndexOk(localWitness.View())
      modifies this`unsyncedKeys, this`unsyncedOps, this`executedOps, this`trace, localWitness`accepting
      ensures localWitness.View() == WitnessSpec.Recovery(old(localWitness.View()), name)
      ensures View() == Replay(old(View()), records) && count == |records|
      ensures if WitnessSpec.WrongMaster(old(localWitness.View()), name) then records == []
              else WitnessSpec.Enumerates(records, old(localWitness.records))
    {
      var data := localWitness.GetRecoveryData(name);
      ReplayOps(data);
      count, records := |data|, data;
    }

    /** Syncs the unsynced operations, in the order the table happens to have; the Raft log has logSize entries. */
    method DoSync(logSize: nat) returns (batch: seq<CurpOp>)
      requires TablesOk(View())
      modifies this`unsyncedKeys, this`unsyncedOps, this`lastSyncIndex, this`synced, localWitness
      ensures View() == Sync(old(View())) && EnumeratesOps(batch, old(View()).tables)
      ensures lastSyncIndex == if |old(unsyncedOps)| == 0 then old(lastSyncIndex) else if logSize > 0 then logSize - 1 else 0
      ensures localWitness != null && |old(unsyncedOps)| == 0 ==> localWitness.View() == old(localWitness.View())
      ensures localWitness != null && |old(unsyncedOps)| > 0 ==>
        localWitness.View() == WitnessSpec.Reset(old(localWitness.View()), name)
    {
      batch := [];
      if |unsyncedOps| == 0 {
        return;
      }
      batch := Batch();
      unsyncedKeys := {};
      unsyncedOps := map[];
      synced := |trace|;
      lastSyncIndex := if logSize > 0 then logSize - 1 else 0;
      if localWitness != null {
        localWitness.Reset(name);
      }
    }

    /** The loop over the unsynced operations; the program builds an entry from each and drops it. */
    method Batch() returns (batch: seq<CurpOp>)
      requires forall id :: id in unsyncedOps ==> unsyncedOps[id].rpcId == id
      ensures EnumeratesOps(batch, View().tables)
    {
      batch := [];
      var rest := unsyncedOps.Keys;
      while rest != {}
        invariant rest <= unsyncedOps.Keys
        invariant forall i :: 0 <= i < |batch| ==> batch[i].rpcId in unsyncedOps.Keys - rest
        invariant forall i :: 0 <= i < |batch| ==> unsyncedOps[batch[i].rpcId] == batch[i]
        invariant forall id :: id in unsyncedOps.Keys - rest ==> unsyncedOps[id] in batch
        invariant DistinctIds(batch)
        decreases |rest|
      {
        hide DistinctIds;
        var id :| id in rest;
        OneMoreId(batch, unsyncedOps[id]);
        batch := batch + [unsyncedOps[id]];
        rest := rest - {id};
      }
    }
  }
}
