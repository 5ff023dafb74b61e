/** The CURP witness: at most one unsynced request per key, kept until it is collected or the witness is reset. */
module WitnessSpec {
  import opened Types

  const MAX_RECORDS: nat := 10000

  /** The timestamp is the clock reading when the record is made. */
  datatype WitnessRecord = WitnessRecord(rpcId: nat, key: Bytes, requestData: Bytes, clientId: nat, timestamp: nat)

  datatype RecordResult =
    | ACCEPTED
    | REJECTED_NOT_COMMUTATIVE
    | REJECTED_NO_SPACE
    | REJECTED_STOPPED
    | REJECTED_WRONG_MASTER

  datatype GCEntry = GCEntry(key: Bytes, rpcId: nat)

  datatype State = State(
    masterId: Bytes,
    accepting: bool,
    records: map<Bytes, WitnessRecord>,
    rpcIds: set<nat>,
    totalRecorded: nat,
    totalRejected: nat,
    totalGc: nat)

  const INITIAL := State([], true, map[], {}, 0, 0, 0)

  // ---- Operations ------------------------------------------------------------------------

  predicate WrongMaster(s: State, masterId: Bytes) {
    s.masterId != [] && masterId != s.masterId
  }

  function Reject(s: State): State {
    s.(totalRejected := s.totalRejected + 1)
  }

  function Record(s: State, masterId: Bytes, r: WitnessRecord): (State, RecordResult) {
    if !s.accepting then (Reject(s), REJECTED_STOPPED)
    else if WrongMaster(s, masterId) then (Reject(s), REJECTED_WRONG_MASTER)
    else if |s.records| >= MAX_RECORDS then (Reject(s), REJECTED_NO_SPACE)
    else if r.rpcId in s.rpcIds then (s, ACCEPTED)
    else if r.key in s.records then (Reject(s), REJECTED_NOT_COMMUTATIVE)
    else
      (s.(records := s.records[r.key := r],
          rpcIds := s.rpcIds + {r.rpcId},
          masterId := if s.masterId == [] then masterId else s.masterId,
          totalRecorded := s.totalRecorded + 1), ACCEPTED)
  }

  predicate Listed(s: State, entry: GCEntry) {
    entry.key in s.records && s.records[entry.key].rpcId == entry.rpcId
  }

  function Drop(s: State, entry: GCEntry): State
    requires Listed(s, entry)
  {
    s.(records := s.records - {entry.key}, rpcIds := s.rpcIds - {entry.rpcId})
  }

  /** The collection loop: the state after all entries, and how many records were dropped. */
  function Collect(s: State, entries: seq<GCEntry>): (State, nat) {
    if entries == [] then (s, 0)
    else
      var (t, n) := Collect(s, entries[..|entries| - 1]);
      var entry := entries[|entries| - 1];
      if Listed(t, entry) then (Drop(t, entry), n + 1) else (t, n)
  }

  function GarbageCollect(s: State, masterId: Bytes, entries: seq<GCEntry>): (State, nat) {
    if WrongMaster(s, masterId) then (s, 0)
    else
      var (t, n) := Collect(s, entries);
      (t.(totalGc := t.totalGc + n), n)
  }

  function Stop(s: State): State {
    s.(accepting := false)
  }

  function Recovery(s: State, masterId: Bytes): State {
    if WrongMaster(s, masterId) then s else Stop(s)
  }

  function Reset(s: State, newMasterId: Bytes): State {
    s.(records := map[], rpcIds := {}, masterId := newMasterId, accepting := true)
  }

  /** All the records, in some order. */
  ghost predicate Enumerates(result: seq<WitnessRecord>, records: map<Bytes, WitnessRecord>) {
    && |result| == |records|
    && (forall i :: 0 <= i < |result| ==> result[i].key in records && records[result[i].key] == result[i])
    && (forall i, j :: 0 <= i < j < |result| ==> result[i].key != result[j].key)
  }

  // ---- Runs ------------------------------------------------------------------------------

  datatype Event =
    | ERecord(masterId: Bytes, r: WitnessRecord)
    | ECollect(masterId: Bytes, entries: seq<GCEntry>)
    | ERecovery(masterId: Bytes)
    | EStop
    | EReset(masterId: Bytes)

  function Next(s: State, e: Event): State {
    match e
    case ERecord(m, r) => Record(s, m, r).0
    case ECollect(m, entries) => GarbageCollect(s, m, entries).0
    case ERecovery(m) => Recovery(s, m)
    case EStop => Stop(s)
    case EReset(m) => Reset(s, m)
  }

  function After(s: State, es: seq<Event>): State {
    if es == [] then s else Next(After(s, es[..|es| - 1]), es[|es| - 1])
  }

  /** Some record has this id. */
  ghost predicate HasId(records: map<Bytes, WitnessRecord>, id: nat) {
    exists k :: k in records && records[k].rpcId == id
  }

  /** Each id is stored under one key, the record's own. */
  ghost predicate OneKeyEach(records: map<Bytes, WitnessRecord>) {
    && (forall k :: k in records ==> records[k].key == k)
    && (forall k, l :: k in records && l in records && records[k].rpcId == records[l].rpcId ==> k == l)
  }

  /** The id set is exactly the ids stored, each under one key, and there is room for what is stored. */
  ghost predicate IndexOk(s: State) {
    && OneKeyEach(s.records)
    && (forall id :: id in s.rpcIds <==> HasId(s.records, id))
    && |s.records| <= MAX_RECORDS
  }

  lemma DropOk(s: State, entry: GCEntry)
    requires IndexOk(s) && Listed(s, entry)
    ensures IndexOk(Drop(s, entry)) && |Drop(s, entry).records| == |s.records| - 1
  {
    var t := Drop(s, entry);
    assert t.records.Keys == s.records.Keys - {entry.key} && |t.records.Keys| == |s.records.Keys| - 1;
    assert OneKeyEach(t.records);
    forall id | id in t.rpcIds ensures HasId(t.records, id) {
      var k :| k in s.records && s.records[k].rpcId == id;
      assert k in t.records;
    }
    forall id | HasId(t.records, id) ensures id in t.rpcIds {
      var k :| k in t.records && t.records[k].rpcId == id;
      assert k in s.records && s.records[k].rpcId == id;
    }
  }

  lemma AddOk(s: State, t: State, r: WitnessRecord)
    requires IndexOk(s) && r.key !in s.records && r.rpcId !in s.rpcIds && |s.records| < MAX_RECORDS
    requires t.records == s.records[r.key := r] && t.rpcIds == s.rpcIds + {r.rpcId}
    ensures IndexOk(t) && |t.records| == |s.records| + 1
  {
    assert t.records.Keys == s.records.Keys + {r.key} && |t.records.Keys| == |s.records.Keys| + 1;
    assert forall k :: k in s.records && s.records[k].rpcId == r.rpcId ==> HasId(s.records, r.rpcId);
    assert OneKeyEach(t.records);
    assert r.key in t.records && t.records[r.key].rpcId == r.rpcId;
    forall id | id in t.rpcIds && id != r.rpcId ensures HasId(t.records, id) {
      var k :| k in s.records && s.records[k].rpcId == id;
      assert t.records[k].rpcId == id;
    }
    forall id | HasId(t.records, id) && id != r.rpcId ensures id in t.rpcIds {
      var k :| k in t.records && t.records[k].rpcId == id;
      assert k in s.records && s.records[k].rpcId == id;
    }
  }

  /** Some entry of the list names this record. */
  ghost predicate Named(r: WitnessRecord, entries: seq<GCEntry>) {
    exists i :: 0 <= i < |entries| && entries[i] == GCEntry(r.key, r.rpcId)
  }

  lemma NamedLast(r: WitnessRecord, entries: seq<GCEntry>)
    requires entries != []
    ensures Named(r, entries) <==> Named(r, entries[..|entries| - 1]) || entries[|entries| - 1] == GCEntry(r.key, r.rpcId)
  {
  }

  /** From records to rest, exactly the listed (key, id) pairs are gone. */
  ghost predicate Collected(records: map<Bytes, WitnessRecord>, rest: map<Bytes, WitnessRecord>, entries: seq<GCEntry>) {
    && (forall k :: k in rest <==> k in records && !Named(records[k], entries))
    && (forall k :: k in rest ==> rest[k] == records[k])
  }

  /** Collection drops exactly the listed pairs, however often they are listed, and counts them exactly. */
  lemma {:induction false} CollectExact(s: State, entries: seq<GCEntry>)
    requires IndexOk(s)
    ensures var (t, n) := Collect(s, entries);
      && IndexOk(t) && t == s.(records := t.records, rpcIds := t.rpcIds)
      && n == |s.records| - |t.records| && Collected(s.records, t.records, entries)
  {
    if entries != [] {
      var init, entry := entries[..|entries| - 1], entries[|entries| - 1];
      CollectExact(s, init);
      var (t, n) := Collect(s, init);
      assert OneKeyEach(s.records);
      if Listed(t, entry) {
        DropOk(t, entry);
      }
      var (u, m) := Collect(s, entries);
      hide IndexOk, OneKeyEach, Collect, Named;
      CollectedOne(s.records, t, u, entries);
    }
  }

  lemma CollectedOne(records: map<Bytes, WitnessRecord>, t: State, u: State, entries: seq<GCEntry>)
    requires OneKeyEach(records) && entries != [] && Collected(records, t.records, entries[..|entries| - 1])
    requires var entry := entries[|entries| - 1]; u.records == if Listed(t, entry) then t.records - {entry.key} else t.records
    ensures Collected(records, u.records, entries)
  {
    forall k | k in records
      ensures Named(records[k], entries) <==>
        Named(records[k], entries[..|entries| - 1]) || entries[|entries| - 1] == GCEntry(k, records[k].rpcId)
    {
      NamedLast(records[k], entries);
    }
    hide Named;
  }

  lemma RecordOk(s: State, masterId: Bytes, r: WitnessRecord)
    requires IndexOk(s)
    ensures IndexOk(Record(s, masterId, r).0)
    ensures Record(s, masterId, r).0.records != s.records ==> |Record(s, masterId, r).0.records| == |s.records| + 1
  {
    var t := Record(s, masterId, r).0;
    if t.records != s.records {
      AddOk(s, t, r);
    }
  }

  /**
    Which answer a request gets, what of it is stored, and that a refusal changes nothing but its count:
    a key is refused only for the sake of another request.
  */
  lemma RecordExactly(s: State, masterId: Bytes, r: WitnessRecord)
    requires IndexOk(s)
    ensures var (t, result) := Record(s, masterId, r);
      var mine := s.masterId == [] || s.masterId == masterId;
      var isNew := !HasId(s.records, r.rpcId);
      && (result == REJECTED_STOPPED <==> !s.accepting)
      && (result == REJECTED_WRONG_MASTER <==> s.accepting && !mine)
      && (result == REJECTED_NO_SPACE <==> s.accepting && mine && |s.records| == MAX_RECORDS)
      && (result == REJECTED_NOT_COMMUTATIVE <==>
          s.accepting && mine && |s.records| < MAX_RECORDS && isNew && r.key in s.records)
      && t.records == (if result == ACCEPTED && isNew then s.records[r.key := r] else s.records)
      && t.masterId == (if result == ACCEPTED && isNew then masterId else s.masterId)
      && t.accepting == s.accepting && t.totalGc == s.totalGc
      && t.totalRejected == s.totalRejected + (if result == ACCEPTED then 0 else 1)
  {
  }

  /** What a collection returns is the number of records it dropped, and another master's drops none. */
  lemma GarbageCollectExactly(s: State, masterId: Bytes, entries: seq<GCEntry>)
    requires IndexOk(s)
    ensures var (t, n) := GarbageCollect(s, masterId, entries);
      && n == |s.records| - |t.records| && t.totalGc == s.totalGc + n
      && t.accepting == s.accepting && t.masterId == s.masterId
      && if s.masterId != [] && masterId != s.masterId then t == s else Collected(s.records, t.records, entries)
  {
    CollectExact(s, entries);
  }

  lemma NextOk(s: State, e: Event)
    requires IndexOk(s)
    ensures IndexOk(Next(s, e))
  {
    match e
    case ERecord(m, r) => RecordOk(s, m, r);
    case ECollect(m, entries) => CollectExact(s, entries);
    case _ =>
  }

  /** The two tables agree over every run. */
  lemma {:induction false} TablesAgree(es: seq<Event>)
    ensures IndexOk(After(INITIAL, es))
  {
    if es != [] {
      TablesAgree(es[..|es| - 1]);
      NextOk(After(INITIAL, es[..|es| - 1]), es[|es| - 1]);
    }
  }

  /**
    What an acceptance says: the request's id is held afterwards. It is given exactly to an open witness
    with the right master and room, if it holds the id already or holds nothing for the key.
  */
  lemma AcceptedExactly(s: State, masterId: Bytes, r: WitnessRecord)
    requires IndexOk(s)
    ensures var (t, result) := Record(s, masterId, r);
      && (result == ACCEPTED <==>
          s.accepting && !WrongMaster(s, masterId) && |s.records| < MAX_RECORDS
          && (HasId(s.records, r.rpcId) || r.key !in s.records))
      && (result == ACCEPTED ==> HasId(t.records, r.rpcId) && forall k :: k in s.records ==> k in t.records && t.records[k] == s.records[k])
      && (result != ACCEPTED ==> t.records == s.records && t.rpcIds == s.rpcIds)
  {
    RecordOk(s, masterId, r);
    var (t, result) := Record(s, masterId, r);
    assert result == ACCEPTED ==> r.rpcId in t.rpcIds;
  }

  // ---- One request per key ---------------------------------------------------------------

  /** The event stores a new record for the key. */
  ghost predicate Stores(s: State, e: Event, key: Bytes) {
    e.ERecord? && e.r.key == key && key !in s.records && key in Next(s, e).records
  }

  /** The event drops this record: a reset, or a collection by the bound master that lists it. */
  ghost predicate Releases(s: State, e: Event, r: WitnessRecord) {
    e.EReset? || (e.ECollect? && !WrongMaster(s, e.masterId) && Named(r, e.entries))
  }

  lemma HeldStep(s: State, e: Event, key: Bytes)
    requires IndexOk(s) && key in s.records
    ensures if Releases(s, e, s.records[key]) then key !in Next(s, e).records
            else key in Next(s, e).records && Next(s, e).records[key] == s.records[key]
  {
    if e.ECollect? {
      CollectExact(s, e.entries);
    }
  }

  /** Until it is released, a stored record stays as it is. */
  lemma {:induction false} HeldUntilReleased(es: seq<Event>, a: nat, b: nat, key: Bytes)
    requires a <= b <= |es| && key in After(INITIAL, es[..a]).records
    requires forall i :: a <= i < b ==> !Releases(After(INITIAL, es[..i]), es[i], After(INITIAL, es[..a]).records[key])
    ensures key in After(INITIAL, es[..b]).records
    ensures After(INITIAL, es[..b]).records[key] == After(INITIAL, es[..a]).records[key]
    decreases b
  {
    hide Next, IndexOk, Releases;
    if a < b {
      HeldUntilReleased(es, a, b - 1, key);
      assert es[..b][..b - 1] == es[..b - 1];
      TablesAgree(es[..b - 1]);
      HeldStep(After(INITIAL, es[..b - 1]), es[b - 1], key);
    }
  }

  /** Between two new records for one key the first is released: collected by its (key, id), or dropped by a reset. */
  lemma RecordsSeparated(es: seq<Event>, a: nat, b: nat, key: Bytes)
    requires a < b < |es|
    requires Stores(After(INITIAL, es[..a]), es[a], key) && Stores(After(INITIAL, es[..b]), es[b], key)
    ensures exists i :: a < i < b && Releases(After(INITIAL, es[..i]), es[i], es[a].r)
  {
    assert es[..a + 1][..a] == es[..a];
    assert After(INITIAL, es[..a + 1]).records[key] == es[a].r;
    if forall i :: a + 1 <= i < b ==> !Releases(After(INITIAL, es[..i]), es[i], es[a].r) {
      HeldUntilReleased(es, a + 1, b, key);
      assert false;
    }
  }

  // ---- Recovery --------------------------------------------------------------------------

  lemma ClosedStep(s: State, e: Event)
    requires IndexOk(s) && !s.accepting && !e.EReset?
    ensures !Next(s, e).accepting && forall k :: k in Next(s, e).records ==> k in s.records && Next(s, e).records[k] == s.records[k]
  {
    if e.ECollect? {
      CollectExact(s, e.entries);
    }
  }

  /** Once closed, by recovery or a stop, the witness only loses records until it is reset. */
  lemma {:induction false} ClosedOnlyShrinks(es: seq<Event>, a: nat, b: nat)
    requires a <= b <= |es| && !After(INITIAL, es[..a]).accepting
    requires forall i :: a <= i < b ==> !es[i].EReset?
    ensures !After(INITIAL, es[..b]).accepting
    ensures forall k :: k in After(INITIAL, es[..b]).records ==>
      k in After(INITIAL, es[..a]).records && After(INITIAL, es[..b]).records[k] == After(INITIAL, es[..a]).records[k]
    decreases b
  {
    hide Next, IndexOk;
    if a < b {
      ClosedOnlyShrinks(es, a, b - 1);
      assert es[..b][..b - 1] == es[..b - 1];
      TablesAgree(es[..b - 1]);
      ClosedStep(After(INITIAL, es[..b - 1]), es[b - 1]);
    }
  }

  /** The event closes the witness: a stop, or a recovery its master asks for. */
  ghost predicate Closes(s: State, e: Event) {
    e.EStop? || (e.ERecovery? && (s.masterId == [] || s.masterId == e.masterId))
  }

  /** The witness was closed by event a, and not reset from then on to moment b. */
  ghost predicate ClosedFrom(es: seq<Event>, a: nat, b: nat)
    requires a < b <= |es|
  {
    Closes(After(INITIAL, es[..a]), es[a]) && forall i :: a < i < b ==> !es[i].EReset?
  }

  /** From a recovery or a stop on, until a reset, every request is refused and the records are among those there were. */
  lemma RefusesOnceClosed(es: seq<Event>, a: nat, b: nat, masterId: Bytes, r: WitnessRecord)
    requires a < b <= |es| && ClosedFrom(es, a, b)
    ensures var s, t := After(INITIAL, es[..a]), After(INITIAL, es[..b]);
      && Record(t, masterId, r).1 == REJECTED_STOPPED && Record(t, masterId, r).0.records == t.records
      && forall k :: k in t.records ==> k in s.records && t.records[k] == s.records[k]
  {
    assert es[..a + 1][..a] == es[..a];
    assert After(INITIAL, es[..a + 1]).records == After(INITIAL, es[..a]).records;
    ClosedOnlyShrinks(es, a + 1, b);
  }

  lemma {:induction false} ClosedByEvent(es: seq<Event>) returns (a: nat)
    requires !After(INITIAL, es).accepting
    ensures a < |es| && ClosedFrom(es, a, |es|)
  {
    hide Next, Closes;
    var init, n := es[..|es| - 1], |es| - 1;
    if After(INITIAL, init).accepting {
      if !Closes(After(INITIAL, init), es[n]) {
        StaysOpen(After(INITIAL, init), es[n]);
      }
      a := n;
    } else {
      a := ClosedByEvent(init);
      NoResetNow(After(INITIAL, init), es[n]);
      assert init[..a] == es[..a] && forall i :: a < i < n ==> init[i] == es[i];
    }
  }

  lemma NoResetNow(s: State, e: Event)
    requires !Next(s, e).accepting
    ensures !e.EReset?
  {
  }

  /** A witness is closed if and only if a stop or its master's recovery closed it and no reset came since. */
  lemma ClosedExactly(es: seq<Event>)
    ensures !After(INITIAL, es).accepting <==> exists a :: 0 <= a < |es| && ClosedFrom(es, a, |es|)
  {
    hide ClosedFrom, After;
    assert es[..|es|] == es;
    if a :| 0 <= a < |es| && ClosedFrom(es, a, |es|) {
      RefusesOnceClosed(es, a, |es|, [], WitnessRecord(0, [], [], 0, 0));
      assert Record(After(INITIAL, es), [], WitnessRecord(0, [], [], 0, 0)).1 == REJECTED_STOPPED;
    } else if !After(INITIAL, es).accepting {
      var a := ClosedByEvent(es);
    }
  }

  lemma StaysOpen(s: State, e: Event)
    requires s.accepting && !Closes(s, e)
    ensures Next(s, e).accepting
  {
    if e.ECollect? {
      CollectKeepsOpen(s, e.entries);
    }
  }

  lemma {:induction false} CollectKeepsOpen(s: State, entries: seq<GCEntry>)
    ensures Collect(s, entries).0.accepting == s.accepting && Collect(s, entries).0.masterId == s.masterId
  {
    if entries != [] {
      CollectKeepsOpen(s, entries[..|entries| - 1]);
    }
  }

  // ---- One master ------------------------------------------------------------------------

  /** A reset makes room for everything, from the new master alone if it has a name. */
  lemma ResetReopens(s: State, newMasterId: Bytes, masterId: Bytes, r: WitnessRecord)
    ensures var (t, result) := Record(Reset(s, newMasterId), masterId, r);
      if newMasterId != [] && masterId != newMasterId then result == REJECTED_WRONG_MASTER && t.records == map[]
      else result == ACCEPTED && t.records == map[r.key := r] && t.masterId == masterId
  {
    assert map[][r.key := r] == map[r.key := r];
  }

  lemma StaysBoundOnce(s: State, e: Event)
    requires s.masterId != [] && !e.EReset?
    ensures Next(s, e).masterId == s.masterId
  {
    if e.ECollect? {
      CollectKeepsOpen(s, e.entries);
    }
  }

  lemma {:induction false} StaysBound(es: seq<Event>, a: nat, b: nat)
    requires a <= b <= |es| && After(INITIAL, es[..a]).masterId != []
    requires forall i :: a <= i < b ==> !es[i].EReset?
    ensures After(INITIAL, es[..b]).masterId == After(INITIAL, es[..a]).masterId
    decreases b
  {
    hide Next;
    if a < b {
      StaysBound(es, a, b - 1);
      assert es[..b][..b - 1] == es[..b - 1];
      StaysBoundOnce(After(INITIAL, es[..b - 1]), es[b - 1]);
    }
  }

  /** From a named master's first record on, until a reset, no other master changes anything or gets anything. */
  lemma ServesOneMaster(es: seq<Event>, a: nat, b: nat, masterId: Bytes, r: WitnessRecord, entries: seq<GCEntry>)
    requires a < b <= |es| && es[a].ERecord? && Stores(After(INITIAL, es[..a]), es[a], es[a].r.key)
    requires es[a].masterId != [] && masterId != es[a].masterId && forall i :: a < i < b ==> !es[i].EReset?
    ensures var t := After(INITIAL, es[..b]);
      && Record(t, masterId, r) == (Reject(t), if t.accepting then REJECTED_WRONG_MASTER else REJECTED_STOPPED)
      && GarbageCollect(t, masterId, entries) == (t, 0) && Recovery(t, masterId) == t
  {
    assert es[..a + 1][..a] == es[..a];
    assert After(INITIAL, es[..a + 1]).masterId == es[a].masterId;
    StaysBound(es, a + 1, b);
  }

  // ---- Conservation ----------------------------------------------------------------------

  lemma ConservationStep(s: State, e: Event)
    requires IndexOk(s) && !e.EReset? && s.totalRecorded == |s.records| + s.totalGc
    ensures var t := Next(s, e); t.totalRecorded == |t.records| + t.totalGc
  {
    match e
    case ECollect(m, entries) => CollectExact(s, entries);
    case ERecord(m, r) => RecordOk(s, m, r);
    case _ =>
  }

  /** Without a reset, every record ever made is either stored or was counted as collected. */
  lemma {:induction false} Conservation(es: seq<Event>)
    requires forall i :: 0 <= i < |es| ==> !es[i].EReset?
    ensures var s := After(INITIAL, es); s.totalRecorded == |s.records| + s.totalGc
  {
    if es != [] {
      hide Next, IndexOk;
      Conservation(es[..|es| - 1]);
      TablesAgree(es[..|es| - 1]);
      ConservationStep(After(INITIAL, es[..|es| - 1]), es[|es| - 1]);
    }
  }
}

/** The witness object. */
module WitnessModule {
  import opened Types
  import opened WitnessSpec

  class Witness {
    var masterId: Bytes
    var accepting: bool
    var records: map<Bytes, WitnessRecord>
    var rpcIds: set<nat>
    var totalRecorded: nat
    var totalRejected: nat
    var totalGc: nat

    function View(): State
      reads this
    {
      State(masterId, accepting, records, rpcIds, totalRecorded, totalRejected, totalGc)
    }

    constructor ()
      ensures View() == INITIAL
    {
      masterId, accepting, records, rpcIds := [], true, map[], {};
      totalRecorded, totalRejected, totalGc := 0, 0, 0;
    }

    method Record(masterId: Bytes, rpcId: nat, key: Bytes, requestData: Bytes, clientId: nat, now: nat)
      returns (result: RecordResult)
      modifies this
      ensures (View(), result) == WitnessSpec.Record(old(View()), masterId, WitnessRecord(rpcId, key, requestData, clientId, now))
    {
      if !accepting {
        totalRejected := totalRejected + 1;
        return REJECTED_STOPPED;
      }
      if this.masterId != [] && masterId != this.masterId {
        totalRejected := totalRejected + 1;
        return REJECTED_WRONG_MASTER;
      }
      if |records| >= MAX_RECORDS {
        totalRejected := totalRejected + 1;
        return REJECTED_NO_SPACE;
      }
      if rpcId in rpcIds {
        return ACCEPTED;
      }
      if key in records {
        totalRejected := totalRejected + 1;
        return REJECTED_NOT_COMMUTATIVE;
      }
      records := records[key := WitnessRecord(rpcId, key, requestData, clientId, now)];
      rpcIds := rpcIds + {rpcId};
      if this.masterId == [] {
        this.masterId := masterId;
      }
      totalRecorded := totalRecorded + 1;
      result := ACCEPTED;
    }

    method GarbageCollect(masterId: Bytes, entries: seq<GCEntry>) returns (dropped: nat)
      modifies this
      ensures (View(), dropped) == WitnessSpec.GarbageCollect(old(View()), masterId, entries)
    {
      if this.masterId != [] && masterId != this.masterId {
        return 0;
      }
      dropped := 0;
      for i := 0 to |entries|
        invariant (View(), dropped) == Collect(old(View()), entries[..i])
      {
        assert entries[..i + 1][..i] == entries[..i];
        var entry := entries[i];
        if entry.key in records && records[entry.key].rpcId == entry.rpcId {
          rpcIds := rpcIds - {records[entry.key].rpcId};
          records := records - {entry.key};
          dropped := dropped + 1;
        }
      }
      assert entries[..|entries|] == entries;
      totalGc := totalGc + dropped;
    }

    /** Closes the witness and returns its records, in the order the table happens to have. */
    method GetRecoveryData(masterId: Bytes) returns (result: seq<WitnessRecord>)
      requires IndexOk(View())
      modifies this`accepting
      ensures View() == Recovery(old(View()), masterId)
      ensures if WrongMaster(old(View()), masterId) then result == [] else Enumerates(result, records)
    {
      result := [];
      if this.masterId != [] && masterId != this.masterId {
        return;
      }
      accepting := false;
      var rest := records.Keys;
      while rest != {}
        invariant rest <= records.Keys && |result| + |rest| == |records|
        invariant forall i :: 0 <= i < |result| ==> result[i].key in records.Keys - rest && records[result[i].key] == result[i]
        invariant forall i, j :: 0 <= i < j < |result| ==> result[i].key != result[j].key
        decreases |rest|
      {
        var key :| key in rest;
        result := result + [records[key]];
        rest := rest - {key};
      }
    }

    method StopAccepting()
      modifies this`accepting
      ensures View() == Stop(old(View()))
    {
      accepting := false;
    }

    method Reset(newMasterId: Bytes)
      modifies this
      ensures View() == WitnessSpec.Reset(old(View()), newMasterId)
    {
      records, rpcIds := map[], {};
      masterId := newMasterId;
      accepting := true;
    }
  }
}
