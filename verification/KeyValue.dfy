/**
  What the operations mean. execute_op is a stub in the program; PUT, DELETE and GET are given
  their plain meaning on a key-value map here.
*/
module KeyValue {
  import opened Types

  datatype OpType = PUT | GET | DELETE_OP

  datatype CurpOp = CurpOp(rpcId: nat, clientId: nat, op: OpType, key: Bytes, value: Bytes)

  type Store = map<Bytes, Bytes>

  function Apply(kv: Store, o: CurpOp): Store {
    match o.op
    case PUT => kv[o.key := o.value]
    case DELETE_OP => kv - {o.key}
    case GET => kv
  }

  function ApplyAll(kv: Store, ops: seq<CurpOp>): Store {
    if ops == [] then kv else Apply(ApplyAll(kv, ops[..|ops| - 1]), ops[|ops| - 1])
  }

  ghost predicate DistinctKeys(ops: seq<CurpOp>) {
    forall i, j :: 0 <= i < j < |ops| ==> ops[i].key != ops[j].key
  }

  ghost predicate SameOps(a: seq<CurpOp>, b: seq<CurpOp>) {
    forall o :: o in a <==> o in b
  }

  /** The stores agree on the key. */
  ghost predicate AgreeOn(a: Store, b: Store, key: Bytes) {
    (key in a <==> key in b) && (key in a ==> a[key] == b[key])
  }

  lemma {:induction false} ApplyAllConcat(kv: Store, a: seq<CurpOp>, b: seq<CurpOp>)
    ensures ApplyAll(kv, a + b) == ApplyAll(ApplyAll(kv, a), b)
    decreases |b|
  {
    if b == [] {
      assert a + b == a;
    } else {
      assert (a + b)[..|a + b| - 1] == a + b[..|b| - 1];
      ApplyAllConcat(kv, a, b[..|b| - 1]);
    }
  }

  lemma {:induction false} Untouched(kv: Store, ops: seq<CurpOp>, key: Bytes)
    requires forall i :: 0 <= i < |ops| ==> ops[i].key != key
    ensures AgreeOn(ApplyAll(kv, ops), kv, key)
  {
    if ops != [] {
      Untouched(kv, ops[..|ops| - 1], key);
    }
  }

  /** Operation i is the last to write the key. */
  ghost predicate LastWrite(ops: seq<CurpOp>, i: int, key: Bytes) {
    && 0 <= i < |ops| && ops[i].key == key && ops[i].op != GET
    && forall j :: i < j < |ops| ==> ops[j].key != key || ops[j].op == GET
  }

  /** In any sequence of operations the last PUT or DELETE of a key decides it; without one it is as before. */
  lemma {:induction false} LastWriteDecides(kv: Store, ops: seq<CurpOp>, key: Bytes)
    ensures forall i :: LastWrite(ops, i, key) ==>
      if ops[i].op == PUT then key in ApplyAll(kv, ops) && ApplyAll(kv, ops)[key] == ops[i].value
      else key !in ApplyAll(kv, ops)
    ensures (forall i :: !LastWrite(ops, i, key)) ==> AgreeOn(ApplyAll(kv, ops), kv, key)
  {
    if ops != [] {
      var n := |ops| - 1;
      LastWriteDecides(kv, ops[..n], key);
      if ops[n].key == key && ops[n].op != GET {
        assert LastWrite(ops, n, key);
      } else {
        assert forall i :: LastWrite(ops, i, key) <==> LastWrite(ops[..n], i, key);
      }
    }
  }

  /** With distinct keys, each operation decides its own key alone. */
  lemma {:induction false} DecidesKey(kv: Store, ops: seq<CurpOp>, i: nat)
    requires DistinctKeys(ops) && i < |ops|
    ensures AgreeOn(ApplyAll(kv, ops), Apply(kv, ops[i]), ops[i].key)
    decreases |ops|
  {
    var init := ops[..|ops| - 1];
    if i == |ops| - 1 {
      Untouched(kv, init, ops[i].key);
    } else {
      DecidesKey(kv, init, i);
    }
  }

  /** Operations on distinct keys commute: any two orders of the same batch give the same store. */
  lemma BatchesCommute(kv: Store, a: seq<CurpOp>, b: seq<CurpOp>)
    requires DistinctKeys(a) && DistinctKeys(b) && SameOps(a, b)
    ensures ApplyAll(kv, a) == ApplyAll(kv, b)
  {
    forall key ensures AgreeOn(ApplyAll(kv, a), ApplyAll(kv, b), key) {
      if i :| 0 <= i < |a| && a[i].key == key {
        assert a[i] in b;
        var j :| 0 <= j < |b| && b[j] == a[i];
        DecidesKey(kv, a, i);
        DecidesKey(kv, b, j);
      } else {
        forall j | 0 <= j < |b| ensures b[j].key != key {
          assert b[j] in a;
        }
        Untouched(kv, a, key);
        Untouched(kv, b, key);
      }
    }
    SameStore(ApplyAll(kv, a), ApplyAll(kv, b));
  }

  lemma SameStore(a: Store, b: Store)
    requires forall key :: AgreeOn(a, b, key)
    ensures a == b
  {
    forall key ensures key in a <==> key in b {
      assert AgreeOn(a, b, key);
    }
    forall key | key in a ensures a[key] == b[key] {
      assert AgreeOn(a, b, key);
    }
  }

  /** Without distinct keys the order matters. */
  lemma SameKeyDoesNotCommute()
    ensures exists a: CurpOp, b: CurpOp :: a.key == b.key && ApplyAll(map[], [a, b]) != ApplyAll(map[], [b, a])
  {
    var a, b := CurpOp(1, 0, PUT, [], [1]), CurpOp(2, 0, PUT, [], [2]);
    assert [a, b][..1] == [a] && [b, a][..1] == [b] && [a][..0] == [] && [b][..0] == [];
    assert ApplyAll(map[], [a, b])[[]] == [2];
    assert ApplyAll(map[], [b, a])[[]] == [1];
  }
}
