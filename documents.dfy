/**
 * The abstract document store the wrapper talks to: documents addressed by
 * their reference path, the three write operations a batch can hold, and an
 * all-or-nothing batch commit.
 */
module Documents {

  /** A field value of a document; its structure is the store's business. */
  type Value(==)

  /** Document data: field name to value. */
  type Data = map<string, Value>

  /** A document reference as its path: collection id, doc id, collection id, doc id, ... */
  type DocPath = seq<string>

  /** The store: every existing document, by reference path. */
  type Store = map<DocPath, Data>

  /** One query result: the matched document's reference and its data. */
  datatype Snapshot = Snapshot(ref: DocPath, data: Data)

  /** An elementary write of a batch (`batch.set`, `batch.update`, `batch.delete`). */
  datatype Op =
    | SetOp(ref: DocPath, data: Data)
    | UpdateOp(ref: DocPath, data: Data)
    | DeleteOp(ref: DocPath)

  /** The kinds of failure the wrapper surfaces (messages are not modelled). */
  datatype ErrorKind = DocumentNotFound | WriteRejected

  /** Outcome of an operation that returns nothing on success. */
  datatype Outcome = Ok | Err(kind: ErrorKind)

  /** The reference an op writes. */
  function Target(op: Op): DocPath {
    match op
    case SetOp(r, _) => r
    case UpdateOp(r, _) => r
    case DeleteOp(r) => r
  }

  /** `update` merges the given fields into the existing document. */
  function Merge(current: Data, fields: Data): (r: Data)
    ensures r.Keys == current.Keys + fields.Keys
    ensures forall f :: f in fields ==> r[f] == fields[f]
    ensures forall f :: f in current && f !in fields ==> r[f] == current[f]
  {
    current + fields
  }

  /** The store checks each op against the state the earlier ops of the batch leave:
      an `update` needs an existing document; `set` and `delete` always apply. */
  predicate CanApply(store: Store, op: Op) {
    op.UpdateOp? ==> op.ref in store
  }

  function ApplyOp(store: Store, op: Op): Store {
    match op
    case SetOp(r, d) => store[r := d]
    case UpdateOp(r, d) => if r in store then store[r := Merge(store[r], d)] else store
    case DeleteOp(r) => store - {r}
  }

  /** The batch's ops applied in order. */
  function ApplyAll(store: Store, ops: seq<Op>): Store
    decreases |ops|
  {
    if ops == [] then store else ApplyAll(ApplyOp(store, ops[0]), ops[1..])
  }

  /** Every op of the batch is acceptable in the state its predecessors leave. */
  predicate Applicable(store: Store, ops: seq<Op>)
    decreases |ops|
  {
    ops == [] || (CanApply(store, ops[0]) && Applicable(ApplyOp(store, ops[0]), ops[1..]))
  }

  /**
   * `batch.commit()`: all-or-nothing. `storeOk` is the store's own verdict
   * (network, permissions, ...), which the wrapper cannot see.
   */
  function Commit(store: Store, ops: seq<Op>, storeOk: bool): (res: (Outcome, Store))
    ensures res.0.Ok? <==> storeOk && Applicable(store, ops)
    ensures res.0.Ok? ==> res.1 == ApplyAll(store, ops)
    ensures res.0.Err? ==> res.0.kind == WriteRejected && res.1 == store
  {
    if storeOk && Applicable(store, ops) then (Ok, ApplyAll(store, ops)) else (Err(WriteRejected), store)
  }

  /** Whether some op of the batch writes `p`. */
  predicate Touches(ops: seq<Op>, p: DocPath) {
    exists i :: 0 <= i < |ops| && Target(ops[i]) == p
  }

  /** A reference no op of the batch writes keeps its document (or its absence). */
  lemma {:induction false} ApplyAllFrame(store: Store, ops: seq<Op>, p: DocPath)
    requires !Touches(ops, p)
    ensures p in ApplyAll(store, ops) <==> p in store
    ensures p in store ==> ApplyAll(store, ops)[p] == store[p]
    decreases |ops|
  {
    if ops != [] {
      assert Target(ops[0]) != p;
      assert !Touches(ops[1..], p) by {
        forall i | 0 <= i < |ops[1..]| ensures Target(ops[1..][i]) != p {
          assert ops[1..][i] == ops[i + 1];
        }
      }
      ApplyAllFrame(ApplyOp(store, ops[0]), ops[1..], p);
    }
  }

  /** A batch of `set`s that all carry `d` leaves `d` at every target. */
  lemma {:induction false} ApplyAllSets(store: Store, ops: seq<Op>, d: Data, p: DocPath)
    requires forall i :: 0 <= i < |ops| ==> ops[i].SetOp? && ops[i].data == d
    requires Touches(ops, p)
    ensures p in ApplyAll(store, ops) && ApplyAll(store, ops)[p] == d
    decreases |ops|
  {
    var s1 := ApplyOp(store, ops[0]);
    if Touches(ops[1..], p) {
      ApplyAllSets(s1, ops[1..], d, p);
    } else {
      assert Target(ops[0]) == p by {
        forall i | 0 < i < |ops| ensures Target(ops[i]) != p {
          assert ops[i] == ops[1..][i - 1];
        }
      }
      ApplyAllFrame(s1, ops[1..], p);
    }
  }

  /** A batch of `delete`s removes every target. */
  lemma {:induction false} ApplyAllDeletes(store: Store, ops: seq<Op>, p: DocPath)
    requires forall i :: 0 <= i < |ops| ==> ops[i].DeleteOp?
    requires Touches(ops, p)
    ensures p !in ApplyAll(store, ops)
    decreases |ops|
  {
    var s1 := ApplyOp(store, ops[0]);
    if Touches(ops[1..], p) {
      ApplyAllDeletes(s1, ops[1..], p);
    } else {
      assert Target(ops[0]) == p by {
        forall i | 0 < i < |ops| ensures Target(ops[i]) != p {
          assert ops[i] == ops[1..][i - 1];
        }
      }
      ApplyAllFrame(s1, ops[1..], p);
    }
  }

  /**
   * An applicable batch of `update`s that all carry `d` merges `d` into every
   * target exactly as one update would: merging the same fields twice is
   * merging them once.
   */
  lemma {:induction false} ApplyAllUpdates(store: Store, ops: seq<Op>, d: Data, p: DocPath)
    requires forall i :: 0 <= i < |ops| ==> ops[i].UpdateOp? && ops[i].data == d
    requires Applicable(store, ops)
    requires Touches(ops, p)
    ensures p in store && p in ApplyAll(store, ops)
    ensures ApplyAll(store, ops)[p] == Merge(store[p], d)
    decreases |ops|
  {
    var s1 := ApplyOp(store, ops[0]);
    if Touches(ops[1..], p) {
      ApplyAllUpdates(s1, ops[1..], d, p);
      assert ops[0].ref in store;
      if ops[0].ref == p {
        assert Merge(Merge(store[p], d), d) == Merge(store[p], d);
      } else {
        assert s1[p] == store[p];
      }
    } else {
      assert Target(ops[0]) == p by {
        forall i | 0 < i < |ops| ensures Target(ops[i]) != p {
          assert ops[i] == ops[1..][i - 1];
        }
      }
      ApplyAllFrame(s1, ops[1..], p);
    }
  }

  /** A batch of `update`s is accepted exactly when every target exists beforehand
      (updates neither create nor remove documents). */
  lemma {:induction false} UpdatesApplicable(store: Store, ops: seq<Op>)
    requires forall i :: 0 <= i < |ops| ==> ops[i].UpdateOp?
    ensures Applicable(store, ops) <==> forall i :: 0 <= i < |ops| ==> ops[i].ref in store
    decreases |ops|
  {
    if ops != [] {
      var s1 := ApplyOp(store, ops[0]);
      assert s1.Keys == store.Keys;
      UpdatesApplicable(s1, ops[1..]);
      assert forall i :: 0 < i < |ops| ==> ops[i] == ops[1..][i - 1];
    }
  }

  /** Batches without updates are always acceptable. */
  lemma {:induction false} NoUpdatesApplicable(store: Store, ops: seq<Op>)
    requires forall i :: 0 <= i < |ops| ==> !ops[i].UpdateOp?
    ensures Applicable(store, ops)
    decreases |ops|
  {
    if ops != [] {
      NoUpdatesApplicable(ApplyOp(store, ops[0]), ops[1..]);
    }
  }
}
