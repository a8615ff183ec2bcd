/**
 * The exported operations of the wrapper: `getOne`, `create`, `getAll`,
 * `updateOne`, `updateMany`, `deleteOne`, `deleteMany`.
 *
 * Each runs against an explicit store value. Query execution (`query.get()`)
 * is the parameter `exec`, the store's query engine: for a store and a
 * compiled query it yields the matches in result order. `storeOk` is the
 * store's verdict on a write or commit the wrapper cannot foresee (network,
 * permissions); the commit itself is all-or-nothing.
 */
module FirebaseWrapper {
  import opened Util
  import opened Documents
  import opened Paths
  import opened Queries

  /** `GetOneOptions`: `errorFlag` next to the query options. */
  datatype GetOneOptions = GetOneOptions(errorFlag: Option<bool>, query: QueryOptions)

  /** What `getOne` settles to: the data, `false`, or a rejection. */
  datatype GetResult = Found(data: Data) | NotFoundFalse | Rejected(kind: ErrorKind)

  /** `const { errorFlag = false } = options`. */
  predicate ErrorFlag(options: GetOneOptions) {
    options.errorFlag.Some? && options.errorFlag.value
  }

  /** Whether some match is the document `p`. */
  predicate Matched(docs: seq<Snapshot>, p: DocPath) {
    exists i :: 0 <= i < |docs| && docs[i].ref == p
  }

  /** A well-behaved query engine only returns documents the store holds. */
  predicate FromStore(store: Store, docs: seq<Snapshot>) {
    forall i :: 0 <= i < |docs| ==> docs[i].ref in store
  }

  // ---------------------------------------------------------------- getOne

  /** The branch on the snapshot: empty gives a rejection or `false` depending on
      the flag; otherwise the data of the first match only. */
  function GetOneResult(docs: seq<Snapshot>, errorFlag: bool): (r: GetResult)
    ensures r.Found? <==> docs != []
    ensures r.Found? ==> r.data == docs[0].data
    ensures r == NotFoundFalse <==> docs == [] && !errorFlag
    ensures r == Rejected(DocumentNotFound) <==> docs == [] && errorFlag
  {
    if docs == [] then
      if errorFlag then Rejected(DocumentNotFound) else NotFoundFalse
    else Found(docs[0].data)
  }

  /**
   * `getOne(path, options)`: `errorFlag` is split off and only the remaining
   * query options are compiled; the store is only read.
   */
  method GetOne(store: Store, path: string, options: GetOneOptions, exec: (Store, Query) -> seq<Snapshot>)
    returns (r: GetResult)
    ensures r == GetOneResult(exec(store, QueryOf(path, options.query)), ErrorFlag(options))
  {
    var errorFlag := ErrorFlag(options);
    var queryOptions := options.query;
    var query := BuildQuery(path, queryOptions);
    var docs := exec(store, query);
    if docs == [] {
      if errorFlag {
        r := Rejected(DocumentNotFound);
      } else {
        r := NotFoundFalse;
      }
      return;
    }
    r := Found(docs[0].data);
  }

  // ---------------------------------------------------------------- create

  /**
   * The reference iteration k of `create`'s loop sets: the last 2(k + 1)
   * tokens of the path in reverse order, read as collection id, doc id,
   * collection id, ... (`CreateStep` shows the loop builds exactly this).
   */
  function CreateRef(tokens: seq<string>, k: nat): (ref: DocPath)
    requires 2 * k + 2 <= |tokens|
    ensures |ref| == 2 * (k + 1)
  {
    seq(2 * (k + 1), p requires 0 <= p < 2 * (k + 1) => tokens[|tokens| - 1 - p])
  }

  /** The `set`s of `create`'s first m iterations, each of `data`. */
  function CreateSets(tokens: seq<string>, data: Data, m: nat): (ops: seq<Op>)
    requires 2 * m <= |tokens|
    ensures |ops| == m
    decreases m
  {
    if m == 0 then [] else CreateSets(tokens, data, m - 1) + [SetOp(CreateRef(tokens, m - 1), data)]
  }

  /** The batch `create` commits: one `set` of the same data per iteration. */
  function CreateBatch(tokens: seq<string>, data: Data): (ops: seq<Op>)
    requires |tokens| % 2 == 0
    ensures |ops| == |tokens| / 2
  {
    CreateSets(tokens, data, |tokens| / 2)
  }

  /** Iteration k sets reference k to `data`. */
  lemma {:induction false} CreateSetsAt(tokens: seq<string>, data: Data, m: nat, k: nat)
    requires 2 * m <= |tokens| && k < m
    ensures CreateSets(tokens, data, m)[k] == SetOp(CreateRef(tokens, k), data)
    decreases m
  {
    if k < m - 1 {
      CreateSetsAt(tokens, data, m - 1, k);
    }
  }

  /**
   * `create(path, data)`: walk the tokens backwards two at a time, nesting
   * each new reference under the previous one and adding a `set` of `data`
   * for it to one batch, then commit that batch once.
   */
  method Create(store: Store, path: string, data: Data, storeOk: bool) returns (r: Outcome, store': Store)
    requires |Split(path)| % 2 == 0
    ensures (r, store') == Commit(store, CreateBatch(Split(path), data), storeOk)
  {
    var tokens := Split(path);
    var batch: seq<Op> := [];
    var ref: Option<DocPath> := None;
    var i := |tokens| - 1;
    ghost var m := 0;
    while i >= 0
      invariant i == |tokens| - 1 - 2 * m && -1 <= i
      invariant batch == CreateSets(tokens, data, m)
      invariant m == 0 ==> ref.None?
      invariant m > 0 ==> ref == Some(CreateRef(tokens, m - 1))
    {
      CreateStep(tokens, m);
      if ref.Some? {
        ref := Some(ref.value + [tokens[i], tokens[i - 1]]);
      } else {
        ref := Some([tokens[i], tokens[i - 1]]);
        assert ref.value == [] + [tokens[i], tokens[i - 1]];
      }
      batch := batch + [SetOp(ref.value, data)];
      i := i - 2;
      m := m + 1;
    }
    var committed := Commit(store, batch, storeOk);
    r, store' := committed.0, committed.1;
  }

  /**
   * One iteration of `create`'s loop (i = n - 1 - 2k): the new reference is
   * the previous one (none for k = 0) extended by
   * `.collection(tokens[i]).doc(tokens[i - 1])`.
   */
  lemma CreateStep(tokens: seq<string>, k: nat)
    requires 2 * k + 2 <= |tokens|
    ensures CreateRef(tokens, k)
      == (if k == 0 then [] else CreateRef(tokens, k - 1)) + [tokens[|tokens| - 1 - 2 * k], tokens[|tokens| - 2 - 2 * k]]
  {
    var n := |tokens|;
    var prev: DocPath := if k == 0 then [] else CreateRef(tokens, k - 1);
    var ext := prev + [tokens[n - 1 - 2 * k], tokens[n - 2 - 2 * k]];
    forall p | 0 <= p < 2 * (k + 1) ensures CreateRef(tokens, k)[p] == ext[p] {
      if p < 2 * k {
        assert ext[p] == prev[p];
      }
    }
  }

  /**
   * The references `create` sets: reference k lists, pair by pair from the
   * end of the path, `tokens[n-1], tokens[n-2], ..., tokens[n-2-2k]`, and
   * each is nested under the one before it (reference j is a prefix of
   * reference k for j <= k).
   */
  lemma CreateRefShape(tokens: seq<string>, k: nat, j: nat)
    requires 2 * k + 2 <= |tokens| && j <= k
    ensures CreateRef(tokens, k)[2 * j] == tokens[|tokens| - 1 - 2 * j]
    ensures CreateRef(tokens, k)[2 * j + 1] == tokens[|tokens| - 2 - 2 * j]
    ensures CreateRef(tokens, j) == CreateRef(tokens, k)[..2 * (j + 1)]
  {
  }

  /** Whether `create` on these tokens sets `p`. */
  predicate Created(tokens: seq<string>, p: DocPath)
    requires |tokens| % 2 == 0
  {
    exists k :: 0 <= k < |tokens| / 2 && CreateRef(tokens, k) == p
  }

  /**
   * `create` is all-or-nothing: when the store accepts the batch, each of
   * the n/2 references holds `data` and every other document is as before;
   * otherwise nothing changes. A batch of `set`s is never refused for the
   * state of the store, so the outcome is the store's verdict.
   */
  lemma CreateEffect(store: Store, tokens: seq<string>, data: Data, storeOk: bool)
    requires |tokens| % 2 == 0
    ensures var (r, store') := Commit(store, CreateBatch(tokens, data), storeOk);
      && (r.Ok? <==> storeOk)
      && (r.Ok? ==> forall k :: 0 <= k < |tokens| / 2 ==> CreateRef(tokens, k) in store' && store'[CreateRef(tokens, k)] == data)
      && (r.Ok? ==> forall p :: !Created(tokens, p) ==> (p in store' <==> p in store))
      && (r.Ok? ==> forall p :: !Created(tokens, p) && p in store ==> store'[p] == store[p])
      && (r.Err? ==> store' == store)
  {
    var ops := CreateBatch(tokens, data);
    forall i | 0 <= i < |ops| ensures ops[i] == SetOp(CreateRef(tokens, i), data) {
      CreateSetsAt(tokens, data, |tokens| / 2, i);
    }
    NoUpdatesApplicable(store, ops);
    var store' := ApplyAll(store, ops);
    forall k | 0 <= k < |tokens| / 2
      ensures CreateRef(tokens, k) in store' && store'[CreateRef(tokens, k)] == data
    {
      assert Target(ops[k]) == CreateRef(tokens, k);
      ApplyAllSets(store, ops, data, CreateRef(tokens, k));
    }
    forall p | !Created(tokens, p)
      ensures (p in store' <==> p in store) && (p in store ==> store'[p] == store[p])
    {
      assert !Touches(ops, p) by {
        forall i | 0 <= i < |ops| ensures Target(ops[i]) != p {
          assert Target(ops[i]) == CreateRef(tokens, i);
        }
      }
      ApplyAllFrame(store, ops, p);
    }
  }

  /**
   * Running `create` twice with the same path and data leaves the same store
   * as running it once, although both batches are written.
   */
  lemma CreateTwice(store: Store, tokens: seq<string>, data: Data)
    requires |tokens| % 2 == 0
    ensures var once := Commit(store, CreateBatch(tokens, data), true).1;
      Commit(once, CreateBatch(tokens, data), true) == (Ok, once)
  {
    var ops := CreateBatch(tokens, data);
    var once := Commit(store, ops, true).1;
    var twice := Commit(once, ops, true).1;
    CreateEffect(store, tokens, data, true);
    CreateEffect(once, tokens, data, true);
    forall p ensures (p in twice <==> p in once) && (p in twice ==> twice[p] == once[p]) {
      if Created(tokens, p) {
        var k :| 0 <= k < |tokens| / 2 && CreateRef(tokens, k) == p;
      }
    }
    assert twice == once;
  }

  /** The walk starts from the end: `a/b/c/d` sets `d/c`, then `d/c/b/a` under it. */
  lemma CreateWalksBackwards()
    ensures CreateBatch(["a", "b", "c", "d"], map[]) == [SetOp(["d", "c"], map[]), SetOp(["d", "c", "b", "a"], map[])]
  {
    var tokens := ["a", "b", "c", "d"];
    assert CreateRef(tokens, 0) == ["d", "c"];
    assert CreateRef(tokens, 1) == ["d", "c", "b", "a"];
  }

  // ---------------------------------------------------------------- getAll

  /** `snapshot.docs.map((doc) => doc.data())`: every match's data, in result order. */
  function AllData(docs: seq<Snapshot>): (all: seq<Data>)
    ensures |all| == |docs|
    ensures forall i :: 0 <= i < |docs| ==> all[i] == docs[i].data
  {
    seq(|docs|, i requires 0 <= i < |docs| => docs[i].data)
  }

  /** `getAll(path, options)`: the data of every match, in result order; the store is only read. */
  method GetAll(store: Store, path: string, options: QueryOptions, exec: (Store, Query) -> seq<Snapshot>)
    returns (all: seq<Data>)
    ensures all == AllData(exec(store, QueryOf(path, options)))
  {
    var query := BuildQuery(path, options);
    var docs := exec(store, query);
    all := AllData(docs);
  }

  // ---------------------------------------------------------------- updateOne / deleteOne

  /**
   * `updateOne(path, options, data)`: an empty result throws, whatever the
   * options; otherwise only the first match is updated (its fields merged
   * with `data`), in a single write the store may refuse. The write also
   * fails when that match's reference is not in the store, which can only
   * happen when `exec` returns a document the store does not hold (see
   * `FromStore`).
   */
  method UpdateOne(store: Store, path: string, options: GetOneOptions, data: Data,
                   exec: (Store, Query) -> seq<Snapshot>, storeOk: bool)
    returns (r: Outcome, store': Store)
    ensures var docs := exec(store, QueryOf(path, options.query));
      && (r == Err(DocumentNotFound) <==> docs == [])
      && (r.Err? ==> store' == store)
      && (r.Ok? <==> docs != [] && storeOk && docs[0].ref in store)
      && (FromStore(store, docs) ==> (r.Ok? <==> docs != [] && storeOk))
      && (r.Ok? ==> store' == store[docs[0].ref := Merge(store[docs[0].ref], data)])
  {
    var query := BuildQuery(path, options.query);
    var docs := exec(store, query);
    if docs == [] {
      return Err(DocumentNotFound), store;
    }
    var op := UpdateOp(docs[0].ref, data);
    assert [op][1..] == [];
    assert Applicable(store, [op]) <==> CanApply(store, op);
    assert ApplyAll(store, [op]) == ApplyOp(store, op);
    var written := Commit(store, [op], storeOk);
    r, store' := written.0, written.1;
  }

  /**
   * `deleteOne(path, options)`: an empty result throws, whatever the options;
   * otherwise only the first match is deleted.
   */
  method DeleteOne(store: Store, path: string, options: GetOneOptions,
                   exec: (Store, Query) -> seq<Snapshot>, storeOk: bool)
    returns (r: Outcome, store': Store)
    ensures var docs := exec(store, QueryOf(path, options.query));
      && (r == Err(DocumentNotFound) <==> docs == [])
      && (r.Err? ==> store' == store)
      && (r.Ok? <==> docs != [] && storeOk)
      && (r.Ok? ==> store' == store - {docs[0].ref})
  {
    var query := BuildQuery(path, options.query);
    var docs := exec(store, query);
    if docs == [] {
      return Err(DocumentNotFound), store;
    }
    var op := DeleteOp(docs[0].ref);
    assert [op][1..] == [];
    assert Applicable(store, [op]) <==> CanApply(store, op);
    assert ApplyAll(store, [op]) == ApplyOp(store, op);
    var written := Commit(store, [op], storeOk);
    r, store' := written.0, written.1;
  }

  // ---------------------------------------------------------------- updateMany / deleteMany

  /** One `update` of `data` per match, in result order. */
  function UpdateBatch(docs: seq<Snapshot>, data: Data): (ops: seq<Op>)
    ensures |ops| == |docs|
  {
    seq(|docs|, i requires 0 <= i < |docs| => UpdateOp(docs[i].ref, data))
  }

  /** One `delete` per match, in result order. */
  function DeleteBatch(docs: seq<Snapshot>): (ops: seq<Op>)
    ensures |ops| == |docs|
  {
    seq(|docs|, i requires 0 <= i < |docs| => DeleteOp(docs[i].ref))
  }

  /**
   * `updateMany(path, options, data)`: the `forEach` adds one `update` per
   * match to a single batch, committed once (also when there are no matches).
   */
  method UpdateMany(store: Store, path: string, options: QueryOptions, data: Data,
                    exec: (Store, Query) -> seq<Snapshot>, storeOk: bool)
    returns (r: Outcome, store': Store)
    ensures (r, store') == Commit(store, UpdateBatch(exec(store, QueryOf(path, options)), data), storeOk)
  {
    var query := BuildQuery(path, options);
    var docs := exec(store, query);
    var batch: seq<Op> := [];
    for i := 0 to |docs|
      invariant batch == UpdateBatch(docs[..i], data)
    {
      batch := batch + [UpdateOp(docs[i].ref, data)];
    }
    assert docs[..|docs|] == docs;
    var committed := Commit(store, batch, storeOk);
    r, store' := committed.0, committed.1;
  }

  /**
   * `deleteMany(path, options)`: the `forEach` adds one `delete` per match to
   * a single batch, committed once (also when there are no matches).
   */
  method DeleteMany(store: Store, path: string, options: QueryOptions,
                    exec: (Store, Query) -> seq<Snapshot>, storeOk: bool)
    returns (r: Outcome, store': Store)
    ensures (r, store') == Commit(store, DeleteBatch(exec(store, QueryOf(path, options))), storeOk)
  {
    var query := BuildQuery(path, options);
    var docs := exec(store, query);
    var batch: seq<Op> := [];
    for i := 0 to |docs|
      invariant batch == DeleteBatch(docs[..i])
    {
      batch := batch + [DeleteOp(docs[i].ref)];
    }
    assert docs[..|docs|] == docs;
    var committed := Commit(store, batch, storeOk);
    r, store' := committed.0, committed.1;
  }

  /**
   * What `updateMany`'s batch does: it is accepted exactly when the store
   * agrees and every match still exists; then every match has `data`
   * merged into it and every other document is as before (no document
   * appears or disappears); if refused, nothing changes. With no matches
   * the empty batch changes nothing.
   */
  lemma UpdateManyEffect(store: Store, docs: seq<Snapshot>, data: Data, storeOk: bool)
    ensures var (r, store') := Commit(store, UpdateBatch(docs, data), storeOk);
      && (r.Ok? <==> storeOk && forall i :: 0 <= i < |docs| ==> docs[i].ref in store)
      && (r.Ok? ==> store'.Keys == store.Keys)
      && (r.Ok? ==> forall i :: 0 <= i < |docs| ==> store'[docs[i].ref] == Merge(store[docs[i].ref], data))
      && (r.Ok? ==> forall p :: p in store && !Matched(docs, p) ==> store'[p] == store[p])
      && (r.Err? ==> store' == store)
      && (docs == [] ==> store' == store)
  {
    var ops := UpdateBatch(docs, data);
    UpdatesApplicable(store, ops);
    if storeOk && Applicable(store, ops) {
      var store' := ApplyAll(store, ops);
      assert forall i :: 0 <= i < |docs| ==> ops[i].ref == docs[i].ref;
      assert forall i :: 0 <= i < |docs| ==> docs[i].ref in store;
      forall i | 0 <= i < |docs|
        ensures docs[i].ref in store' && store'[docs[i].ref] == Merge(store[docs[i].ref], data)
      {
        assert Target(ops[i]) == docs[i].ref;
        ApplyAllUpdates(store, ops, data, docs[i].ref);
      }
      forall p | !Matched(docs, p)
        ensures (p in store' <==> p in store) && (p in store ==> store'[p] == store[p])
      {
        assert !Touches(ops, p) by {
          forall i | 0 <= i < |ops| ensures Target(ops[i]) != p {
            assert Target(ops[i]) == docs[i].ref;
          }
        }
        ApplyAllFrame(store, ops, p);
      }
      assert store'.Keys == store.Keys by {
        forall p ensures p in store' <==> p in store {
          if Matched(docs, p) {
            var i :| 0 <= i < |docs| && docs[i].ref == p;
            assert p in store;
          }
        }
      }
    }
  }

  /**
   * With a well-behaved query engine the only reason `updateMany`'s batch
   * is refused is the store's own verdict.
   */
  lemma UpdateManyFromStore(store: Store, docs: seq<Snapshot>, data: Data, storeOk: bool)
    requires FromStore(store, docs)
    ensures Commit(store, UpdateBatch(docs, data), storeOk).0.Ok? <==> storeOk
  {
    UpdateManyEffect(store, docs, data, storeOk);
  }

  /**
   * What `deleteMany`'s batch does: when the store accepts it, exactly the
   * matches are gone and every other document is as before; if refused,
   * nothing changes. Deleting is never refused for the state of the store.
   */
  lemma DeleteManyEffect(store: Store, docs: seq<Snapshot>, storeOk: bool)
    ensures var (r, store') := Commit(store, DeleteBatch(docs), storeOk);
      && (r.Ok? <==> storeOk)
      && (r.Ok? ==> forall p :: p in store' <==> p in store && !Matched(docs, p))
      && (r.Ok? ==> forall p :: p in store' ==> store'[p] == store[p])
      && (r.Err? ==> store' == store)
  {
    var ops := DeleteBatch(docs);
    NoUpdatesApplicable(store, ops);
    var store' := ApplyAll(store, ops);
    forall p
      ensures p in store' <==> p in store && !Matched(docs, p)
      ensures p in store' ==> store'[p] == store[p]
    {
      if Matched(docs, p) {
        var i :| 0 <= i < |docs| && docs[i].ref == p;
        assert Target(ops[i]) == p;
        ApplyAllDeletes(store, ops, p);
      } else {
        assert !Touches(ops, p) by {
          forall i | 0 <= i < |ops| ensures Target(ops[i]) != p {
            assert Target(ops[i]) == docs[i].ref;
          }
        }
        ApplyAllFrame(store, ops, p);
      }
    }
  }
}
