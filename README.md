# firebase-wrapper, modelled in Dafny

`firebase-wrapper.ts` is a thin layer over the Firestore Admin SDK. Callers name
nested collections and documents with one slash-delimited path string
(`users/42/posts`). They read, create, update and delete documents with optional
query options (`where`, `orderBy`, `limit`, `startAt`, `endAt`). This project
models that layer against an abstract in-memory store and proves what the code
does with paths, queries and batches.

Modules (one file each):

- `Util` (`util.dfy`): `Option` and the JavaScript truthiness of an optional string.
- `Documents` (`documents.dfy`): the store as a map from reference paths to
  document data; the batch ops `set`, `update` (a field merge) and `delete`; an
  all-or-nothing commit. The commit succeeds only when the store's own verdict
  `storeOk` is true and every `update` finds its document. Otherwise nothing
  changes.
- `Paths` (`paths.dfy`): the path handling of `buildQuery`. `Split` is JavaScript's
  `split('/')`. `ParseSegments` is the `reduce` into `{collectionId, docId?}`
  segments. `ResolveChain` is the `shift()` plus the loop that turns segments into
  `collection(..)`/`doc(..)` steps.
- `Queries` (`queries.dfy`): the clause part of `buildQuery` (`CompileClauses`) and
  `BuildQuery` itself. A compiled query is plain data: the step chain followed by
  the clause list.
- `FirebaseWrapper` (`wrapper.dfy`): the seven exported operations. Each takes the
  store. The six that query it also take the store's query engine `exec` (the
  matches of a query, in result order); `Create` queries nothing and takes no
  `exec`. Operations that write also take the store's verdict `storeOk`, and they
  return the outcome and the new store.

The model follows the code, including these quirks:

- `create` walks the path from its end. Its last token pair becomes the ROOT
  reference, not the deepest one. `a/b/c/d` sets `d/c` and then `d/c/b/a`.
- Path resolution always ends on a collection and drops the first segment's
  doc id. `users/42` queries the whole `users` collection.
- The code reads the flag `errorFlag` (firebase-wrapper.ts:65), not the
  `errorIfMissing` that firebase-wrapper-example.ts:33 passes; that option is
  compiled into nothing.
- The code uses one batch per call and never chunks (firebase-wrapper.ts:76,
  :111, :128).
- The code has no malformed-path error, because `split` never yields zero tokens.

## Model

| member | source | states |
|---|---|---|
| `Paths.Split` | firebase-wrapper.ts:23 | `path.split('/')` yields at least one token for every path, `""` included |
| `Paths.SplitNoSlash` | firebase-wrapper.ts:23 | no token contains `/` |
| `Paths.SplitJoin` | firebase-wrapper.ts:23 | the tokens joined with `/` give back the path |
| `Paths.JoinSplit` | firebase-wrapper.ts:23 | splitting the join of slash-free tokens gives back the tokens (round trip) |
| `Paths.Segments` | firebase-wrapper.ts:23-30 | n tokens give ceil(n/2) segments; segment k is `{token[2k], token[2k+1] if it exists}` |
| `Paths.ParseSegments` | firebase-wrapper.ts:23-30 | the `reduce` (push on even index, fill the last segment's docId on odd) builds exactly `Segments(tokens)` |
| `Paths.SegmentsShape` | firebase-wrapper.ts:23-31 | the segment list is never empty (`shift()!` cannot fail), its root is token 0, and its last segment lacks a docId exactly when n is odd |
| `Paths.ResolveChain` | firebase-wrapper.ts:31-38 | `shift()` plus the loop build `collection(root)` followed by each later segment's steps (`Chain`) |
| `Paths.SegmentStepsIds` | firebase-wrapper.ts:33-37 | a later segment adds its collection id, and adds its docId only when that docId is truthy (absent or `""` adds none) |
| `Paths.DescendCollectionIds` | firebase-wrapper.ts:32-38 | the later segments add every collection id, in order |
| `Paths.DescendDocIds` | firebase-wrapper.ts:32-38 | the later segments add exactly their truthy docIds, in order |
| `Paths.ChainShape` | firebase-wrapper.ts:31-38 | the chain starts at the root collection and ends on the last segment's collection; its collections are all segments' ids in order; its docs are the truthy docIds of the later segments only (the first docId is dropped) |
| `Paths.TokensChain` | firebase-wrapper.ts:23-38 | from tokens: the chain opens `collection(token[0])`, its collections are the even-indexed tokens in order, and it ends on the last even-indexed token |
| `Queries.CompileClauses` | firebase-wrapper.ts:39-57 | the loops and ifs append exactly `Clauses(options)` |
| `Queries.AddWhere` | firebase-wrapper.ts:40-42 | the loop appends one where clause per filter, in the given order, and keeps what was there |
| `Queries.AddOrderBy` | firebase-wrapper.ts:45-47 | the loop appends one orderBy clause per ordering, in the given order, and keeps what was there |
| `Queries.AddTrailing` | firebase-wrapper.ts:49-57 | appends exactly the limit, startAt and endAt clauses `TrailingClauses` gives, in that order |
| `Queries.WhereClausesAt` | firebase-wrapper.ts:39-43 | the i-th where triple becomes the i-th clause, unchanged |
| `Queries.OrderByClausesAt` | firebase-wrapper.ts:44-48 | the i-th orderBy pair becomes the i-th clause of its part, unchanged |
| `Queries.ClauseProjections` | firebase-wrapper.ts:39-48 | the where triples and the orderBy pairs appear exactly as given, in the given order; absent lists add nothing |
| `Queries.ClausesRanked` | firebase-wrapper.ts:39-57 | clause kinds never go backwards: where, orderBy, limit, startAt, endAt |
| `Queries.ClausesExtras` | firebase-wrapper.ts:49-57 | nothing else is added: a limit clause exactly when the limit is truthy (`limit: 0` adds none), carrying that limit; a cursor clause exactly when that cursor is present, carrying that cursor |
| `Queries.BuildQuery` | firebase-wrapper.ts:22-59 | `buildQuery` returns `QueryOf(path, options)`: the chain of the split path followed by the compiled clauses |
| `Queries.QueryEnds` | firebase-wrapper.ts:23-38 | every compiled query starts at `collection(token[0])` and ends on a collection |
| `Queries.DocIdOfFirstSegmentDropped` | firebase-wrapper.ts:23-38 | `users/42` resolves to the whole `users` collection |
| `Queries.EmptyDocIdSkipsDoc` | firebase-wrapper.ts:33-36 | `a/b/c/` resolves to `collection(a).collection(c)`: an empty doc id is falsy, so line 36 runs on an even token count too |
| `Queries.LaterDocIdPrecedesItsCollection` | firebase-wrapper.ts:31-38 | `a/b/c/d` resolves to `collection(a).doc(d).collection(c)`: `b` is dropped, and `d` comes before its own collection |
| `Documents.Merge` | firebase-wrapper.ts:101 | `update` sets the given fields and keeps every other field |
| `Documents.Commit` | firebase-wrapper.ts:111-113 | `batch.commit()` is all-or-nothing: on success every op is applied in order; on failure the store is unchanged and the error is a rejected write |
| `Documents.ApplyAllFrame` | firebase-wrapper.ts:111-113 | a document no op of the batch targets keeps its data, or stays absent |
| `Documents.ApplyAllSets` | firebase-wrapper.ts:76-82 | a batch of `set`s of the same data leaves that data at every target |
| `Documents.ApplyAllUpdates` | firebase-wrapper.ts:111-113 | an accepted batch of `update`s of the same data merges it once into every target, even a target matched twice |
| `Documents.ApplyAllDeletes` | firebase-wrapper.ts:128-130 | a batch of `delete`s removes every target |
| `Documents.UpdatesApplicable` | firebase-wrapper.ts:111-113 | a batch of `update`s is accepted exactly when every target exists beforehand |
| `Documents.NoUpdatesApplicable` | firebase-wrapper.ts:76-82 | a batch of only `set`s or only `delete`s is never refused because of the store's contents |
| `FirebaseWrapper.GetOneResult` | firebase-wrapper.ts:68-71 | three outcomes: no match with the flag gives a rejection; no match without it gives `false`; otherwise the data of the first match only |
| `FirebaseWrapper.GetOne` | firebase-wrapper.ts:61-72 | `getOne` compiles only the options without `errorFlag`, reads the store only, and settles to `GetOneResult` of the matches |
| `FirebaseWrapper.CreateRef` | firebase-wrapper.ts:78-79 | the ref of iteration k has 2(k+1) ids |
| `FirebaseWrapper.CreateBatch` | firebase-wrapper.ts:76-81 | an n-token path gives exactly n/2 `set`s |
| `FirebaseWrapper.CreateSetsAt` | firebase-wrapper.ts:78-80 | the k-th `set` writes `data` to reference k |
| `FirebaseWrapper.Create` | firebase-wrapper.ts:74-83 | the backwards loop builds exactly `CreateBatch` of the split path and commits it once |
| `FirebaseWrapper.CreateStep` | firebase-wrapper.ts:77-79 | each iteration (i = n-1-2k) extends the previous ref by `collection(tokens[i]).doc(tokens[i-1])`, or starts from the root for k = 0, and so builds reference k: the last 2(k+1) tokens in reverse order |
| `FirebaseWrapper.CreateRefShape` | firebase-wrapper.ts:78-79 | ref k lists `tokens[n-1], tokens[n-2], …` pair by pair from the end, and ref j is a prefix of ref k (nesting) |
| `FirebaseWrapper.CreateEffect` | firebase-wrapper.ts:74-83 | all or nothing: an accepted commit leaves `data` at all n/2 refs and every other document as before; a refused one changes nothing; only the store's verdict can refuse it (the SDK's empty-id error at line 79 is not modelled) |
| `FirebaseWrapper.CreateTwice` | firebase-wrapper.ts:74-83 | a second `create` with the same path and data is accepted and leaves the same store |
| `FirebaseWrapper.CreateWalksBackwards` | firebase-wrapper.ts:78-79 | `a/b/c/d` sets `d/c` and then `d/c/b/a` |
| `FirebaseWrapper.AllData` | firebase-wrapper.ts:88 | one entry per match: the data of the i-th match at position i |
| `FirebaseWrapper.GetAll` | firebase-wrapper.ts:85-89 | `getAll` reads the store only and returns the data of every match, in result order |
| `FirebaseWrapper.UpdateOne` | firebase-wrapper.ts:91-102 | no match throws not-found, whatever the options, and the store is unchanged; otherwise only the first match is merged with `data`; the write fails on the store's verdict, or when the first match's reference is not in the store, which a query engine that returns only stored documents (`FromStore`) never does |
| `FirebaseWrapper.DeleteOne` | firebase-wrapper.ts:116-123 | no match throws not-found, whatever the options; otherwise exactly the first match is removed, or nothing changes if the store refuses |
| `FirebaseWrapper.UpdateBatch` | firebase-wrapper.ts:112 | one `update` per match |
| `FirebaseWrapper.DeleteBatch` | firebase-wrapper.ts:129 | one `delete` per match |
| `FirebaseWrapper.UpdateMany` | firebase-wrapper.ts:104-114 | the `forEach` builds one `update` per match, in order, into a single batch that is committed once |
| `FirebaseWrapper.DeleteMany` | firebase-wrapper.ts:125-131 | the `forEach` builds one `delete` per match, in order, into a single batch that is committed once |
| `FirebaseWrapper.UpdateManyEffect` | firebase-wrapper.ts:104-114 | accepted exactly when the store agrees and every match exists; then every match is merged with `data`, unmatched documents are unchanged, and none appear or vanish; refused changes nothing; an empty match changes nothing |
| `FirebaseWrapper.UpdateManyFromStore` | firebase-wrapper.ts:104-114 | when every match is a stored document, the batch is refused only by the store's verdict |
| `FirebaseWrapper.DeleteManyEffect` | firebase-wrapper.ts:125-131 | accepted exactly when the store agrees; then exactly the matches are gone and all else is unchanged; refused changes nothing |

## Left out

- `admin.initializeApp()` and `admin.firestore()`: the store is an explicit parameter.
- `async`/`await` and promises: every operation is a sequential method that returns an outcome datatype. A rejected promise or a thrown error is `Err`/`Rejected` with an error kind. Error messages are not modelled.
- Firestore's query semantics (`where`, `orderBy`, cursors, indexes): a compiled query is data, and query execution is the uninterpreted parameter `exec`. Line 36 runs whenever a later segment's doc id is absent or empty: on odd token counts, and also on even ones with an empty token such as `a/b/c/` (`Chain(Segments(["a","b","c",""]))` is `[Collection("a"), Collection("c")]`). There the code calls `.collection` on a collection reference, which the SDK does not offer. The model records the step as a `Collection` step, and `exec` answers that query like any other.
- Failed reads and errors raised while a query is built: `exec` is total and always returns matches. No operation reports a rejected `query.get()` (lines 67, 87, 97, 110, 118, 127), or the SDK's error on an empty id for paths such as `""` or `a//b`. Without the flag, `GetOne` and `GetAll` always settle normally, with `false` or data.
- The store's own reasons to refuse a write (network, permissions, limits): these are the boolean `storeOk`.
- Concurrent writers between a query and its commit: a write runs against the store the query read.
- `Create`: requires an even token count. On an odd count, line 79 reads `tokens[-1]`, and what the SDK does with it is not modelled.
- `Create`: an empty token (for example in `/a`, `a/` or `a//b/c`) becomes an ordinary id of the stored reference; the SDK's error on an empty id at line 79 is not modelled, so such a path is written like any other.
- `Merge`: models a top-level field merge. Dotted field paths and `FieldValue` sentinels in `update` data are not modelled.
- `limit` is an integer. Non-integer numbers and `NaN` are not modelled.
- Chunking, batch-size validation, malformed-path errors and multi-path `create`: the code has none of them. It uses one batch per call and `create` takes a single path string (firebase-wrapper.ts:74, :111, :128), although firebase-wrapper-example.ts:27 passes an array of paths.
- `firebase-wrapper-example.ts` is not part of this model. It only shows call patterns.
