/**
 * Path resolution of `buildQuery`: a slash-delimited path string is split
 * into tokens, the tokens are grouped into (collection id, doc id?) segments,
 * and the segments are turned into the chain of `collection(..)`/`doc(..)`
 * steps the query starts from.
 */
module Paths {
  import opened Util

  /** JavaScript's `s.split('/')`: every '/' separates two tokens, so there is
      always at least one token, even for "". */
  function Split(s: string): (tokens: seq<string>)
    ensures |tokens| >= 1
    decreases |s|
  {
    if s == [] then [""]
    else if s[0] == '/' then [""] + Split(s[1..])
    else
      var rest := Split(s[1..]);
      [[s[0]] + rest[0]] + rest[1..]
  }

  /** `tokens.join('/')`, the inverse of Split. */
  function Join(tokens: seq<string>): string
    requires |tokens| >= 1
    decreases |tokens|
  {
    if |tokens| == 1 then tokens[0] else tokens[0] + "/" + Join(tokens[1..])
  }

  predicate NoSlash(t: string) {
    forall j :: 0 <= j < |t| ==> t[j] != '/'
  }

  /** Split produces slash-free tokens. */
  lemma {:induction false} SplitNoSlash(s: string)
    ensures forall i :: 0 <= i < |Split(s)| ==> NoSlash(Split(s)[i])
    decreases |s|
  {
    if s != [] {
      SplitNoSlash(s[1..]);
    }
  }

  /** Split's tokens joined with '/' give back the path. */
  lemma {:induction false} SplitJoin(s: string)
    ensures Join(Split(s)) == s
    decreases |s|
  {
    if s != [] {
      SplitJoin(s[1..]);
      var rest := Split(s[1..]);
      if s[0] == '/' {
        JoinEmptyHead(rest);
      } else {
        JoinExtendHead(s[0], rest[0], rest[1..]);
        assert [rest[0]] + rest[1..] == rest;
      }
      assert s == [s[0]] + s[1..];
    }
  }

  /** Join of a list given as head and tail. */
  lemma JoinCons(head: string, tail: seq<string>)
    ensures Join([head] + tail) == if tail == [] then head else head + "/" + Join(tail)
  {
    assert ([head] + tail)[0] == head && ([head] + tail)[1..] == tail;
  }

  lemma JoinEmptyHead(rest: seq<string>)
    requires |rest| >= 1
    ensures Join([""] + rest) == "/" + Join(rest)
  {
    JoinCons("", rest);
  }

  lemma JoinExtendHead(c: char, head: string, tail: seq<string>)
    ensures Join([[c] + head] + tail) == [c] + Join([head] + tail)
  {
    JoinCons([c] + head, tail);
    JoinCons(head, tail);
    if tail != [] {
      assert ([c] + head) + "/" + Join(tail) == [c] + (head + "/" + Join(tail));
    }
  }

  /** Joining slash-free tokens and splitting again gives the tokens back. */
  lemma {:induction false} JoinSplit(tokens: seq<string>)
    requires |tokens| >= 1
    requires forall i :: 0 <= i < |tokens| ==> NoSlash(tokens[i])
    ensures Split(Join(tokens)) == tokens
    decreases |tokens|
  {
    if |tokens| == 1 {
      SplitToken(tokens[0]);
    } else {
      JoinSplit(tokens[1..]);
      SplitPrefix(tokens[0], Join(tokens[1..]));
      assert [tokens[0]] + tokens[1..] == tokens;
    }
  }

  /** A slash-free string is a single token. */
  lemma {:induction false} SplitToken(t: string)
    requires NoSlash(t)
    ensures Split(t) == [t]
    decreases |t|
  {
    if t != [] {
      SplitToken(t[1..]);
      assert [t[0]] + t[1..] == t;
    }
  }

  /** Splitting `t + "/" + rest` for a slash-free `t`. */
  lemma {:induction false} SplitPrefix(t: string, rest: string)
    requires NoSlash(t)
    ensures Split(t + "/" + rest) == [t] + Split(rest)
    decreases |t|
  {
    var s := t + "/" + rest;
    if t == [] {
      assert s[1..] == rest;
    } else {
      assert s[1..] == t[1..] + "/" + rest;
      SplitPrefix(t[1..], rest);
      assert [t[0]] + t[1..] == t;
    }
  }

  /** A segment of the parsed path: `{ collectionId, docId? }`. */
  datatype PathSegment = PathSegment(collectionId: string, docId: Option<string>)

  /** The segments the `reduce` of `buildQuery` builds from the tokens: segment k
      holds token 2k as its collection id and token 2k+1, when it exists, as its doc id. */
  function Segments(tokens: seq<string>): (segments: seq<PathSegment>)
    ensures |segments| == (|tokens| + 1) / 2
  {
    seq((|tokens| + 1) / 2, k requires 0 <= k < (|tokens| + 1) / 2 =>
      PathSegment(tokens[2 * k], if 2 * k + 1 < |tokens| then Some(tokens[2 * k + 1]) else None))
  }

  /**
   * The `reduce` over the tokens: an even index pushes a new segment, an odd
   * index fills in the doc id of the last one.
   */
  method ParseSegments(tokens: seq<string>) returns (segments: seq<PathSegment>)
    ensures segments == Segments(tokens)
  {
    segments := [];
    var index := 0;
    while index < |tokens|
      invariant 0 <= index <= |tokens|
      invariant segments == Segments(tokens[..index])
    {
      if index % 2 == 0 {
        segments := segments + [PathSegment(tokens[index], None)];
      } else {
        var last := |segments| - 1;
        segments := segments[last := segments[last].(docId := Some(tokens[index]))];
      }
      index := index + 1;
    }
    assert tokens[..index] == tokens;
  }

  /** The parsed path has ceil(n/2) segments; it is never empty, since Split never is;
      its last segment lacks a doc id exactly when the token count is odd. */
  lemma SegmentsShape(tokens: seq<string>)
    requires |tokens| >= 1
    ensures |Segments(tokens)| >= 1
    ensures Segments(tokens)[0].collectionId == tokens[0]
    ensures Segments(tokens)[|Segments(tokens)| - 1].docId.None? <==> |tokens| % 2 == 1
  {
  }

  /** One step of a reference chain: `.collection(id)` or `.doc(id)`. */
  datatype Step = Collection(id: string) | Doc(id: string)

  /** The steps one later segment appends: `doc(docId)` then `collection(collectionId)`
      when the doc id is truthy, `collection(collectionId)` alone otherwise. */
  function SegmentSteps(segment: PathSegment): seq<Step> {
    if TruthyString(segment.docId) then [Doc(segment.docId.value), Collection(segment.collectionId)]
    else [Collection(segment.collectionId)]
  }

  /** The steps all later segments append, in order. */
  function Descend(segments: seq<PathSegment>): seq<Step>
    decreases |segments|
  {
    if segments == [] then []
    else Descend(segments[..|segments| - 1]) + SegmentSteps(segments[|segments| - 1])
  }

  /** The chain `buildQuery` builds: the root collection, the first segment's doc id
      dropped, then each later segment's steps. */
  function Chain(segments: seq<PathSegment>): seq<Step>
    requires |segments| >= 1
  {
    [Collection(segments[0].collectionId)] + Descend(segments[1..])
  }

  /**
   * `shift()` takes the first segment off as the root collection, then the
   * `for` loop appends each later segment's steps.
   */
  method ResolveChain(segments: seq<PathSegment>) returns (chain: seq<Step>)
    requires |segments| >= 1
    ensures chain == Chain(segments)
  {
    var root := segments[0];
    var rest := segments[1..];
    chain := [Collection(root.collectionId)];
    for i := 0 to |rest|
      invariant chain == [Collection(root.collectionId)] + Descend(rest[..i])
    {
      var segment := rest[i];
      if TruthyString(segment.docId) {
        chain := chain + [Doc(segment.docId.value), Collection(segment.collectionId)];
      } else {
        chain := chain + [Collection(segment.collectionId)];
      }
      assert rest[..i + 1][..i] == rest[..i];
    }
    assert rest[..|rest|] == rest;
  }

  /** The ids a step contributes to the collection ids or to the doc ids. */
  function CollectionIdOf(step: Step): seq<string> {
    if step.Collection? then [step.id] else []
  }

  function DocIdOf(step: Step): seq<string> {
    if step.Doc? then [step.id] else []
  }

  /** The collection ids of a chain, in order. */
  function CollectionIds(chain: seq<Step>): seq<string>
    decreases |chain|
  {
    if chain == [] then [] else CollectionIdOf(chain[0]) + CollectionIds(chain[1..])
  }

  /** The doc ids of a chain, in order. */
  function DocIds(chain: seq<Step>): seq<string>
    decreases |chain|
  {
    if chain == [] then [] else DocIdOf(chain[0]) + DocIds(chain[1..])
  }

  /** The truthy doc ids of the segments, in order. */
  function TruthyDocIds(segments: seq<PathSegment>): seq<string>
    decreases |segments|
  {
    if segments == [] then []
    else (var s := segments[|segments| - 1];
          TruthyDocIds(segments[..|segments| - 1]) + (if TruthyString(s.docId) then [s.docId.value] else []))
  }

  lemma {:induction false} CollectionIdsAppend(a: seq<Step>, b: seq<Step>)
    ensures CollectionIds(a + b) == CollectionIds(a) + CollectionIds(b)
    decreases |a|
  {
    if a == [] {
      assert a + b == b;
    } else {
      assert (a + b)[0] == a[0] && (a + b)[1..] == a[1..] + b;
      calc {
        CollectionIds(a + b);
        CollectionIdOf(a[0]) + CollectionIds(a[1..] + b);
        { CollectionIdsAppend(a[1..], b); }
        CollectionIdOf(a[0]) + (CollectionIds(a[1..]) + CollectionIds(b));
        (CollectionIdOf(a[0]) + CollectionIds(a[1..])) + CollectionIds(b);
        CollectionIds(a) + CollectionIds(b);
      }
    }
  }

  lemma {:induction false} DocIdsAppend(a: seq<Step>, b: seq<Step>)
    ensures DocIds(a + b) == DocIds(a) + DocIds(b)
    decreases |a|
  {
    if a == [] {
      assert a + b == b;
    } else {
      assert (a + b)[0] == a[0] && (a + b)[1..] == a[1..] + b;
      calc {
        DocIds(a + b);
        DocIdOf(a[0]) + DocIds(a[1..] + b);
        { DocIdsAppend(a[1..], b); }
        DocIdOf(a[0]) + (DocIds(a[1..]) + DocIds(b));
        (DocIdOf(a[0]) + DocIds(a[1..])) + DocIds(b);
        DocIds(a) + DocIds(b);
      }
    }
  }

  /** The collection id of every segment, in order. */
  function SegmentCollectionIds(segments: seq<PathSegment>): (ids: seq<string>)
    ensures |ids| == |segments|
  {
    seq(|segments|, k requires 0 <= k < |segments| => segments[k].collectionId)
  }

  /** The collection ids of a non-empty segment list: the earlier ones', then the last one's. */
  lemma SegmentCollectionIdsSnoc(segments: seq<PathSegment>)
    requires |segments| >= 1
    ensures SegmentCollectionIds(segments)
      == SegmentCollectionIds(segments[..|segments| - 1]) + [segments[|segments| - 1].collectionId]
  {
    var ids := SegmentCollectionIds(segments);
    var init := segments[..|segments| - 1];
    var snoc := SegmentCollectionIds(init) + [segments[|segments| - 1].collectionId];
    forall k | 0 <= k < |ids| ensures ids[k] == snoc[k] {
      if k < |init| {
        assert snoc[k] == SegmentCollectionIds(init)[k] == init[k].collectionId;
      }
    }
  }

  /** One later segment contributes its collection id and, when truthy, its doc id. */
  lemma SegmentStepsIds(s: PathSegment)
    ensures CollectionIds(SegmentSteps(s)) == [s.collectionId]
    ensures DocIds(SegmentSteps(s)) == (if TruthyString(s.docId) then [s.docId.value] else [])
  {
    var steps := SegmentSteps(s);
    if TruthyString(s.docId) {
      var tail := steps[1..];
      assert tail == [Collection(s.collectionId)] && tail[1..] == [];
      assert CollectionIds(tail) == [s.collectionId] + CollectionIds(tail[1..]);
      assert DocIds(tail) == [] + DocIds(tail[1..]);
      assert CollectionIds(steps) == [] + CollectionIds(tail);
      assert DocIds(steps) == [s.docId.value] + DocIds(tail);
    } else {
      assert steps[1..] == [];
      assert CollectionIds(steps) == [s.collectionId] + CollectionIds(steps[1..]);
      assert DocIds(steps) == [] + DocIds(steps[1..]);
    }
  }

  /** The later segments contribute every collection id, in order. */
  lemma {:induction false} DescendCollectionIds(segments: seq<PathSegment>)
    ensures CollectionIds(Descend(segments)) == SegmentCollectionIds(segments)
    decreases |segments|
  {
    if segments != [] {
      var init := segments[..|segments| - 1];
      var s := segments[|segments| - 1];
      calc {
        CollectionIds(Descend(segments));
        CollectionIds(Descend(init) + SegmentSteps(s));
        { CollectionIdsAppend(Descend(init), SegmentSteps(s)); }
        CollectionIds(Descend(init)) + CollectionIds(SegmentSteps(s));
        { DescendCollectionIds(init); SegmentStepsIds(s); }
        SegmentCollectionIds(init) + [s.collectionId];
        { SegmentCollectionIdsSnoc(segments); }
        SegmentCollectionIds(segments);
      }
    }
  }

  /** The later segments contribute exactly their truthy doc ids, in order. */
  lemma {:induction false} DescendDocIds(segments: seq<PathSegment>)
    ensures DocIds(Descend(segments)) == TruthyDocIds(segments)
    decreases |segments|
  {
    if segments != [] {
      var init := segments[..|segments| - 1];
      var s := segments[|segments| - 1];
      calc {
        DocIds(Descend(segments));
        DocIds(Descend(init) + SegmentSteps(s));
        { DocIdsAppend(Descend(init), SegmentSteps(s)); }
        DocIds(Descend(init)) + DocIds(SegmentSteps(s));
        { DescendDocIds(init); SegmentStepsIds(s); }
        TruthyDocIds(init) + (if TruthyString(s.docId) then [s.docId.value] else []);
      }
    }
  }

  /**
   * The resolved chain: it starts at `collection(segments[0].collectionId)`,
   * its collection steps are every segment's collection id in order, its doc
   * steps are exactly the truthy doc ids of the later segments (the first
   * segment's doc id is dropped), and it always ends on a collection: the last
   * segment's.
   */
  lemma ChainShape(segments: seq<PathSegment>)
    requires |segments| >= 1
    ensures |Chain(segments)| >= 1 && Chain(segments)[0] == Collection(segments[0].collectionId)
    ensures Chain(segments)[|Chain(segments)| - 1] == Collection(segments[|segments| - 1].collectionId)
    ensures CollectionIds(Chain(segments)) == SegmentCollectionIds(segments)
    ensures DocIds(Chain(segments)) == TruthyDocIds(segments[1..])
  {
    ChainEnds(segments);
    ChainCollectionIds(segments);
    ChainDocIds(segments);
  }

  lemma ChainEnds(segments: seq<PathSegment>)
    requires |segments| >= 1
    ensures |Chain(segments)| >= 1 && Chain(segments)[0] == Collection(segments[0].collectionId)
    ensures Chain(segments)[|Chain(segments)| - 1] == Collection(segments[|segments| - 1].collectionId)
  {
    var rest := segments[1..];
    if rest != [] {
      var steps := SegmentSteps(rest[|rest| - 1]);
      assert Descend(rest) == Descend(rest[..|rest| - 1]) + steps;
      assert steps[|steps| - 1] == Collection(segments[|segments| - 1].collectionId);
    }
  }

  lemma ChainCollectionIds(segments: seq<PathSegment>)
    requires |segments| >= 1
    ensures CollectionIds(Chain(segments)) == SegmentCollectionIds(segments)
  {
    var root := [Collection(segments[0].collectionId)];
    var rest := segments[1..];
    assert CollectionIds(root) == [segments[0].collectionId] by {
      assert root[1..] == [];
    }
    calc {
      CollectionIds(Chain(segments));
      CollectionIds(root + Descend(rest));
      { CollectionIdsAppend(root, Descend(rest)); }
      CollectionIds(root) + CollectionIds(Descend(rest));
      { DescendCollectionIds(rest); }
      [segments[0].collectionId] + SegmentCollectionIds(rest);
      { SegmentCollectionIdsCons(segments); }
      SegmentCollectionIds(segments);
    }
  }

  /** The collection ids of a non-empty segment list: the root's, then the rest's. */
  lemma SegmentCollectionIdsCons(segments: seq<PathSegment>)
    requires |segments| >= 1
    ensures SegmentCollectionIds(segments) == [segments[0].collectionId] + SegmentCollectionIds(segments[1..])
  {
    var ids := SegmentCollectionIds(segments);
    var rest := segments[1..];
    var restIds := SegmentCollectionIds(rest);
    var cons := [segments[0].collectionId] + restIds;
    forall k | 0 <= k < |ids| ensures ids[k] == cons[k] {
      if k > 0 {
        assert cons[k] == restIds[k - 1] == rest[k - 1].collectionId;
      }
    }
  }

  lemma ChainDocIds(segments: seq<PathSegment>)
    requires |segments| >= 1
    ensures DocIds(Chain(segments)) == TruthyDocIds(segments[1..])
  {
    var root := [Collection(segments[0].collectionId)];
    var rest := segments[1..];
    DescendDocIds(rest);
    DocIdsAppend(root, Descend(rest));
    assert DocIds(root) == [] by {
      assert root[1..] == [];
    }
  }

  /**
   * From tokens to chain: the chain opens `collection(tokens[0])`, visits the
   * even-indexed tokens as its collections, in order, and ends on the last
   * even-indexed token's collection, so it always denotes a collection.
   */
  lemma TokensChain(tokens: seq<string>)
    requires |tokens| >= 1
    ensures var chain := Chain(Segments(tokens));
      && |chain| >= 1
      && chain[0] == Collection(tokens[0])
      && chain[|chain| - 1] == Collection(tokens[2 * ((|tokens| - 1) / 2)])
      && CollectionIds(chain) == seq((|tokens| + 1) / 2, k requires 0 <= k < (|tokens| + 1) / 2 => tokens[2 * k])
  {
    var segments := Segments(tokens);
    ChainShape(segments);
    assert SegmentCollectionIds(segments) == seq((|tokens| + 1) / 2, k requires 0 <= k < (|tokens| + 1) / 2 => tokens[2 * k]);
  }
}
