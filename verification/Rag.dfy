/** Document ingestion and deletion over an exact vector store. */
module Rag {
  import opened Common
  import opened Sorting
  import opened Text

  type Vector = seq<real>

  type Embedder = Str -> Vector

  /** The text splitter the service is given, with its chunk size and overlap. */
  type Splitter = Str -> seq<Str>

  datatype Point = Point(
    id: string, vector: Vector, content: Str, documentId: string, brandId: string, filename: string, chunkIndex: int)

  datatype Status = PENDING | CHUNKING | EMBEDDING | READY | FAILED

  datatype Document = Document(brandId: string, filename: string, status: Status, chunkCount: int)

  // ---------- batched embedding ----------

  function Vectors(f: Embedder, texts: seq<Str>): (vs: seq<Vector>)
    ensures |vs| == |texts| && forall i :: 0 <= i < |texts| ==> vs[i] == f(texts[i])
  {
    if texts == [] then [] else Vectors(f, texts[..|texts| - 1]) + [f(texts[|texts| - 1])]
  }

  /** The number of requests for `n` texts, with at most 10 in each. */
  function Requests(n: nat): nat {
    if n == 0 then 0 else if n <= 10 then 1 else 1 + Requests(n - 10)
  }

  lemma {:induction false} RequestsIsCeiling(n: nat)
    ensures Requests(n) == (n + 9) / 10
  {
    if n > 10 {
      RequestsIsCeiling(n - 10);
    }
  }

  /** Full batches before the last cost no extra request. */
  lemma {:induction false} RequestsAdd(full: nat, rest: nat)
    requires full % 10 == 0
    ensures Requests(full + rest) == Requests(full) + Requests(rest)
    ensures Requests(full) <= Requests(full + rest)
  {
    if full > 0 {
      RequestsAdd(full - 10, rest);
      RequestsAdd(full - 10, 10);
      assert Requests(10 + rest) == 1 + Requests(rest);
      RequestsAdd(full - 10, 10 + rest);
    }
  }

  /** `texts.slice(from, from + size)`. */
  function Slice(texts: seq<Str>, from: nat, size: nat): (batch: seq<Str>)
    requires from <= |texts|
    ensures |batch| == (if from + size <= |texts| then size else |texts| - from) && batch == texts[from..from + |batch|]
  {
    if from + size <= |texts| then texts[from..from + size] else texts[from..]
  }

  /** The first `done` texts are embedded, in order. */
  ghost predicate Embedded(vs: seq<Vector>, f: Embedder, texts: seq<Str>, done: nat) {
    |vs| == done <= |texts| && forall k :: 0 <= k < done ==> vs[k] == f(texts[k])
  }

  lemma EmbeddedExtend(vs: seq<Vector>, f: Embedder, texts: seq<Str>, i: nat, batch: seq<Str>)
    requires Embedded(vs, f, texts, i) && i + |batch| <= |texts| && batch == texts[i..i + |batch|]
    ensures Embedded(vs + Vectors(f, batch), f, texts, i + |batch|)
  {
    var more := Vectors(f, batch);
    forall k | 0 <= k < i + |batch| ensures (vs + more)[k] == f(texts[k]) {
      if k >= i {
        assert batch[k - i] == texts[k];
      }
    }
  }

  /** No backend request numbered from `sent` on, among the next `n`, fails. */
  predicate AllUp(down: nat -> bool, sent: nat, n: nat) {
    forall k :: sent <= k < sent + n ==> !down(k)
  }

  /** The arithmetic of one batch of `size` texts out of `n`, after `i`. */
  lemma BatchStep(n: nat, i: nat, size: nat)
    requires i < n && i % 10 == 0 && size in {10, 100}
    ensures var b := if i + size <= n then size else n - i;
      && Requests(i + b) == Requests(i) + Requests(b) && Requests(i + b) <= Requests(n)
      && (i + size) % 10 == 0 && (size == 10 ==> Requests(b) == 1)
  {
    var b := if i + size <= n then size else n - i;
    RequestsAdd(i, b);
    RequestsMonotone(i + b, n);
  }

  lemma AllUpSplit(down: nat -> bool, first: nat, second: nat)
    ensures AllUp(down, 0, first + second) <==> AllUp(down, 0, first) && AllUp(down, first, second)
  {
  }

  lemma OuterStep(n: nat, i: nat, down: nat -> bool)
    requires i < n && i % 10 == 0 && AllUp(down, 0, Requests(i))
    ensures var b := if i + 100 <= n then 100 else n - i;
      && Requests(i + b) == Requests(i) + Requests(b) && (i + 100) % 10 == 0
      && (AllUp(down, Requests(i), Requests(b)) ==> AllUp(down, 0, Requests(i + b)))
      && (!AllUp(down, Requests(i), Requests(b)) ==> !AllUp(down, 0, Requests(n)))
  {
    BatchStep(n, i, 100);
    AllUpSplit(down, Requests(i), Requests(if i + 100 <= n then 100 else n - i));
  }

  /** `AlibabaProvider.embed`: at most 10 texts in a request. `sent` requests were made before; a failed
      request throws. */
  method EmbedAlibaba(texts: seq<Str>, f: Embedder, down: nat -> bool, sent: nat)
    returns (results: Option<seq<Vector>>, requests: nat)
    ensures AllUp(down, sent, Requests(|texts|)) ==>
      results == Some(Vectors(f, texts)) && requests == sent + Requests(|texts|)
    ensures !AllUp(down, sent, Requests(|texts|)) ==> results == None
  {
    var vs: seq<Vector> := [];
    requests := sent;
    var i := 0;
    ghost var done := 0;
    while i < |texts|
      invariant 0 <= i && i % 10 == 0 && done <= |texts| && (done == i || (done == |texts| <= i))
      invariant Embedded(vs, f, texts, done)
      invariant requests == sent + Requests(done) && AllUp(down, sent, Requests(done))
    {
      var batch := Slice(texts, i, 10);
      done := done + |batch|;
      BatchStep(|texts|, i, 10);
      EmbeddedExtend(vs, f, texts, i, batch);
      if down(requests) {
        return None, requests + 1;
      }
      requests := requests + 1;
      vs := vs + Vectors(f, batch);
      i := i + 10;
    }
    assert vs == Vectors(f, texts);
    return Some(vs), requests;
  }

  lemma {:induction false} RequestsMonotone(a: nat, b: nat)
    requires a <= b
    ensures Requests(a) <= Requests(b)
    decreases b
  {
    if a > 10 {
      RequestsMonotone(a - 10, b - 10);
    }
  }

  /** One batch of up to 100 chunks, from number `i` on. */
  method EmbedBatch(chunks: seq<Str>, f: Embedder, down: nat -> bool, i: nat, ghost vs: seq<Vector>, sent: nat)
    returns (embeddings: Option<seq<Vector>>, requests: nat, ghost done: nat)
    requires i < |chunks| && i % 10 == 0 && Embedded(vs, f, chunks, i)
    requires sent == Requests(i) && AllUp(down, 0, sent)
    ensures embeddings == None ==> !AllUp(down, 0, Requests(|chunks|))
    ensures embeddings.Some? ==>
      && done == (if i + 100 <= |chunks| then i + 100 else |chunks|)
      && Embedded(vs + embeddings.value, f, chunks, done)
      && requests == Requests(done) && AllUp(down, 0, requests)
  {
    var batch := Slice(chunks, i, 100);
    done := i + |batch|;
    OuterStep(|chunks|, i, down);
    EmbeddedExtend(vs, f, chunks, i, batch);
    embeddings, requests := EmbedAlibaba(batch, f, down, sent);
  }

  /** The embedding loop of `processDocument`: batches of 100 chunks over the provider's batches of 10.
      The result is that of embedding everything at once, in as few requests as batches of 10 allow. */
  method EmbedAll(chunks: seq<Str>, f: Embedder, down: nat -> bool)
    returns (allEmbeddings: Option<seq<Vector>>, requests: nat)
    ensures AllUp(down, 0, Requests(|chunks|)) ==>
      allEmbeddings == Some(Vectors(f, chunks)) && requests == Requests(|chunks|)
    ensures !AllUp(down, 0, Requests(|chunks|)) ==> allEmbeddings == None
  {
    var vs: seq<Vector> := [];
    requests := 0;
    var i := 0;
    ghost var done := 0;
    while i < |chunks|
      invariant 0 <= i && i % 10 == 0 && done <= |chunks| && (done == i || (done == |chunks| <= i))
      invariant Embedded(vs, f, chunks, done)
      invariant requests == Requests(done) && AllUp(down, 0, requests)
    {
      var embeddings;
      embeddings, requests, done := EmbedBatch(chunks, f, down, i, vs, requests);
      if embeddings == None {
        return None, requests;
      }
      vs := vs + embeddings.value;
      i := i + 100;
    }
    assert vs == Vectors(f, chunks);
    return Some(vs), requests;
  }

  // ---------- the exact store ----------

  type Store = map<string, seq<Point>>

  function CollectionName(brandId: string): string {
    "brand_" + brandId
  }

  /** Every brand has a collection of its own. */
  lemma CollectionsDiffer(brandId: string, other: string)
    ensures CollectionName(brandId) == CollectionName(other) <==> brandId == other
  {
    assert CollectionName(brandId)[6..] == brandId && CollectionName(other)[6..] == other;
  }

  function PointsOf(store: Store, collection: string): seq<Point> {
    if collection in store then store[collection] else []
  }

  function UpsertOne(points: seq<Point>, p: Point): seq<Point> {
    if points == [] then [p]
    else if points[0].id == p.id then [p] + points[1..]
    else [points[0]] + UpsertOne(points[1..], p)
  }

  function Upsert(points: seq<Point>, more: seq<Point>): seq<Point> {
    if more == [] then points else UpsertOne(Upsert(points, more[..|more| - 1]), more[|more| - 1])
  }

  function OfDocument(points: seq<Point>, d: string): seq<Point> {
    if points == [] then []
    else if points[0].documentId == d then [points[0]] + OfDocument(points[1..], d)
    else OfDocument(points[1..], d)
  }

  function Without(points: seq<Point>, ids: set<string>): seq<Point> {
    if points == [] then []
    else if points[0].id in ids then Without(points[1..], ids)
    else [points[0]] + Without(points[1..], ids)
  }

  function IdsOf(points: seq<Point>): set<string> {
    set p | p in points :: p.id
  }

  ghost predicate DistinctIds(points: seq<Point>) {
    forall i, j :: 0 <= i < j < |points| ==> points[i].id != points[j].id
  }

  const DELETE_LIMIT := 10000

  /** The points a search filtered by document returns: at most the limit, best first. */
  function Found(points: seq<Point>, d: string, score: Point -> real): seq<Point> {
    var ranked := StableSort(OfDocument(points, d), score);
    if |ranked| <= DELETE_LIMIT then ranked else ranked[..DELETE_LIMIT]
  }

  /** Deleting a document's points: those a search for it returns. */
  function Purged(points: seq<Point>, d: string, score: Point -> real): seq<Point> {
    Without(points, IdsOf(Found(points, d, score)))
  }

  // ---------- the service ----------

  /** The outside of one ingestion: which updates of the document's row fail, the parsed text unless the
      parser throws, the embedding backend, the generated point ids, and whether the store refuses the upsert. */
  datatype World = World(
    rowFails: Status -> bool, parsed: Option<Str>, f: Embedder, down: nat -> bool, uuid: nat -> string, storeFails: bool)

  function PointsFor(w: World, doc: Document, d: string, chunks: seq<Str>): (ps: seq<Point>)
    ensures |ps| == |chunks|
    ensures forall i :: 0 <= i < |ps| ==>
      ps[i] == Point(w.uuid(i), w.f(chunks[i]), chunks[i], d, doc.brandId, doc.filename, i)
  {
    seq(|chunks|, i requires 0 <= i < |chunks| =>
      Point(w.uuid(i), w.f(chunks[i]), chunks[i], d, doc.brandId, doc.filename, i))
  }

  function ChunksOf(w: World, splitter: Splitter): seq<Str> {
    if w.parsed == None then [] else splitter(w.parsed.value)
  }

  /** The ingestion gets as far as embedding ... */
  predicate ReachesEmbedding(w: World) {
    !w.rowFails(CHUNKING) && w.parsed.Some? && !w.rowFails(EMBEDDING)
  }

  /** ... as storing all points ... */
  predicate Stores(w: World, splitter: Splitter) {
    ReachesEmbedding(w) && !w.storeFails && AllUp(w.down, 0, Requests(|ChunksOf(w, splitter)|))
  }

  /** ... and to its end. */
  predicate Succeeds(w: World, splitter: Splitter) {
    Stores(w, splitter) && !w.rowFails(READY)
  }

  /** The state of the row when the `try` ends, from the state it had at first. */
  function StatusReached(w: World, splitter: Splitter, first: Status): Status {
    if Succeeds(w, splitter) then READY
    else if ReachesEmbedding(w) then EMBEDDING
    else if !w.rowFails(CHUNKING) then CHUNKING
    else first
  }

  /** The state of the row at the end: a failure is recorded, unless that update fails as well. */
  function FinalStatus(w: World, splitter: Splitter, first: Status): Status {
    if Succeeds(w, splitter) || w.rowFails(FAILED) then StatusReached(w, splitter, first) else FAILED
  }

  /** The states a document goes through. */
  function Stages(w: World, splitter: Splitter): seq<Status> {
    (if w.rowFails(CHUNKING) then [] else if !ReachesEmbedding(w) then [CHUNKING] else [CHUNKING, EMBEDDING])
    + (if Succeeds(w, splitter) then [READY] else if w.rowFails(FAILED) then [] else [FAILED])
  }

  /** One operation of the service on its rows and its store. */
  datatype Op =
    | Create(d: string, brandId: string, filename: string)
    | Process(d: string, w: World)
    | Delete(d: string, score: Point -> real)

  function Apply(op: Op, splitter: Splitter, docs: map<string, Document>, store: Store): (map<string, Document>, Store) {
    if op.Create? then (docs[op.d := Document(op.brandId, op.filename, PENDING, 0)], store)
    else if op.d !in docs then (docs, store)
    else
      var d, doc, c := op.d, docs[op.d], CollectionName(docs[op.d].brandId);
      if op.Process? then
        var chunks := ChunksOf(op.w, splitter);
        (docs[d := doc.(status := FinalStatus(op.w, splitter, doc.status),
                        chunkCount := if Succeeds(op.w, splitter) then |chunks| else doc.chunkCount)],
         if Stores(op.w, splitter) then store[c := Upsert(PointsOf(store, c), PointsFor(op.w, doc, d, chunks))] else store)
      else (docs - {d}, if c in store then store[c := Purged(store[c], d, op.score)] else store)
  }

  /** The same points in every collection; an empty collection holds the same as none. */
  ghost predicate SameContents(store: Store, other: Store) {
    forall k :: PointsOf(store, k) == PointsOf(other, k)
  }

  datatype DeleteReply = Deleted | DocumentNotFound | EmbeddingFailed

  class RAGService {
    const splitter: Splitter
    var docs: map<string, Document>
    var store: Store

    constructor (splitter: Splitter)
      ensures this.splitter == splitter && docs == map[] && store == map[]
    {
      this.splitter, docs, store := splitter, map[], map[];
    }

    /** The first part of `ingest`: the row of the new document. Its id is generated. */
    method CreateDocument(d: string, brandId: string, filename: string)
      requires d !in docs
      modifies this`docs
      ensures (docs, store) == Apply(Create(d, brandId, filename), splitter, old(docs), old(store))
    {
      docs := docs[d := Document(brandId, filename, PENDING, 0)];
    }

    /** An update of the row that may throw. */
    method UpdateRow(d: string, row: Document, fails: bool, ghost stages: seq<Status>)
      returns (ok: bool, ghost stages': seq<Status>)
      requires d in docs
      modifies this`docs
      ensures ok == !fails && docs == if ok then old(docs)[d := row] else old(docs)
      ensures stages' == if ok then stages + [row.status] else stages
    {
      ok, stages' := !fails, stages;
      if ok {
        docs := docs[d := row];
        stages' := stages + [row.status];
      }
    }

    /** The steps of the `try` up to the embedding: the chunks, unless something throws. */
    method Chunk(d: string, w: World) returns (chunks: Option<seq<Str>>, ghost stages: seq<Status>)
      requires d in docs
      modifies this`docs
      ensures chunks == if ReachesEmbedding(w) then Some(ChunksOf(w, splitter)) else None
      ensures stages == if w.rowFails(CHUNKING) then [] else if ReachesEmbedding(w) then [CHUNKING, EMBEDDING] else [CHUNKING]
      ensures var doc := old(docs)[d];
        docs == old(docs)[d := doc.(status :=
          if ReachesEmbedding(w) then EMBEDDING else if !w.rowFails(CHUNKING) then CHUNKING else doc.status)]
    {
      var row := docs[d];
      var ok;
      ok, stages := UpdateRow(d, row.(status := CHUNKING), w.rowFails(CHUNKING), []);
      if !ok || w.parsed == None {
        return None, stages;
      }
      var parts := splitter(w.parsed.value);
      ok, stages := UpdateRow(d, row.(status := EMBEDDING), w.rowFails(EMBEDDING), stages);
      return if ok then Some(parts) else None, stages;
    }

    /** The upsert: all points or, if the store refuses them, at most an empty collection. */
    method StorePoints(d: string, w: World, chunks: seq<Str>, allEmbeddings: seq<Vector>) returns (ok: bool)
      requires d in docs && allEmbeddings == Vectors(w.f, chunks)
      modifies this`store
      ensures ok == !w.storeFails
      ensures var c := CollectionName(docs[d].brandId);
        SameContents(store,
          if ok then old(store)[c := Upsert(PointsOf(old(store), c), PointsFor(w, docs[d], d, chunks))] else old(store))
    {
      var doc := docs[d];
      var collection := CollectionName(doc.brandId);
      if collection !in store {
        store := store[collection := []];
      }
      var points := seq(|chunks|, i requires 0 <= i < |chunks| =>
        Point(w.uuid(i), allEmbeddings[i], chunks[i], d, doc.brandId, doc.filename, i));
      assert points == PointsFor(w, doc, d, chunks);
      ok := !w.storeFails;
      if ok {
        store := store[collection := Upsert(store[collection], points)];
      }
    }

    /** The rest of the `try`: it runs to the end or throws on the way. */
    method EmbedAndStore(d: string, w: World, chunks: seq<Str>, ghost stages: seq<Status>)
      returns (done: bool, ghost stages': seq<Status>)
      requires d in docs && ReachesEmbedding(w) && chunks == ChunksOf(w, splitter)
      modifies this
      ensures done == Succeeds(w, splitter)
      ensures docs == if done then old(docs)[d := old(docs)[d].(status := READY, chunkCount := |chunks|)] else old(docs)
      ensures stages' == if done then stages + [READY] else stages
      ensures var c := CollectionName(old(docs)[d].brandId);
        SameContents(store,
          if Stores(w, splitter) then old(store)[c := Upsert(PointsOf(old(store), c), PointsFor(w, old(docs)[d], d, chunks))]
          else old(store))
    {
      var allEmbeddings, _ := EmbedAll(chunks, w.f, w.down);
      if allEmbeddings == None {
        return false, stages;
      }
      var ok := StorePoints(d, w, chunks, allEmbeddings.value);
      if !ok {
        return false, stages;
      }
      done, stages' := UpdateRow(d, docs[d].(status := READY, chunkCount := |chunks|), w.rowFails(READY), stages);
    }

    /** A failure is recorded in the row; if that fails as well, the rejection is nobody's concern. */
    method ProcessDocument(d: string, w: World) returns (ghost stages: seq<Status>)
      requires d in docs
      modifies this
      ensures docs == Apply(Process(d, w), splitter, old(docs), old(store)).0
      ensures SameContents(store, Apply(Process(d, w), splitter, old(docs), old(store)).1)
      ensures stages == Stages(w, splitter)
    {
      var done, chunks := false, None;
      chunks, stages := Chunk(d, w);
      PointsIgnoreStatus(w, old(docs)[d], docs[d], d, ChunksOf(w, splitter));
      if chunks.Some? {
        done, stages := EmbedAndStore(d, w, chunks.value, stages);
      }
      if !done {
        var _, after := UpdateRow(d, docs[d].(status := FAILED), w.rowFails(FAILED), stages);
        stages := after;
      }
    }

    method DeleteDocument(d: string, brandId: string, score: Point -> real, embedFails: bool) returns (reply: DeleteReply)
      modifies this
      ensures
        if !(d in old(docs) && old(docs)[d].brandId == brandId) then
          reply == DocumentNotFound && docs == old(docs) && store == old(store)
        else if CollectionName(brandId) in old(store) && embedFails then
          reply == EmbeddingFailed && docs == old(docs) && store == old(store)
        else
          reply == Deleted && (docs, store) == Apply(Delete(d, score), splitter, old(docs), old(store))
    {
      if d !in docs || docs[d].brandId != brandId {
        return DocumentNotFound;
      }
      var collection := CollectionName(brandId);
      if collection in store {
        if embedFails {
          return EmbeddingFailed;
        }
        var results := Found(store[collection], d, score);
        if |results| > 0 {
          store := store[collection := Without(store[collection], IdsOf(results))];
        } else {
          WithoutNothing(store[collection]);
          assert IdsOf(results) == {};
          assert store[collection := store[collection]] == store;
        }
      }
      docs := docs - {d};
      return Deleted;
    }
  }

  lemma PointsIgnoreStatus(w: World, doc: Document, other: Document, d: string, chunks: seq<Str>)
    requires other == doc.(status := other.status)
    ensures PointsFor(w, other, d, chunks) == PointsFor(w, doc, d, chunks)
  {
  }

  lemma {:induction false} WithoutNothing(points: seq<Point>)
    ensures Without(points, {}) == points
  {
    if points != [] {
      WithoutNothing(points[1..]);
    }
  }

  // ---------- what deletion leaves ----------

  lemma {:induction false} OfDocumentMembers(points: seq<Point>, d: string)
    ensures forall p :: p in OfDocument(points, d) <==> p in points && p.documentId == d
    ensures DistinctIds(points) ==> DistinctIds(OfDocument(points, d))
  {
    if points != [] {
      var head, tail := points[0], points[1..];
      OfDocumentMembers(tail, d);
      assert points == [head] + tail;
      if DistinctIds(points) && head.documentId == d {
        HeadDistinct(points);
        DistinctCons(head, OfDocument(tail, d));
      }
    }
  }

  lemma HeadDistinct(points: seq<Point>)
    requires points != [] && DistinctIds(points)
    ensures DistinctIds(points[1..]) && forall p :: p in points[1..] ==> p.id != points[0].id
  {
  }

  lemma DistinctCons(head: Point, tail: seq<Point>)
    requires DistinctIds(tail) && forall p :: p in tail ==> p.id != head.id
    ensures DistinctIds([head] + tail)
  {
  }

  /** Without ids that belong to no point of document `e`, its points stay as they are. */
  lemma {:induction false} WithoutSpares(points: seq<Point>, ids: set<string>, e: string)
    requires forall p :: p in points && p.documentId == e ==> p.id !in ids
    ensures OfDocument(Without(points, ids), e) == OfDocument(points, e)
  {
    if points != [] {
      var head, tail := points[0], points[1..];
      assert points == [head] + tail;
      WithoutSpares(tail, ids, e);
      if head.id !in ids {
        assert Without(points, ids) == [head] + Without(tail, ids);
      }
    }
  }

  lemma {:induction false} WithoutCommutes(points: seq<Point>, ids: set<string>, d: string)
    ensures OfDocument(Without(points, ids), d) == Without(OfDocument(points, d), ids)
  {
    if points != [] {
      var head, tail := points[0], points[1..];
      WithoutCommutes(tail, ids, d);
      if head.id !in ids {
        assert Without(points, ids) == [head] + Without(tail, ids);
      }
      if head.documentId == d {
        assert OfDocument(points, d) == [head] + OfDocument(tail, d);
      }
    }
  }

  lemma {:induction false} WithoutUnused(points: seq<Point>, ids: set<string>, id: string)
    requires forall p :: p in points ==> p.id != id
    ensures Without(points, ids - {id}) == Without(points, ids)
  {
    if points != [] {
      assert points[0] in points && forall p :: p in points[1..] ==> p in points;
      WithoutUnused(points[1..], ids, id);
    }
  }

  lemma IdsOfTail(points: seq<Point>, ids: set<string>)
    requires points != [] && ids <= IdsOf(points)
    ensures ids - {points[0].id} <= IdsOf(points[1..])
  {
    var head, tail := points[0], points[1..];
    assert points == [head] + tail;
    forall id | id in ids - {head.id} ensures id in IdsOf(tail) {
      var p :| p in points && p.id == id;
      assert p in tail;
    }
  }

  /** Removing ids that all occur removes that many points. */
  lemma {:induction false} WithoutCount(points: seq<Point>, ids: set<string>)
    requires DistinctIds(points) && ids <= IdsOf(points)
    ensures |Without(points, ids)| == |points| - |ids|
  {
    if points == [] {
      assert ids == {};
    } else {
      HeadDistinct(points);
      IdsOfTail(points, ids);
      WithoutCount(points[1..], ids - {points[0].id});
      WithoutUnused(points[1..], ids, points[0].id);
      RemoveOne(ids, points[0].id);
    }
  }

  lemma RemoveOne(ids: set<string>, id: string)
    ensures |ids - {id}| == |ids| - if id in ids then 1 else 0
  {
    if id !in ids {
      assert ids - {id} == ids;
    }
  }

  lemma {:induction false} IdsCount(points: seq<Point>)
    requires DistinctIds(points)
    ensures |IdsOf(points)| == |points|
  {
    if points != [] {
      HeadDistinct(points);
      IdsCount(points[1..]);
      assert points == [points[0]] + points[1..];
      assert IdsOf(points) == IdsOf(points[1..]) + {points[0].id};
    }
  }

  lemma FoundSpec(points: seq<Point>, d: string, score: Point -> real)
    requires DistinctIds(points)
    ensures var found, all := Found(points, d, score), OfDocument(points, d);
      && (forall p :: p in found ==> p in all)
      && |IdsOf(found)| == (if |all| <= DELETE_LIMIT then |all| else DELETE_LIMIT)
      && (|all| <= DELETE_LIMIT ==> IdsOf(found) == IdsOf(all))
  {
    var all := OfDocument(points, d);
    var ranked, found := StableSort(all, score), Found(points, d, score);
    OfDocumentMembers(points, d);
    SortSpec(all, score);
    SamePoints(all, ranked);
    assert forall i, j :: 0 <= i < j < |found| ==> found[i] == ranked[i] && found[j] == ranked[j];
    IdsCount(found);
  }

  lemma SamePoints(all: seq<Point>, ranked: seq<Point>)
    requires multiset(ranked) == multiset(all) && DistinctIds(all)
    ensures |ranked| == |all| && DistinctIds(ranked) && forall p :: p in ranked <==> p in all
  {
    assert |multiset(ranked)| == |ranked| && |multiset(all)| == |all|;
    assert forall p :: p in ranked <==> p in multiset(ranked);
    assert forall p :: p in all <==> p in multiset(all);
    forall i, j | 0 <= i < j < |ranked| ensures ranked[i].id != ranked[j].id {
      assert ranked[i] in all && ranked[j] in all;
      if ranked[i] == ranked[j] {
        assert ranked == ranked[..j] + [ranked[j]] + ranked[j + 1..] && ranked[i] in ranked[..j];
        assert multiset(ranked)[ranked[i]] >= 2;
        AtMostOnce(all, ranked[i]);
      }
    }
  }

  lemma {:induction false} AtMostOnce(points: seq<Point>, p: Point)
    requires DistinctIds(points)
    ensures multiset(points)[p] <= 1
  {
    if points != [] {
      HeadDistinct(points);
      AtMostOnce(points[1..], p);
      assert points == [points[0]] + points[1..];
      if points[0] == p {
        assert p !in points[1..];
      }
    }
  }

  /** Deleting a document leaves the points of every other document as they are, and of its own those
      beyond the first 10000. */
  lemma PurgeSpec(points: seq<Point>, d: string, score: Point -> real)
    requires DistinctIds(points)
    ensures forall e :: e != d ==> OfDocument(Purged(points, d, score), e) == OfDocument(points, e)
    ensures var n := |OfDocument(points, d)|;
      |OfDocument(Purged(points, d, score), d)| == Max(0, n - 10000)
    ensures DistinctIds(Purged(points, d, score))
  {
    var ids, all := IdsOf(Found(points, d, score)), OfDocument(points, d);
    FoundSpec(points, d, score);
    FoundIdsAreOwn(points, d, score);
    forall e | e != d ensures OfDocument(Purged(points, d, score), e) == OfDocument(points, e) {
      WithoutSpares(points, ids, e);
    }
    WithoutCommutes(points, ids, d);
    OfDocumentMembers(points, d);
    assert ids <= IdsOf(all);
    WithoutCount(all, ids);
    WithoutDistinct(points, ids);
  }

  lemma FoundIdsAreOwn(points: seq<Point>, d: string, score: Point -> real)
    requires DistinctIds(points)
    ensures forall p :: p in points && p.documentId != d ==> p.id !in IdsOf(Found(points, d, score))
  {
    FoundSpec(points, d, score);
    OfDocumentMembers(points, d);
    forall p, q | p in points && p.documentId != d && q in Found(points, d, score) ensures p.id != q.id {
      assert q in points && q.documentId == d;
    }
  }

  lemma {:induction false} WithoutDistinct(points: seq<Point>, ids: set<string>)
    requires DistinctIds(points)
    ensures DistinctIds(Without(points, ids)) && forall p :: p in Without(points, ids) ==> p in points
  {
    if points != [] {
      HeadDistinct(points);
      WithoutDistinct(points[1..], ids);
      if points[0].id !in ids {
        DistinctCons(points[0], Without(points[1..], ids));
      }
    }
  }

  // ---------- ingest, then delete ----------

  lemma {:induction false} UpsertOneFresh(points: seq<Point>, p: Point)
    requires forall q :: q in points ==> q.id != p.id
    ensures UpsertOne(points, p) == points + [p]
  {
    if points != [] {
      UpsertOneFresh(points[1..], p);
      assert points == [points[0]] + points[1..];
    }
  }

  /** A point with the id of a stored one takes its place. */
  lemma {:induction false} UpsertOneReplaces(points: seq<Point>, p: Point, k: nat)
    requires k < |points| && points[k].id == p.id && forall j :: 0 <= j < k ==> points[j].id != p.id
    ensures UpsertOne(points, p) == points[k := p]
  {
    if k > 0 {
      UpsertOneReplaces(points[1..], p, k - 1);
      assert points[k := p] == [points[0]] + points[1..][k - 1 := p];
    } else {
      assert points[0 := p] == [p] + points[1..];
    }
  }

  lemma {:induction false} UpsertFresh(points: seq<Point>, more: seq<Point>)
    requires DistinctIds(points + more)
    ensures Upsert(points, more) == points + more
  {
    if more != [] {
      var init, last := more[..|more| - 1], more[|more| - 1];
      assert points + more == (points + init) + [last];
      LastDistinct(points + init, last);
      UpsertFresh(points, init);
      UpsertOneFresh(points + init, last);
    }
  }

  lemma LastDistinct(points: seq<Point>, last: Point)
    requires DistinctIds(points + [last])
    ensures DistinctIds(points) && forall q :: q in points ==> q.id != last.id
  {
    var all := points + [last];
    assert all[|points|] == last && forall i :: 0 <= i < |points| ==> all[i] == points[i];
  }

  lemma {:induction false} WithoutSuffix(points: seq<Point>, more: seq<Point>, ids: set<string>)
    requires forall p :: p in points ==> p.id !in ids
    requires forall p :: p in more ==> p.id in ids
    ensures Without(points + more, ids) == points
  {
    if points != [] {
      assert (points + more)[1..] == points[1..] + more;
      assert points[0] in points && forall p :: p in points[1..] ==> p in points;
      WithoutSuffix(points[1..], more, ids);
    } else if more != [] {
      assert points + more == more && more[0] in more && forall p :: p in more[1..] ==> p in more;
      WithoutSuffix([], more[1..], ids);
      assert [] + more[1..] == more[1..];
    }
  }

  lemma {:induction false} OfDocumentSplit(points: seq<Point>, more: seq<Point>, d: string)
    requires forall p :: p in points ==> p.documentId != d
    requires forall p :: p in more ==> p.documentId == d
    ensures OfDocument(points + more, d) == more
  {
    if points != [] {
      assert (points + more)[1..] == points[1..] + more;
      assert points[0] in points && forall p :: p in points[1..] ==> p in points;
      OfDocumentSplit(points[1..], more, d);
    } else if more != [] {
      assert points + more == more && more[0] in more && forall p :: p in more[1..] ==> p in more;
      OfDocumentSplit([], more[1..], d);
      assert [] + more[1..] == more[1..];
    }
  }

  lemma AppendDistinct(points: seq<Point>, more: seq<Point>)
    requires DistinctIds(points + more)
    ensures forall p :: p in points ==> p.id !in IdsOf(more)
  {
    var all := points + more;
    forall p, q | p in points && q in more ensures p.id != q.id {
      var i: nat :| i < |points| && points[i] == p;
      var j: nat :| j < |more| && more[j] == q;
      assert all[i] == p && all[|points| + j] == q;
    }
  }

  // ---------- operations in sequence ----------

  /** Point ids are distinct within a collection, a READY document counts exactly its stored points, and a
      PENDING one has none. */
  ghost predicate Consistent(docs: map<string, Document>, store: Store) {
    && (forall k :: k in store ==> DistinctIds(store[k]))
    && (forall d :: d in docs ==> Counted(docs[d], OfDocument(PointsOf(store, CollectionName(docs[d].brandId)), d)))
  }

  ghost predicate Counted(doc: Document, points: seq<Point>) {
    && (doc.status == READY ==> |points| == doc.chunkCount)
    && (doc.status == PENDING ==> points == [])
  }

  /** Generated ids are fresh, and a document is processed when it is new. */
  ghost predicate FreshFor(op: Op, splitter: Splitter, docs: map<string, Document>, store: Store) {
    && (op.Create? ==> op.d !in docs && forall k :: OfDocument(PointsOf(store, k), op.d) == [])
    && (op.Process? && op.d in docs ==>
          && docs[op.d].status == PENDING
          && DistinctIds(PointsOf(store, CollectionName(docs[op.d].brandId))
                         + PointsFor(op.w, docs[op.d], op.d, ChunksOf(op.w, splitter))))
  }

  lemma NoPointsOf(points: seq<Point>, d: string)
    requires OfDocument(points, d) == []
    ensures forall p :: p in points ==> p.documentId != d
  {
    OfDocumentMembers(points, d);
    forall p | p in points ensures p.documentId != d {
      assert p !in OfDocument(points, d);
    }
  }

  lemma {:induction false} OfDocumentAppend(points: seq<Point>, more: seq<Point>, e: string)
    requires forall p :: p in more ==> p.documentId != e
    ensures OfDocument(points + more, e) == OfDocument(points, e)
  {
    if points != [] {
      assert (points + more)[1..] == points[1..] + more;
      OfDocumentAppend(points[1..], more, e);
    } else if more != [] {
      assert points + more == more && more[0] in more && forall p :: p in more[1..] ==> p in more;
      OfDocumentAppend([], more[1..], e);
      assert [] + more[1..] == more[1..];
    }
  }

  lemma UpsertSpec(before: seq<Point>, points: seq<Point>, d: string)
    requires DistinctIds(before + points)
    requires forall p :: p in before ==> p.documentId != d
    requires forall p :: p in points ==> p.documentId == d
    ensures DistinctIds(Upsert(before, points)) && OfDocument(Upsert(before, points), d) == points
    ensures forall e :: e != d ==> OfDocument(Upsert(before, points), e) == OfDocument(before, e)
  {
    UpsertFresh(before, points);
    OfDocumentSplit(before, points, d);
    forall e | e != d ensures OfDocument(before + points, e) == OfDocument(before, e) {
      OfDocumentAppend(before, points, e);
    }
  }

  /** Processing a new document stores the points of all its chunks or nothing. It ends READY just when all
      goes well, and FAILED just when something fails and that can be recorded; otherwise it stays PENDING,
      CHUNKING or EMBEDDING, as far as it got. A document that does not end READY has points in the store if and
      only if it has chunks and nothing failed before the update that was to mark it READY. */
  lemma ProcessSpec(d: string, w: World, splitter: Splitter, docs: map<string, Document>, store: Store)
    requires d in docs && Consistent(docs, store) && FreshFor(Process(d, w), splitter, docs, store)
    ensures var (docs', store') := Apply(Process(d, w), splitter, docs, store);
      var c, chunks, status := CollectionName(docs[d].brandId), ChunksOf(w, splitter), docs'[d].status;
      && OfDocument(PointsOf(store', c), d) == (if Stores(w, splitter) then PointsFor(w, docs[d], d, chunks) else [])
      && (forall e :: e != d ==> OfDocument(PointsOf(store', c), e) == OfDocument(PointsOf(store, c), e))
      && (status == READY <==>
            && w.parsed.Some? && !w.storeFails && !w.rowFails(CHUNKING) && !w.rowFails(EMBEDDING) && !w.rowFails(READY)
            && forall k :: 0 <= k < Requests(|chunks|) ==> !w.down(k))
      && (status == READY ==> docs'[d].chunkCount == |chunks|)
      && (status == FAILED <==> !Succeeds(w, splitter) && !w.rowFails(FAILED))
      && (status == PENDING <==> w.rowFails(CHUNKING) && w.rowFails(FAILED))
      && (status == CHUNKING <==> !w.rowFails(CHUNKING) && !ReachesEmbedding(w) && w.rowFails(FAILED))
      && (status == EMBEDDING <==> ReachesEmbedding(w) && !Succeeds(w, splitter) && w.rowFails(FAILED))
      && (status != READY ==>
            (OfDocument(PointsOf(store', c), d) != [] <==> chunks != [] && Stores(w, splitter) && w.rowFails(READY)))
  {
    var before := PointsOf(store, CollectionName(docs[d].brandId));
    NoPointsOf(before, d);
    if Stores(w, splitter) {
      UpsertSpec(before, PointsFor(w, docs[d], d, ChunksOf(w, splitter)), d);
    }
  }

  /** The states passed through: each at most once, in this order, and just when the step before went well. */
  lemma StagesSpec(w: World, splitter: Splitter)
    ensures var stages, ready := Stages(w, splitter), Succeeds(w, splitter);
      && (CHUNKING in stages <==> !w.rowFails(CHUNKING))
      && (EMBEDDING in stages <==> !w.rowFails(CHUNKING) && w.parsed.Some? && !w.rowFails(EMBEDDING))
      && (READY in stages <==> ready) && (FAILED in stages <==> !ready && !w.rowFails(FAILED)) && PENDING !in stages
      && (forall i, j :: 0 <= i < j < |stages| ==>
            || (stages[i] == CHUNKING && stages[j] != CHUNKING)
            || (stages[i] == EMBEDDING && stages[j] in {READY, FAILED}))
  {
  }

  /** The points that deletion finds are those that score best. */
  lemma FoundBest(points: seq<Point>, d: string, score: Point -> real, p: Point, q: Point)
    requires DistinctIds(points) && p in Found(points, d, score)
    requires q in points && q.documentId == d && q !in Found(points, d, score)
    ensures p.documentId == d && p in points && score(p) >= score(q)
  {
    var all := OfDocument(points, d);
    var ranked, found := StableSort(all, score), Found(points, d, score);
    FoundSpec(points, d, score);
    OfDocumentMembers(points, d);
    SortSpec(all, score);
    SamePoints(all, ranked);
    var i: nat :| i < |found| && found[i] == p;
    var j: nat :| j < |ranked| && ranked[j] == q;
    assert forall k :: 0 <= k < |found| ==> ranked[k] == found[k] && found[k] in found;
  }

  /** Adding fresh points of a document and purging it restores the collection exactly up to 10000 points. */
  lemma UpsertThenPurge(before: seq<Point>, points: seq<Point>, d: string, score: Point -> real)
    requires DistinctIds(before + points)
    requires forall p :: p in before ==> p.documentId != d
    requires forall p :: p in points ==> p.documentId == d
    ensures Purged(Upsert(before, points), d, score) == before <==> |points| <= 10000
    ensures |OfDocument(Purged(Upsert(before, points), d, score), d)|
         == Max(0, |points| - 10000)
  {
    var all := before + points;
    UpsertFresh(before, points);
    OfDocumentSplit(before, points, d);
    PurgeSpec(all, d, score);
    FoundSpec(all, d, score);
    if |points| <= DELETE_LIMIT {
      var ids := IdsOf(Found(all, d, score));
      AppendDistinct(before, points);
      WithoutSuffix(before, points, ids);
    } else {
      OfDocumentSplit(before, [], d);
      assert before + [] == before;
    }
  }

  lemma PurgeNothing(points: seq<Point>, d: string, score: Point -> real)
    requires forall p :: p in points ==> p.documentId != d
    ensures Purged(points, d, score) == points && OfDocument(points, d) == []
  {
    assert points + [] == points;
    OfDocumentSplit(points, [], d);
    assert IdsOf(Found(points, d, score)) == {};
    WithoutNothing(points);
  }

  /** The store is as it was up to 10000 stored points of the document, and has just the others beyond those. */
  ghost predicate RestoredUpTo(store: Store, after: Store, c: string, d: string, n: nat) {
    && (SameContents(after, store) <==> n <= 10000)
    && |OfDocument(PointsOf(after, c), d)| == Max(0, n - 10000)
    && (forall k :: k != c ==> PointsOf(after, k) == PointsOf(store, k))
  }

  /** Processing a new document and then deleting it. */
  lemma ProcessThenDelete(d: string, w: World, score: Point -> real, splitter: Splitter,
                          docs: map<string, Document>, store: Store)
    requires d in docs && Consistent(docs, store) && FreshFor(Process(d, w), splitter, docs, store)
    ensures var (docs1, store1) := Apply(Process(d, w), splitter, docs, store);
      var (docs2, store2) := Apply(Delete(d, score), splitter, docs1, store1);
      var c, n := CollectionName(docs[d].brandId), if Stores(w, splitter) then |ChunksOf(w, splitter)| else 0;
      docs2 == docs - {d} && RestoredUpTo(store, store2, c, d, n)
  {
    var c := CollectionName(docs[d].brandId);
    NoPointsOf(PointsOf(store, c), d);
    AppliedTwice(d, w, score, splitter, docs, store);
    if Stores(w, splitter) {
      StoredThenDeleted(d, PointsFor(w, docs[d], d, ChunksOf(w, splitter)), c, score, store);
    } else {
      NothingDeleted(d, c, score, store);
    }
  }

  lemma AppliedTwice(d: string, w: World, score: Point -> real, splitter: Splitter, docs: map<string, Document>, store: Store)
    requires d in docs
    ensures var (docs1, store1) := Apply(Process(d, w), splitter, docs, store);
      var (docs2, store2) := Apply(Delete(d, score), splitter, docs1, store1);
      var c := CollectionName(docs[d].brandId);
      && docs2 == docs - {d}
      && store2 ==
           if Stores(w, splitter) then
             var stored := store[c := Upsert(PointsOf(store, c), PointsFor(w, docs[d], d, ChunksOf(w, splitter)))];
             stored[c := Purged(stored[c], d, score)]
           else if c in store then store[c := Purged(store[c], d, score)]
           else store
  {
    RowGone(docs, d, Apply(Process(d, w), splitter, docs, store).0);
  }

  lemma NothingDeleted(d: string, c: string, score: Point -> real, store: Store)
    requires forall p :: p in PointsOf(store, c) ==> p.documentId != d
    ensures RestoredUpTo(store, if c in store then store[c := Purged(store[c], d, score)] else store, c, d, 0)
  {
    PurgeNothing(PointsOf(store, c), d, score);
    assert c in store ==> store[c := store[c]] == store;
  }

  lemma StoredThenDeleted(d: string, points: seq<Point>, c: string, score: Point -> real, store: Store)
    requires DistinctIds(PointsOf(store, c) + points)
    requires forall p :: p in PointsOf(store, c) ==> p.documentId != d
    requires forall p :: p in points ==> p.documentId == d
    ensures var stored := store[c := Upsert(PointsOf(store, c), points)];
      RestoredUpTo(store, stored[c := Purged(stored[c], d, score)], c, d, |points|)
  {
    var before := PointsOf(store, c);
    UpsertThenPurge(before, points, d, score);
    Replaced(store, c, Upsert(before, points), Purged(Upsert(before, points), d, score));
  }

  /** Ingesting a document -- creating its row and processing it -- and deleting it again brings back all rows, and
      all collections if and only if the document was not stored or has at most 10000 chunks; otherwise exactly
      the points beyond those stay behind. All other collections are as they were in any case. */
  lemma IngestThenDelete(d: string, brandId: string, filename: string, w: World, score: Point -> real, splitter: Splitter,
                         docs: map<string, Document>, store: Store)
    requires Consistent(docs, store) && FreshFor(Create(d, brandId, filename), splitter, docs, store)
    requires DistinctIds(PointsOf(store, CollectionName(brandId))
                         + PointsFor(w, Document(brandId, filename, PENDING, 0), d, ChunksOf(w, splitter)))
    ensures var (docs1, store1) := Apply(Create(d, brandId, filename), splitter, docs, store);
      var (docs2, store2) := Apply(Process(d, w), splitter, docs1, store1);
      var (docs3, store3) := Apply(Delete(d, score), splitter, docs2, store2);
      var c, n := CollectionName(brandId), if Stores(w, splitter) then |ChunksOf(w, splitter)| else 0;
      docs3 == docs && RestoredUpTo(store, store3, c, d, n)
  {
    CreateKeepsCounts(d, brandId, filename, splitter, docs, store);
    var docs1 := docs[d := Document(brandId, filename, PENDING, 0)];
    assert docs1 - {d} == docs;
    ProcessThenDelete(d, w, score, splitter, docs1, store);
  }

  lemma RowGone(docs: map<string, Document>, d: string, docs': map<string, Document>)
    requires d in docs' && docs' == docs[d := docs'[d]]
    ensures docs' - {d} == docs - {d}
  {
  }

  lemma Replaced(store: Store, c: string, middle: seq<Point>, last: seq<Point>)
    ensures var after := store[c := middle][c := last];
      && (SameContents(after, store) <==> last == PointsOf(store, c))
      && PointsOf(after, c) == last && forall k :: k != c ==> PointsOf(after, k) == PointsOf(store, k)
    ensures c in store ==> store[c := store[c]] == store
  {
    var after := store[c := middle][c := last];
    assert SameContents(after, store) ==> PointsOf(after, c) == PointsOf(store, c);
  }

  // ---------- counts over whole runs ----------

  /** What one operation keeps of everything that is not about document `d`. */
  ghost predicate Spares(d: string, docs: map<string, Document>, store: Store, docs': map<string, Document>, store': Store) {
    && (forall e, k :: e != d ==> OfDocument(PointsOf(store', k), e) == OfDocument(PointsOf(store, k), e))
    && (forall e :: e != d ==> (e in docs <==> e in docs') && (e in docs ==> docs'[e] == docs[e]))
  }

  /** Rows and one collection change, for document `d` only. */
  ghost predicate OnlyAbout(d: string, c: string, points: seq<Point>, docs: map<string, Document>, store: Store,
                            docs': map<string, Document>) {
    && (forall e :: e != d ==> OfDocument(points, e) == OfDocument(PointsOf(store, c), e))
    && (forall e :: e != d ==> (e in docs <==> e in docs') && (e in docs ==> docs'[e] == docs[e]))
  }

  lemma OneCollection(d: string, c: string, points: seq<Point>, docs: map<string, Document>, store: Store,
                      docs': map<string, Document>)
    requires Consistent(docs, store) && DistinctIds(points) && OnlyAbout(d, c, points, docs, store, docs')
    requires d in docs' ==> CollectionName(docs'[d].brandId) == c && Counted(docs'[d], OfDocument(points, d))
    ensures Consistent(docs', store[c := points]) && Spares(d, docs, store, docs', store[c := points])
  {
    var store' := store[c := points];
    OneCollectionSpares(d, c, points, docs, store, docs');
    forall e | e in docs' ensures Counted(docs'[e], OfDocument(PointsOf(store', CollectionName(docs'[e].brandId)), e)) {
      if e != d {
        OtherCounted(e, docs, store, docs', store');
      }
    }
  }

  lemma OneCollectionSpares(d: string, c: string, points: seq<Point>, docs: map<string, Document>, store: Store,
                            docs': map<string, Document>)
    requires OnlyAbout(d, c, points, docs, store, docs')
    ensures Spares(d, docs, store, docs', store[c := points])
  {
    forall e, k | e != d ensures OfDocument(PointsOf(store[c := points], k), e) == OfDocument(PointsOf(store, k), e) {
    }
  }

  lemma OtherCounted(e: string, docs: map<string, Document>, store: Store, docs': map<string, Document>, store': Store)
    requires Consistent(docs, store) && e in docs && e in docs' && docs'[e] == docs[e]
    requires forall k :: OfDocument(PointsOf(store', k), e) == OfDocument(PointsOf(store, k), e)
    ensures Counted(docs'[e], OfDocument(PointsOf(store', CollectionName(docs'[e].brandId)), e))
  {
  }

  lemma CreateKeepsCounts(d: string, brandId: string, filename: string, splitter: Splitter,
                          docs: map<string, Document>, store: Store)
    requires Consistent(docs, store) && FreshFor(Create(d, brandId, filename), splitter, docs, store)
    ensures var (docs', store') := Apply(Create(d, brandId, filename), splitter, docs, store);
      Consistent(docs', store') && Spares(d, docs, store, docs', store')
  {
  }

  lemma ProcessKeepsCounts(d: string, w: World, splitter: Splitter, docs: map<string, Document>, store: Store)
    requires Consistent(docs, store) && d in docs && FreshFor(Process(d, w), splitter, docs, store)
    ensures var (docs', store') := Apply(Process(d, w), splitter, docs, store);
      Consistent(docs', store') && Spares(d, docs, store, docs', store')
  {
    var c := CollectionName(docs[d].brandId);
    var before, points := PointsOf(store, c), PointsFor(w, docs[d], d, ChunksOf(w, splitter));
    NoPointsOf(before, d);
    if Stores(w, splitter) {
      UpsertSpec(before, points, d);
      OneCollection(d, c, Upsert(before, points), docs, store, Apply(Process(d, w), splitter, docs, store).0);
    }
  }

  lemma DeleteKeepsCounts(d: string, score: Point -> real, splitter: Splitter, docs: map<string, Document>, store: Store)
    requires Consistent(docs, store) && d in docs
    ensures var (docs', store') := Apply(Delete(d, score), splitter, docs, store);
      Consistent(docs', store') && Spares(d, docs, store, docs', store')
  {
    var c := CollectionName(docs[d].brandId);
    if c in store {
      PurgeSpec(store[c], d, score);
      OneCollection(d, c, Purged(store[c], d, score), docs, store, docs - {d});
    }
  }

  /** READY keeps meaning that all chunks, and nothing else, are stored: no operation on one document
      changes what is stored or counted for another, of the same brand or not. */
  lemma OperationsKeepCounts(op: Op, splitter: Splitter, docs: map<string, Document>, store: Store)
    requires Consistent(docs, store) && FreshFor(op, splitter, docs, store)
    ensures var (docs', store') := Apply(op, splitter, docs, store);
      Consistent(docs', store') && Spares(op.d, docs, store, docs', store')
  {
    match op
    case Create(d, brandId, filename) => CreateKeepsCounts(d, brandId, filename, splitter, docs, store);
    case Process(d, w) => if d in docs { ProcessKeepsCounts(d, w, splitter, docs, store); }
    case Delete(d, score) => if d in docs { DeleteKeepsCounts(d, score, splitter, docs, store); }
  }

  /** Operations do not tell an empty collection from none, so they agree on stores with the same contents. */
  lemma SameContentsAfter(op: Op, splitter: Splitter, docs: map<string, Document>, store: Store, other: Store)
    requires SameContents(store, other)
    ensures var (docs', store') := Apply(op, splitter, docs, store);
      var (docs'', other') := Apply(op, splitter, docs, other);
      docs' == docs'' && SameContents(store', other')
  {
    if !op.Create? && op.d in docs {
      var c := CollectionName(docs[op.d].brandId);
      assert PointsOf(store, c) == PointsOf(other, c);
      if op.Delete? {
        DeletedContents(op.d, op.score, splitter, docs, store);
        DeletedContents(op.d, op.score, splitter, docs, other);
      } else {
        var points := PointsFor(op.w, docs[op.d], op.d, ChunksOf(op.w, splitter));
        ReplacedContents(store, other, c, Upsert(PointsOf(store, c), points));
      }
    }
  }

  lemma ReplacedContents(store: Store, other: Store, c: string, points: seq<Point>)
    requires SameContents(store, other)
    ensures SameContents(store[c := points], other[c := points])
  {
    var store', other' := store[c := points], other[c := points];
    forall k ensures PointsOf(store', k) == PointsOf(other', k) {
      assert PointsOf(store, k) == PointsOf(other, k);
    }
  }

  lemma DeletedContents(d: string, score: Point -> real, splitter: Splitter, docs: map<string, Document>, store: Store)
    requires d in docs
    ensures var store' := Apply(Delete(d, score), splitter, docs, store).1;
      var c := CollectionName(docs[d].brandId);
      forall k :: PointsOf(store', k) == if k == c then Purged(PointsOf(store, c), d, score) else PointsOf(store, k)
  {
    PurgeNothing([], d, score);
  }

  function RunOps(ops: seq<Op>, splitter: Splitter, docs: map<string, Document>, store: Store): (map<string, Document>, Store)
    decreases |ops|
  {
    if ops == [] then (docs, store)
    else
      var (docs', store') := Apply(ops[0], splitter, docs, store);
      RunOps(ops[1..], splitter, docs', store')
  }

  ghost predicate FreshRun(ops: seq<Op>, splitter: Splitter, docs: map<string, Document>, store: Store)
    decreases |ops|
  {
    ops == [] ||
    (FreshFor(ops[0], splitter, docs, store)
     && var (docs', store') := Apply(ops[0], splitter, docs, store);
        FreshRun(ops[1..], splitter, docs', store'))
  }

  /** Over every run of ingestions and deletions, READY documents count exactly their stored points, and a
      document that no operation is about keeps its row and its points. */
  lemma {:induction false} RunKeepsCounts(ops: seq<Op>, splitter: Splitter, docs: map<string, Document>, store: Store, e: string)
    requires Consistent(docs, store) && FreshRun(ops, splitter, docs, store)
    ensures var (docs', store') := RunOps(ops, splitter, docs, store);
      && Consistent(docs', store')
      && ((forall op :: op in ops ==> op.d != e) && e in docs ==>
            && e in docs' && docs'[e] == docs[e]
            && forall k :: OfDocument(PointsOf(store', k), e) == OfDocument(PointsOf(store, k), e))
    decreases |ops|
  {
    if ops != [] {
      OperationsKeepCounts(ops[0], splitter, docs, store);
      var (docs', store') := Apply(ops[0], splitter, docs, store);
      RunKeepsCounts(ops[1..], splitter, docs', store', e);
      assert ops[0] in ops && forall op :: op in ops[1..] ==> op in ops;
    }
  }
}
