/**
 * `searchByEmbeddingVectorOnly` (src/lib/opensearch.ts): approximate kNN
 * candidate retrieval, a bulk fetch of the candidates' stored vectors, exact
 * rescoring, a score floor, a stable descending sort and a cut to top-K.
 *
 * The two index calls are oracle parameters (`knn`, `mget`), each either a
 * response or the message of the error it throws. The exact score of a
 * fetched document, `cosine(normalize(query), normalize(stored))`, is the
 * parameter `score`.
 */
module EmbeddingSearch {

  import opened Wrappers
  import opened Json
  import opened Ranking
  import VectorMath

  const DefaultMinCosine := 0.0
  const DefaultCandidatePool := 5000
  const InvalidEmbedding := "Invalid embedding provided"

  /** A kNN hit; only its `_id` is read. */
  datatype Hit = Hit(id: Option<string>)

  /** A document returned by mget: its `_id` and, when it was found, its `_source`. */
  datatype Doc = Doc(id: string, source: Option<Object>)

  /** A reranked document: its `_source` fields, its `_id` and its exact score. */
  datatype Candidate = Candidate(source: Object, id: string, cosine: real)

  /** A request sent to the index. */
  datatype IndexCall =
    | Knn(vector: seq<real>, k: int)
    | Mget(ids: seq<string>)

  /** The index calls a search made, in order, and what it returned or threw. */
  datatype Run = Run(calls: seq<IndexCall>, result: Result<seq<Candidate>, string>)

  /** `d?._source?.embedding` is truthy. */
  predicate HasEmbedding(d: Doc)
  {
    d.source.Some? && "embedding" in d.source.value && Truthy(d.source.value["embedding"])
  }

  /** The candidate built from a fetched document. */
  function Scored(d: Doc, score: Doc -> real): Candidate
    requires d.source.Some?
  {
    Candidate(d.source.value, d.id, score(d))
  }

  function CosineKey(c: Candidate): real
  {
    c.cosine
  }

  /**
   * What `searchByEmbeddingVectorOnly` returns for a candidate, `{...d._source, _id, _cosine_score}`:
   * every `_source` field, `_id` set to the document's id, and `_cosine_score` added.
   */
  function AsRecord(c: Candidate): (o: Object)
    ensures o.Keys == c.source.Keys + {"_id", "_cosine_score"}
    ensures o["_id"] == Str(c.id) && o["_cosine_score"] == Num(c.cosine)
    ensures forall f :: f in c.source && f != "_id" && f != "_cosine_score" ==> o[f] == c.source[f]
  {
    c.source["_id" := Str(c.id)]["_cosine_score" := Num(c.cosine)]
  }

  /** `hits.map(h => h._id).filter(Boolean)`: the truthy ids, in hit order. */
  function HitIds(hits: seq<Hit>): (ids: seq<string>)
    ensures |ids| <= |hits|
    ensures forall j :: 0 <= j < |ids| ==> |ids[j]| > 0
    ensures forall i :: 0 <= i < |hits| && TruthyString(hits[i].id) ==> hits[i].id.value in ids
    ensures forall j :: 0 <= j < |ids| ==> exists i :: 0 <= i < |hits| && hits[i].id == Some(ids[j])
  {
    if |hits| == 0 then []
    else
      var rest := HitIds(hits[1..]);
      assert forall i :: 1 <= i < |hits| ==> hits[i] == hits[1..][i - 1];
      (if TruthyString(hits[0].id) then [hits[0].id.value] else []) + rest
  }

  /** Drops the documents without a stored embedding and scores the others, keeping mget order. */
  function ScoreDocs(docs: seq<Doc>, score: Doc -> real): (cs: seq<Candidate>)
    ensures forall c :: c in cs ==> exists d :: d in docs && HasEmbedding(d) && c == Scored(d, score)
    ensures forall d :: d in docs && HasEmbedding(d) ==> Scored(d, score) in cs
  {
    if |docs| == 0 then []
    else
      var rest := ScoreDocs(docs[1..], score);
      assert forall d :: d in docs[1..] ==> d in docs;
      assert forall d :: d in docs ==> d == docs[0] || d in docs[1..];
      (if HasEmbedding(docs[0]) then [Scored(docs[0], score)] else []) + rest
  }

  /** `filter(s => s._cosine_score >= minCosine)`. */
  function AboveFloor(cs: seq<Candidate>, minCosine: real): (r: seq<Candidate>)
    ensures forall c :: c in r <==> c in cs && c.cosine >= minCosine
  {
    if |cs| == 0 then []
    else
      assert forall c :: c in cs ==> c == cs[0] || c in cs[1..];
      (if cs[0].cosine >= minCosine then [cs[0]] else []) + AboveFloor(cs[1..], minCosine)
  }

  /**
   * The candidates that compete for a place: one per fetched document with
   * a stored embedding whose score reaches the floor, in mget order.
   */
  function Eligible(docs: seq<Doc>, minCosine: real, score: Doc -> real): (cs: seq<Candidate>)
    ensures forall c :: c in cs ==>
      c.cosine >= minCosine && exists d :: d in docs && HasEmbedding(d) && c == Scored(d, score)
    ensures forall d :: d in docs && HasEmbedding(d) && score(d) >= minCosine ==> Scored(d, score) in cs
  {
    AboveFloor(ScoreDocs(docs, score), minCosine)
  }

  /**
   * `map(h => h._id).filter(Boolean)` works hit by hit: the ids of two runs
   * of hits are the ids of the first followed by those of the second
   * (HitIdsOne gives a single hit's), so the ids keep hit order, one per
   * hit with a truthy id.
   */
  lemma {:induction false} HitIdsAppend(a: seq<Hit>, b: seq<Hit>)
    ensures HitIds(a + b) == HitIds(a) + HitIds(b)
    decreases |a|
  {
    if |a| == 0 {
      assert a + b == b;
    } else {
      var head := if TruthyString(a[0].id) then [a[0].id.value] else [];
      assert HitIds(a + b) == head + HitIds(a[1..] + b) by {
        assert (a + b)[0] == a[0] && (a + b)[1..] == a[1..] + b;
      }
      HitIdsAppend(a[1..], b);
    }
  }

  /** A single hit gives its id when that is truthy, and nothing otherwise. */
  lemma {:induction false} HitIdsOne(h: Hit)
    ensures HitIds([h]) == if TruthyString(h.id) then [h.id.value] else []
  {
    assert [h][1..] == [];
  }

  /**
   * Scoring works document by document: two runs of documents give the
   * candidates of the first followed by those of the second (ScoreDocsOne
   * gives a single document's), so the candidates keep mget order, one per
   * document with a stored embedding.
   */
  lemma {:induction false} ScoreDocsAppend(a: seq<Doc>, b: seq<Doc>, score: Doc -> real)
    ensures ScoreDocs(a + b, score) == ScoreDocs(a, score) + ScoreDocs(b, score)
    decreases |a|
  {
    if |a| == 0 {
      assert a + b == b;
    } else {
      var head := if HasEmbedding(a[0]) then [Scored(a[0], score)] else [];
      assert ScoreDocs(a + b, score) == head + ScoreDocs(a[1..] + b, score) by {
        assert (a + b)[0] == a[0] && (a + b)[1..] == a[1..] + b;
      }
      ScoreDocsAppend(a[1..], b, score);
    }
  }

  /** A single document gives its candidate when it has a stored embedding, and nothing otherwise. */
  lemma {:induction false} ScoreDocsOne(d: Doc, score: Doc -> real)
    ensures ScoreDocs([d], score) == if HasEmbedding(d) then [Scored(d, score)] else []
  {
    assert [d][1..] == [];
  }

  /**
   * The floor works candidate by candidate: two runs of candidates give the
   * kept ones of the first followed by those of the second (AboveFloorOne
   * gives a single candidate's), so the floor keeps order and multiplicity.
   */
  lemma {:induction false} AboveFloorAppend(a: seq<Candidate>, b: seq<Candidate>, minCosine: real)
    ensures AboveFloor(a + b, minCosine) == AboveFloor(a, minCosine) + AboveFloor(b, minCosine)
    decreases |a|
  {
    if |a| == 0 {
      assert a + b == b;
    } else {
      var head := if a[0].cosine >= minCosine then [a[0]] else [];
      assert AboveFloor(a + b, minCosine) == head + AboveFloor(a[1..] + b, minCosine) by {
        assert (a + b)[0] == a[0] && (a + b)[1..] == a[1..] + b;
      }
      assert AboveFloor(a[1..] + b, minCosine) == AboveFloor(a[1..], minCosine) + AboveFloor(b, minCosine) by {
        AboveFloorAppend(a[1..], b, minCosine);
      }
      assert AboveFloor(a, minCosine) == head + AboveFloor(a[1..], minCosine);
    }
  }

  /** A single candidate is kept exactly when it reaches the floor. */
  lemma {:induction false} AboveFloorOne(c: Candidate, minCosine: real)
    ensures AboveFloor([c], minCosine) == if c.cosine >= minCosine then [c] else []
  {
    assert [c][1..] == [];
  }

  /**
   * The eligible candidates, document by document: two runs of documents
   * give those of the first followed by those of the second, so Eligible
   * keeps mget order.
   */
  lemma {:induction false} EligibleAppend(a: seq<Doc>, b: seq<Doc>, minCosine: real, score: Doc -> real)
    ensures Eligible(a + b, minCosine, score) == Eligible(a, minCosine, score) + Eligible(b, minCosine, score)
  {
    ScoreDocsAppend(a, b, score);
    AboveFloorAppend(ScoreDocs(a, score), ScoreDocs(b, score), minCosine);
  }

  /**
   * A single document is eligible, as its candidate, exactly when it has a
   * stored embedding whose score reaches the floor.
   */
  lemma {:induction false} EligibleOne(d: Doc, minCosine: real, score: Doc -> real)
    ensures Eligible([d], minCosine, score)
      == (if HasEmbedding(d) && score(d) >= minCosine then [Scored(d, score)] else [])
  {
    ScoreDocsOne(d, score);
    if HasEmbedding(d) {
      AboveFloorOne(Scored(d, score), minCosine);
    }
  }

  /** The exact-rerank phase: floor, stable descending sort, `slice(0, topK)`. */
  function Rerank(docs: seq<Doc>, topK: int, minCosine: real, score: Doc -> real): (r: seq<Candidate>)
    ensures multiset(r) <= multiset(Eligible(docs, minCosine, score))
    ensures |r| == SliceEnd(topK, |Eligible(docs, minCosine, score)|)
    ensures SortedDesc(r, CosineKey)
  {
    var eligible := Eligible(docs, minCosine, score);
    var sorted := SortDesc(eligible, CosineKey);
    var r := Take(sorted, topK);
    PrefixIsTop(sorted, SliceEnd(topK, |sorted|), CosineKey);
    assert |sorted| == |eligible| by {
      assert |multiset(sorted)| == |multiset(eligible)|;
    }
    r
  }

  /**
   * Every result comes from a fetched document that has a stored embedding,
   * keeps that document's fields and id, carries its score, and the score
   * reaches `minCosine`. Documents without an embedding never appear.
   */
  lemma {:induction false} RerankSound(docs: seq<Doc>, topK: int, minCosine: real, score: Doc -> real)
    ensures forall c :: c in Rerank(docs, topK, minCosine, score) ==>
      && c.cosine >= minCosine
      && exists d :: d in docs && HasEmbedding(d) && c == Scored(d, score)
  {
    var r := Rerank(docs, topK, minCosine, score);
    forall c | c in r
      ensures c in Eligible(docs, minCosine, score)
    {
      assert c in multiset(r);
    }
  }

  /**
   * Ties keep mget order: for every score value, the results with that
   * score are the first ones of the eligible candidates with that score, in
   * mget order.
   */
  lemma {:induction false} RerankOrdered(docs: seq<Doc>, topK: int, minCosine: real, score: Doc -> real, k: real)
    ensures var ties := WithKey(Rerank(docs, topK, minCosine, score), CosineKey, k);
      var all := WithKey(Eligible(docs, minCosine, score), CosineKey, k);
      |ties| <= |all| && ties == all[..|ties|]
  {
    var eligible := Eligible(docs, minCosine, score);
    var sorted := SortDesc(eligible, CosineKey);
    var n := SliceEnd(topK, |sorted|);
    SortDescStable(eligible, CosineKey, k);
    WithKeyPrefix(sorted, n, CosineKey, k);
  }

  /**
   * At most `topK` results when `topK` is not negative, and every eligible
   * candidate when `topK` is at least their number.
   */
  lemma {:induction false} RerankCount(docs: seq<Doc>, topK: int, minCosine: real, score: Doc -> real)
    ensures var r := Rerank(docs, topK, minCosine, score);
      var eligible := Eligible(docs, minCosine, score);
      && (0 <= topK ==> |r| <= topK)
      && (|eligible| <= topK ==> multiset(r) == multiset(eligible))
  {
    var eligible := Eligible(docs, minCosine, score);
    var sorted := SortDesc(eligible, CosineKey);
    assert |sorted| == |eligible| by {
      assert |multiset(sorted)| == |multiset(eligible)|;
    }
    if |eligible| <= topK {
      assert sorted[..SliceEnd(topK, |sorted|)] == sorted;
    }
  }

  /** No eligible candidate left out scores higher than one kept. */
  lemma {:induction false} RerankKeepsBest(docs: seq<Doc>, topK: int, minCosine: real, score: Doc -> real)
    ensures var r := Rerank(docs, topK, minCosine, score);
      forall e: Candidate, c: Candidate :: e in multiset(Eligible(docs, minCosine, score)) - multiset(r) && c in r ==> e.cosine <= c.cosine
  {
    var eligible := Eligible(docs, minCosine, score);
    var sorted := SortDesc(eligible, CosineKey);
    var r := Rerank(docs, topK, minCosine, score);
    PrefixIsTop(sorted, SliceEnd(topK, |sorted|), CosineKey);
    assert r == sorted[..SliceEnd(topK, |sorted|)];
    assert multiset(eligible) == multiset(sorted);
    forall e: Candidate, c: Candidate | e in multiset(eligible) - multiset(r) && c in r
      ensures e.cosine <= c.cosine
    {
      assert CosineKey(e) <= CosineKey(c);
    }
  }

  /**
   * `searchByEmbeddingVectorOnly(embedding, topK, minCosine, candidatePool)`.
   * A missing or non-array embedding throws before any index call; a kNN
   * response without hits, or without a truthy id, yields `[]` without
   * calling mget; otherwise the fetched documents are reranked.
   */
  function SearchByEmbedding(
    embedding: Value, topK: int, minCosine: real, candidatePool: int,
    knn: Result<seq<Hit>, string>, mget: Result<seq<Doc>, string>,
    score: Doc -> real, sqrt: real -> real): (run: Run)
    ensures run.calls == [] <==> !embedding.NumArray?
    ensures !embedding.NumArray? ==> run.result == Err(InvalidEmbedding)
    ensures |run.calls| <= 2
    ensures embedding.NumArray? ==>
      run.calls[0] == Knn(VectorMath.Normalize(embedding.items, sqrt), candidatePool)
    ensures |run.calls| == 2 <==>
      embedding.NumArray? && knn.Ok? && exists i :: 0 <= i < |knn.value| && TruthyString(knn.value[i].id)
    ensures |run.calls| == 2 ==> run.calls[1] == Mget(HitIds(knn.value))
    ensures |run.calls| == 1 && knn.Ok? ==> run.result == Ok([])
    ensures |run.calls| == 2 && mget.Ok? ==> run.result == Ok(Rerank(mget.value, topK, minCosine, score))
    ensures embedding.NumArray? && knn.Err? ==> run.result == Err(knn.error)
    ensures |run.calls| == 2 && mget.Err? ==> run.result == Err(mget.error)
    ensures run.result.Err? && run.calls != [] ==>
      (knn.Err? && run.result.error == knn.error) || (mget.Err? && run.result.error == mget.error)
  {
    if !Truthy(embedding) || !embedding.NumArray? then Run([], Err(InvalidEmbedding))
    else
      var knnCall := Knn(VectorMath.Normalize(embedding.items, sqrt), candidatePool);
      match knn
      case Err(e) => Run([knnCall], Err(e))
      case Ok(hits) =>
        if |hits| == 0 then Run([knnCall], Ok([]))
        else
          var ids := HitIds(hits);
          if |ids| == 0 then Run([knnCall], Ok([]))
          else
            assert |ids[0]| > 0 && exists i :: 0 <= i < |hits| && hits[i].id == Some(ids[0]);
            var calls := [knnCall, Mget(ids)];
            match mget
            case Err(e) => Run(calls, Err(e))
            case Ok(docs) => Run(calls, Ok(Rerank(docs, topK, minCosine, score)))
  }
}
