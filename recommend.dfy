/**
 * The two recommendation endpoints `predict_communities` and `predict_posts` of
 * ml/server.py: read the catalog snapshot through its cache slot, build the vocabulary and
 * vectors of this request, score every object against the query and return the top entries.
 */
module Recommender {
  import opened Results
  import opened PyStrings
  import opened TokenNormalizer
  import opened Catalog
  import opened Vocabulary
  import opened Vectorizer
  import opened Ranker

  /** What a recommendation request answers for the catalog snapshot `objs`. */
  function Recommendations(objs: seq<CatalogObject>, skills: seq<Raw>, limit: Option<int>): seq<RecoItem> {
    var vocab := VocabSpec(objs);
    var scores := CosineScores(QueryVec(skills, vocab), OneHotRows(objs, vocab));
    Ranked(scores, IdColumn(objs, vocab), PopColumn(objs, vocab), limit)
  }

  /** The body of the `try` block, from the snapshot on. */
  method RankObjects(objs: seq<CatalogObject>, skills: seq<Raw>, limit: Option<int>) returns (items: seq<RecoItem>)
    ensures items == Recommendations(objs, skills, limit)
  {
    var vocab := BuildVocab(objs);
    VocabValid(objs);
    var M, ids, pop := OneHotMatrix(objs, vocab);
    var u := SkillsToVec(skills, vocab);
    var scores := CosineScores(u[..], Grid(M));
    if |scores| == 0 {
      return [];
    }
    var order := Order(Keys(scores), pop[..], |scores|);
    var top := order[..Min(TakeCount(limit), |order|)];
    items := seq(|top|, p requires 0 <= p < |top| reads ids => RecoItem(ids[top[p]], scores[top[p]]));
  }

  /** The text of a failed catalog fetch, as the broad exception handler renders it. */
  function Describe(e: FetchError): string {
    match e
    case ApiError(status, body) => IntToString(status) + ": API error: " + body
    case InvalidJson => "500: Invalid json from API"
    case NoReply => "catalog request failed"
  }

  /**
   * `predict_communities` / `predict_posts` at time `now`, on the cache slot of their
   * collection. Any failure, an upstream one included, is answered with status 500.
   */
  method Recommend(cache: CatalogCache, now: real, replies: seq<Reply>, skills: seq<Raw>, limit: Option<int>)
      returns (r: Result<seq<RecoItem>, HttpError>)
    modifies cache
    ensures var snapshot := if Stale(old(cache.ts), now) then FetchFrom(replies, 0) else Ok(old(cache.items));
            && (snapshot.Ok? ==> r == Ok(Recommendations(snapshot.value, skills, limit)))
            && (snapshot.Err? ==> r.Err? && r.error.status == 500 && StartsWith(r.error.detail, "Internal error: "))
    ensures cache.fetches == old(cache.fetches) + (if Stale(old(cache.ts), now) then 1 else 0)
    ensures !Stale(old(cache.ts), now) ==> cache.items == old(cache.items) && cache.ts == old(cache.ts)
    ensures Stale(old(cache.ts), now) && FetchFrom(replies, 0).Ok? ==>
              cache.items == FetchFrom(replies, 0).value && cache.ts == now
    ensures Stale(old(cache.ts), now) && FetchFrom(replies, 0).Err? ==>
              cache.items == old(cache.items) && cache.ts == old(cache.ts)
  {
    var objs := cache.Get(now, replies);
    if objs.Err? {
      return Err(HttpError(500, "Internal error: " + Describe(objs.error)));
    }
    var items := RankObjects(objs.value, skills, limit);
    return Ok(items);
  }

  /** With no object or no skill token in the snapshot the answer is empty. */
  lemma NoTokensNoAnswer(objs: seq<CatalogObject>, skills: seq<Raw>, limit: Option<int>)
    requires forall i :: 0 <= i < |objs| ==> NormListSpec(objs[i].skills) == []
    ensures Recommendations(objs, skills, limit) == []
  {
    var vocab := VocabSpec(objs);
    if |vocab| != 0 {
      var t :| t in vocab;
      VocabKeys(objs, t);
    }
  }

  /**
   * Otherwise the answer lists `min(k, N)` distinct objects, each with its own id and
   * score, in ranking order, and every object left out ranks after every object listed.
   */
  lemma {:induction false} AnswerShape(objs: seq<CatalogObject>, skills: seq<Raw>, limit: Option<int>,
                    vocab: Vocab, scores: seq<Cosine>, pops: seq<real>, rows: seq<nat>)
    requires vocab == VocabSpec(objs) && !Degenerate(objs, vocab)
    requires scores == CosineScores(QueryVec(skills, vocab), OneHotRows(objs, vocab))
    requires pops == PopColumn(objs, vocab)
    requires |pops| == |scores| && rows == TopRows(scores, pops, limit)
    ensures |scores| == |objs|
    ensures |Recommendations(objs, skills, limit)| == |rows| == Min(TakeCount(limit), |objs|)
    ensures Rows(Keys(scores), pops, rows) && DistinctRows(rows)
    ensures forall p :: 0 <= p < |rows| ==>
              Recommendations(objs, skills, limit)[p] == RecoItem(ObjectId(objs[rows[p]]), scores[rows[p]])
    ensures forall p, q :: 0 <= p < q < |rows| ==> Before(Keys(scores), pops, rows[p], rows[q])
    ensures forall i, j :: i in rows && 0 <= j < |objs| && j !in rows ==> Before(Keys(scores), pops, i, j)
  {
    RankedProps(scores, IdColumn(objs, vocab), pops, limit);
  }

  /** The skills of the worked example's object. */
  lemma PythonCppTokens(xs: seq<Raw>)
    requires xs == [Str("Python"), Str("C++")]
    ensures NormListSpec(xs) == ["python", Cpp]
  {
    assert NormToken(xs[0]) == "python" by {
      SynonymExample(xs[0].text, "python", "python");
    }
    CppSpellingsCollapse(xs[1].text);
    NormalizedPair(xs);
    assert Normalized(xs) == ["python", Cpp];
    DedupTwo(Normalized(xs), "python", Cpp);
  }

  /** The query of the worked example. */
  lemma PythonTokens(skills: seq<Raw>)
    requires skills == [Str("Python")]
    ensures NormListSpec(skills) == ["python"]
  {
    assert NormToken(skills[0]) == "python" by {
      SynonymExample(skills[0].text, "python", "python");
    }
    NormalizedAt(skills, 0);
    assert Normalized(skills) == ["python"];
    DedupOne(Normalized(skills), "python");
  }

  /** The normalised skills of the worked example. */
  lemma ExampleTokens(objs: seq<CatalogObject>, skills: seq<Raw>)
    requires objs == [CatalogObject(Some(7), [Str("Python"), Str("C++")], Num(10.0), Absent)]
    requires skills == [Str("Python")]
    ensures |objs| == 1 && NormListSpec(objs[0].skills) == ["python", Cpp]
    ensures NormListSpec(skills) == ["python"]
  {
    PythonCppTokens(objs[0].skills);
    PythonTokens(skills);
  }

  /** A single object with two distinct tokens numbers them 0 and 1. */
  lemma {:induction false} VocabOfTwo(objs: seq<CatalogObject>, p: string, q: string)
    requires |objs| == 1 && NormListSpec(objs[0].skills) == [p, q] && p != q
    ensures VocabSpec(objs) == map[p := 0, q := 1]
  {
    assert objs[..|objs| - 1] == [];
    assert VocabSpec(objs) == AddTokens(map[], [p, q]);
    var one: Vocab := map[p := 0];
    assert AddTokens(map[], [p]) == one by {
      var none: Vocab := map[];
      assert [p][..0] == [];
      assert |none| == 0;
    }
    assert |one| == 1 by {
      assert one.Keys == {p};
    }
    assert [p, q][..1] == [p];
    assert AddTokens(map[], [p, q]) == one[q := 1];
  }

  /** The row of the worked example: both columns set. */
  lemma {:induction false} ExampleRow(objs: seq<CatalogObject>, vocab: Vocab, p: string, q: string)
    requires vocab == map[p := 0, q := 1] && p != q
    requires |objs| == 1 && NormListSpec(objs[0].skills) == [p, q]
    ensures OneHotRows(objs, vocab) == [[1.0, 1.0]]
  {
    var toks := [p, q];
    assert |vocab| == 2 by {
      assert vocab.Keys == {p, q};
    }
    assert Hits(toks, vocab, 0, ItemHints) by {
      assert p in toks;
    }
    assert Hits(toks, vocab, 1, ItemHints) by {
      assert q in toks;
    }
    assert Row(toks, vocab, ItemHints) == [1.0, 1.0];
  }

  /** The query vector of the worked example: only the first column set. */
  lemma {:induction false} ExampleQueryVec(skills: seq<Raw>, vocab: Vocab, p: string, q: string)
    requires vocab == map[p := 0, q := 1] && p != q && p !in QueryHints
    requires NormListSpec(skills) == [p]
    ensures QueryVec(skills, vocab) == [1.0, 0.0]
  {
    var toks := [p];
    assert |vocab| == 2 by {
      assert vocab.Keys == {p, q};
    }
    assert Hits(toks, vocab, 0, QueryHints) by {
      assert p in toks;
    }
    assert !Hits(toks, vocab, 1, QueryHints);
    assert Row(toks, vocab, QueryHints) == [1.0, 0.0];
  }

  /** A single scored row is the whole answer. */
  lemma SingleRow(scores: seq<Cosine>, ids: seq<int>, pops: seq<real>, limit: Option<int>)
    requires |scores| == |ids| == |pops| == 1
    ensures Ranked(scores, ids, pops, limit) == [RecoItem(ids[0], scores[0])]
  {
    assert Order(Keys(scores), pops, 1) == [0];
    assert TopRows(scores, pops, limit) == [0];
  }

  /** The score of the worked example: cosine 1 / sqrt(2). */
  lemma {:induction false} ExampleScores(u: seq<real>, M: seq<seq<real>>)
    requires u == [1.0, 0.0] && M == [[1.0, 1.0]]
    ensures CosineScores(u, M) == [Cosine(1.0, 2.0)]
  {
    var r := M[0];
    assert u[1..] == [0.0] && u[1..][1..] == [];
    assert r[1..] == [1.0] && r[1..][1..] == [];
    assert Dot(u[1..], u[1..]) == 0.0;
    assert SumSq(u) == 1.0;
    assert Dot(r[1..], r[1..]) == 1.0;
    assert SumSq(r) == 2.0;
    assert Dot(r[1..], u[1..]) == 0.0;
    assert Dot(r, u) == 1.0;
  }

  /**
   * One object whose skills normalise to "python" and "c++" and a query normalising to
   * "python": the only answer is that object, with cosine 1 / sqrt(2).
   */
  lemma {:induction false} PythonQueryExample(objs: seq<CatalogObject>, skills: seq<Raw>, limit: Option<int>)
    requires |objs| == 1 && NormListSpec(objs[0].skills) == ["python", Cpp]
    requires NormListSpec(skills) == ["python"] && TakeCount(limit) >= 1
    ensures Recommendations(objs, skills, limit) == [RecoItem(ObjectId(objs[0]), Cosine(1.0, 2.0))]
  {
    VocabOfTwo(objs, "python", Cpp);
    var vocab := VocabSpec(objs);
    ExampleRow(objs, vocab, "python", Cpp);
    ExampleQueryVec(skills, vocab, "python", Cpp);
    ExampleScores(QueryVec(skills, vocab), OneHotRows(objs, vocab));
    SingleRow([Cosine(1.0, 2.0)], IdColumn(objs, vocab), PopColumn(objs, vocab), limit);
  }

  /**
   * The worked example: one object with skills "Python" and "C++" (popularity 10) and the
   * query "Python" give the vocabulary {python: 0, c++: 1}, the row [1, 1], the query
   * [1, 0], and the single answer with cosine 1 / sqrt(2).
   */
  lemma {:induction false} WorkedExample(objs: seq<CatalogObject>, skills: seq<Raw>, limit: Option<int>)
    requires objs == [CatalogObject(Some(7), [Str("Python"), Str("C++")], Num(10.0), Absent)]
    requires skills == [Str("Python")] && limit == Some(1)
    ensures Recommendations(objs, skills, limit) == [RecoItem(7, Cosine(1.0, 2.0))]
  {
    ExampleTokens(objs, skills);
    PythonQueryExample(objs, skills, limit);
  }
}
