/**
 * One-hot vectorisation of the recommendation service (ml/server.py): `_one_hot_matrix`
 * writes one row per catalog object, `_skills_to_vec` the query vector, both over the
 * vocabulary of the same request and both with the "implies c++" hint tokens.
 */
module Vectorizer {
  import opened TokenNormalizer
  import opened Catalog
  import opened Vocabulary

  /** The token that hint tokens switch on. */
  const Cpp: string := "c++"

  /** Tokens of a catalog object that also set the `c++` column. */
  const ItemHints: set<string> := {"arduino"}

  /** Tokens of a query that also set the `c++` column ("олимпиадная информатика" among them). */
  const QueryHints: set<string> := {"arduino", "\U{43e}\U{43b}\U{438}\U{43c}\U{43f}\U{438}\U{430}\U{434}\U{43d}\U{430}\U{44f} \U{438}\U{43d}\U{444}\U{43e}\U{440}\U{43c}\U{430}\U{442}\U{438}\U{43a}\U{430}", "codeforces"}

  /** `1.0` for a set entry, `0.0` for an unset one. */
  function Indicator(b: bool): real {
    if b then 1.0 else 0.0
  }

  /** Every entry is 0 or 1. */
  predicate OneHot(v: seq<real>) {
    forall j :: 0 <= j < |v| ==> v[j] == 0.0 || v[j] == 1.0
  }

  /**
   * Column `j` is set for the token list `toks`: some token has index `j`, or a hint token
   * is present and `j` is the index of `c++`.
   */
  predicate Hits(toks: seq<string>, vocab: Vocab, j: int, hints: set<string>) {
    || (exists t :: t in toks && t in vocab && vocab[t] == j)
    || (Cpp in vocab && vocab[Cpp] == j && exists t :: t in toks && t in hints)
  }

  /** The one-hot vector of the token list `toks` over `vocab`. */
  function Row(toks: seq<string>, vocab: Vocab, hints: set<string>): (v: seq<real>)
    ensures |v| == |vocab| && OneHot(v)
  {
    seq(|vocab|, j requires 0 <= j < |vocab| => Indicator(Hits(toks, vocab, j, hints)))
  }

  /** No catalog object or no token: the matrix is empty. */
  predicate Degenerate(objs: seq<CatalogObject>, vocab: Vocab) {
    objs == [] || |vocab| == 0
  }

  /** The matrix `_one_hot_matrix` builds, row by row. */
  function OneHotRows(objs: seq<CatalogObject>, vocab: Vocab): (rows: seq<seq<real>>)
    ensures |rows| == if Degenerate(objs, vocab) then 0 else |objs|
    ensures forall i :: 0 <= i < |rows| ==> |rows[i]| == |vocab| && OneHot(rows[i])
  {
    if Degenerate(objs, vocab) then []
    else seq(|objs|, i requires 0 <= i < |objs| => Row(NormListSpec(objs[i].skills), vocab, ItemHints))
  }

  /** The ids column of `_one_hot_matrix`. */
  function IdColumn(objs: seq<CatalogObject>, vocab: Vocab): (ids: seq<int>)
    ensures |ids| == if Degenerate(objs, vocab) then 0 else |objs|
  {
    if Degenerate(objs, vocab) then [] else seq(|objs|, i requires 0 <= i < |objs| => ObjectId(objs[i]))
  }

  /** The popularity column of `_one_hot_matrix`. */
  function PopColumn(objs: seq<CatalogObject>, vocab: Vocab): (pop: seq<real>)
    ensures |pop| == if Degenerate(objs, vocab) then 0 else |objs|
  {
    if Degenerate(objs, vocab) then [] else seq(|objs|, i requires 0 <= i < |objs| => Popularity(objs[i]))
  }

  /** The vector `_skills_to_vec` builds for the query skills. */
  function QueryVec(skills: seq<Raw>, vocab: Vocab): (u: seq<real>)
    ensures |u| == |vocab| && OneHot(u)
  {
    Row(NormListSpec(skills), vocab, QueryHints)
  }

  /** The contents of a matrix, row by row. */
  function Grid(M: array2<real>): (g: seq<seq<real>>)
    reads M
    ensures |g| == M.Length0 && forall i :: 0 <= i < M.Length0 ==> |g[i]| == M.Length1
  {
    seq(M.Length0, i requires 0 <= i < M.Length0 reads M =>
      seq(M.Length1, j requires 0 <= j < M.Length1 reads M => M[i, j]))
  }

  /** One more token sets the columns it hits and leaves the others as they were. */
  lemma HitsSnoc(toks: seq<string>, k: nat, vocab: Vocab, j: int, hints: set<string>)
    requires k < |toks|
    ensures Hits(toks[..k + 1], vocab, j, hints) <==>
              || Hits(toks[..k], vocab, j, hints)
              || (toks[k] in vocab && vocab[toks[k]] == j)
              || (Cpp in vocab && vocab[Cpp] == j && toks[k] in hints)
  {
    assert toks[..k + 1] == toks[..k] + [toks[k]];
  }

  /**
   * The inner loop of `_one_hot_matrix`: sets, in the zeroed row `i`, the columns of the
   * tokens `toks` and, for a hint token, the `c++` column.
   */
  method FillRow(M: array2<real>, i: nat, toks: seq<string>, vocab: Vocab, hints: set<string>)
    requires ValidVocab(vocab) && i < M.Length0 && M.Length1 == |vocab|
    requires forall c :: 0 <= c < M.Length1 ==> M[i, c] == 0.0
    modifies M
    ensures forall r, c :: 0 <= r < M.Length0 && r != i && 0 <= c < M.Length1 ==> M[r, c] == old(M[r, c])
    ensures forall c :: 0 <= c < M.Length1 ==> M[i, c] == Row(toks, vocab, hints)[c]
  {
    for k := 0 to |toks|
      invariant forall r, c :: 0 <= r < M.Length0 && r != i && 0 <= c < M.Length1 ==> M[r, c] == old(M[r, c])
      invariant forall c :: 0 <= c < M.Length1 ==> M[i, c] == Indicator(Hits(toks[..k], vocab, c, hints))
    {
      forall c | 0 <= c < M.Length1
        ensures Hits(toks[..k + 1], vocab, c, hints) <==>
                  || Hits(toks[..k], vocab, c, hints)
                  || (toks[k] in vocab && vocab[toks[k]] == c)
                  || (Cpp in vocab && vocab[Cpp] == c && toks[k] in hints)
      {
        HitsSnoc(toks, k, vocab, c, hints);
      }
      var tok := toks[k];
      if tok in vocab {
        M[i, vocab[tok]] := 1.0;
      }
      if tok in hints {
        if Cpp in vocab {
          M[i, vocab[Cpp]] := 1.0;
        }
      }
    }
    assert toks[..|toks|] == toks;
  }

  /**
   * One pass of the loop of `_one_hot_matrix`: records the id and popularity of object `i`
   * and fills its zeroed row.
   */
  method FillObject(M: array2<real>, ids: array<int>, pop: array<real>, objs: seq<CatalogObject>, i: nat, vocab: Vocab)
    requires ValidVocab(vocab) && i < |objs| && !Degenerate(objs, vocab)
    requires M.Length0 == |objs| && M.Length1 == |vocab| && ids.Length == |objs| && pop.Length == |objs|
    requires forall c :: 0 <= c < M.Length1 ==> M[i, c] == 0.0
    modifies M, ids, pop
    ensures forall r, c :: 0 <= r < M.Length0 && r != i && 0 <= c < M.Length1 ==> M[r, c] == old(M[r, c])
    ensures forall c :: 0 <= c < M.Length1 ==> M[i, c] == OneHotRows(objs, vocab)[i][c]
    ensures ids[..] == old(ids[..])[i := ObjectId(objs[i])]
    ensures pop[..] == old(pop[..])[i := Popularity(objs[i])]
  {
    ids[i] := ObjectId(objs[i]);
    pop[i] := Popularity(objs[i]);
    var toks := NormList(objs[i].skills);
    FillRow(M, i, toks, vocab, ItemHints);
  }

  /** `_one_hot_matrix`. */
  method OneHotMatrix(objs: seq<CatalogObject>, vocab: Vocab) returns (M: array2<real>, ids: array<int>, pop: array<real>)
    requires ValidVocab(vocab)
    ensures Grid(M) == OneHotRows(objs, vocab)
    ensures ids[..] == IdColumn(objs, vocab) && pop[..] == PopColumn(objs, vocab)
  {
    var L := |vocab|;
    if objs == [] || L == 0 {
      M := new real[0, 0];
      ids := new int[0];
      pop := new real[0];
      assert Grid(M) == [];
      return;
    }
    var N := |objs|;
    ghost var rows := OneHotRows(objs, vocab);
    M := new real[N, L]((i, j) => 0.0);
    ids := new int[N](i => 0);
    pop := new real[N](i => 0.0);
    for i := 0 to N
      invariant M.Length0 == N && M.Length1 == L
      invariant forall r, c :: 0 <= r < i && 0 <= c < L ==> M[r, c] == rows[r][c]
      invariant forall r, c :: i <= r < N && 0 <= c < L ==> M[r, c] == 0.0
      invariant forall r :: 0 <= r < i ==> ids[r] == IdColumn(objs, vocab)[r] && pop[r] == PopColumn(objs, vocab)[r]
    {
      FillObject(M, ids, pop, objs, i, vocab);
    }
    GridOf(M, rows);
    assert ids[..] == IdColumn(objs, vocab);
    assert pop[..] == PopColumn(objs, vocab);
  }

  /** A matrix whose entries are those of `rows` has `rows` as its contents. */
  lemma GridOf(M: array2<real>, rows: seq<seq<real>>)
    requires |rows| == M.Length0 && forall r :: 0 <= r < |rows| ==> |rows[r]| == M.Length1
    requires forall r, c :: 0 <= r < M.Length0 && 0 <= c < M.Length1 ==> M[r, c] == rows[r][c]
    ensures Grid(M) == rows
  {
    forall r | 0 <= r < |rows|
      ensures Grid(M)[r] == rows[r]
    {
    }
  }

  /** `_skills_to_vec`. */
  method SkillsToVec(skills: seq<Raw>, vocab: Vocab) returns (v: array<real>)
    requires ValidVocab(vocab)
    ensures v[..] == QueryVec(skills, vocab)
  {
    var L := |vocab|;
    v := new real[L](j => 0.0);
    var toks := NormList(skills);
    for k := 0 to |toks|
      invariant forall c :: 0 <= c < L ==> v[c] == Indicator(Hits(toks[..k], vocab, c, QueryHints))
    {
      forall c | 0 <= c < L
        ensures Hits(toks[..k + 1], vocab, c, QueryHints) <==>
                  || Hits(toks[..k], vocab, c, QueryHints)
                  || (toks[k] in vocab && vocab[toks[k]] == c)
                  || (Cpp in vocab && vocab[Cpp] == c && toks[k] in QueryHints)
      {
        HitsSnoc(toks, k, vocab, c, QueryHints);
      }
      var tok := toks[k];
      if tok in vocab {
        v[vocab[tok]] := 1.0;
      }
      if tok in QueryHints {
        if Cpp in vocab {
          v[vocab[Cpp]] := 1.0;
        }
      }
    }
    assert toks[..|toks|] == toks;
    assert v[..] == QueryVec(skills, vocab);
  }

  /**
   * With the vocabulary built from the same objects, every normalised skill of object `i`
   * is a column of the vocabulary and is set in row `i`.
   */
  lemma SkillColumnSet(objs: seq<CatalogObject>, i: nat, t: string)
    requires i < |objs| && t in NormListSpec(objs[i].skills)
    ensures t in VocabSpec(objs) && 0 <= VocabSpec(objs)[t] < |VocabSpec(objs)|
    ensures |OneHotRows(objs, VocabSpec(objs))| == |objs|
    ensures OneHotRows(objs, VocabSpec(objs))[i][VocabSpec(objs)[t]] == 1.0
  {
    VocabKeys(objs, t);
    VocabValid(objs);
    var vocab := VocabSpec(objs);
    assert Hits(NormListSpec(objs[i].skills), vocab, vocab[t], ItemHints);
  }

  /** An object with the token "arduino" also has the `c++` column set, when there is one. */
  lemma ArduinoSetsCpp(objs: seq<CatalogObject>, vocab: Vocab, i: nat)
    requires ValidVocab(vocab) && i < |objs| && "arduino" in NormListSpec(objs[i].skills) && Cpp in vocab
    ensures OneHotRows(objs, vocab)[i][vocab[Cpp]] == 1.0
  {
    assert "arduino" in ItemHints;
  }

  /**
   * In a query, each of the three hint tokens sets the `c++` column, when there is one; an
   * object row reacts to "arduino" only.
   */
  lemma QueryHintSetsCpp(skills: seq<Raw>, vocab: Vocab, t: string)
    requires ValidVocab(vocab) && t in NormListSpec(skills) && t in QueryHints && Cpp in vocab
    ensures QueryVec(skills, vocab)[vocab[Cpp]] == 1.0
  {
  }

  /** A token that is neither in the vocabulary nor a hint changes no column. */
  lemma UnknownTokenIgnored(toks: seq<string>, t: string, vocab: Vocab, hints: set<string>)
    requires t !in vocab && t !in hints
    ensures Row(toks + [t], vocab, hints) == Row(toks, vocab, hints)
  {
    forall j | 0 <= j < |vocab|
      ensures Hits(toks + [t], vocab, j, hints) == Hits(toks, vocab, j, hints)
    {
      if Hits(toks + [t], vocab, j, hints) {
        if exists s :: s in toks + [t] && s in vocab && vocab[s] == j {
          var s :| s in toks + [t] && s in vocab && vocab[s] == j;
          assert s in toks;
        } else {
          var s :| s in toks + [t] && s in hints;
          assert s in toks;
        }
      }
    }
  }
}
