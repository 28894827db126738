/**
 * `_build_vocab` of the recommendation service (ml/server.py): every skill token of the
 * catalog objects, in order of first appearance, mapped to a column index.
 */
module Vocabulary {
  import opened TokenNormalizer
  import opened Catalog

  /** A vocabulary: token to column index. */
  type Vocab = map<string, int>

  /** The indices of `v` are exactly `0 .. |v|-1`, each used by one token. */
  predicate ValidVocab(v: Vocab) {
    && (forall t :: t in v ==> 0 <= v[t] < |v|)
    && (forall t1, t2 :: t1 in v && t2 in v && t1 != t2 ==> v[t1] != v[t2])
    && (forall k :: 0 <= k < |v| ==> k in v.Values)
  }

  /**
   * The inner loop of `_build_vocab`, defined the way it runs: the last token gets the next
   * index when it is not yet in the vocabulary.
   */
  function AddTokens(v: Vocab, toks: seq<string>): Vocab
    decreases |toks|
  {
    if toks == [] then v
    else
      var prev := AddTokens(v, toks[..|toks| - 1]);
      var t := toks[|toks| - 1];
      if t in prev then prev else prev[t := |prev|]
  }

  /** What `_build_vocab` returns for `objs`: the tokens of each object added in turn. */
  function VocabSpec(objs: seq<CatalogObject>): Vocab {
    if objs == [] then map[]
    else AddTokens(VocabSpec(objs[..|objs| - 1]), NormListSpec(objs[|objs| - 1].skills))
  }

  /** `_build_vocab`. */
  method BuildVocab(objs: seq<CatalogObject>) returns (vocab: Vocab)
    ensures vocab == VocabSpec(objs)
  {
    vocab := map[];
    for i := 0 to |objs|
      invariant vocab == VocabSpec(objs[..i])
    {
      var toks := NormList(objs[i].skills);
      ghost var start := vocab;
      for k := 0 to |toks|
        invariant vocab == AddTokens(start, toks[..k])
      {
        assert toks[..k + 1][..k] == toks[..k];
        var tok := toks[k];
        if tok !in vocab {
          vocab := vocab[tok := |vocab|];
        }
      }
      assert toks[..|toks|] == toks;
      assert objs[..i + 1][..i] == objs[..i];
    }
    assert objs[..|objs|] == objs;
  }

  /** Giving a new token the next index keeps the indices exactly `0 .. |v|-1`. */
  lemma AddOneValid(v: Vocab, t: string)
    requires ValidVocab(v) && t !in v
    ensures |v[t := |v|]| == |v| + 1
    ensures ValidVocab(v[t := |v|])
  {
    var w := v[t := |v|];
    assert w.Keys == v.Keys + {t};
    assert |w| == |v| + 1;
    forall k | 0 <= k < |w|
      ensures k in w.Values
    {
      if k == |v| {
        assert w[t] == k;
      } else {
        assert k in v.Values;
        var s :| s in v && v[s] == k;
        assert w[s] == k;
      }
    }
  }

  /**
   * Adding tokens keeps a valid vocabulary valid, keeps every existing index, and adds
   * exactly the tokens not yet present, at indices from `|v|` on.
   */
  lemma {:induction false} AddTokensProps(v: Vocab, toks: seq<string>)
    requires ValidVocab(v)
    ensures ValidVocab(AddTokens(v, toks))
    ensures |AddTokens(v, toks)| >= |v|
    ensures forall t :: t in v ==> t in AddTokens(v, toks) && AddTokens(v, toks)[t] == v[t]
    ensures forall t :: t in AddTokens(v, toks) && t !in v ==> AddTokens(v, toks)[t] >= |v|
    decreases |toks|
  {
    if toks != [] {
      var init := toks[..|toks| - 1];
      AddTokensProps(v, init);
      var prev := AddTokens(v, init);
      var t := toks[|toks| - 1];
      assert toks == init + [t];
      if t !in prev {
        AddOneValid(prev, t);
      }
    }
  }

  /**
   * Order within one object: a token not yet present when its turn comes gets the size of
   * the vocabulary at that moment, so the skills of one object are numbered in their order.
   */
  lemma {:induction false} AddTokensIndex(v: Vocab, toks: seq<string>, j: nat)
    requires ValidVocab(v) && j < |toks| && toks[j] !in AddTokens(v, toks[..j])
    ensures toks[j] in AddTokens(v, toks) && AddTokens(v, toks)[toks[j]] == |AddTokens(v, toks[..j])|
    decreases |toks|
  {
    var init := toks[..|toks| - 1];
    if j == |toks| - 1 {
      assert init == toks[..j];
    } else {
      assert init[..j] == toks[..j] && init[j] == toks[j];
      AddTokensIndex(v, init, j);
      AddTokensProps(v, init);
    }
  }

  /** `_build_vocab` returns a valid vocabulary. */
  lemma {:induction false} VocabValid(objs: seq<CatalogObject>)
    ensures ValidVocab(VocabSpec(objs))
  {
    if objs != [] {
      VocabValid(objs[..|objs| - 1]);
      AddTokensProps(VocabSpec(objs[..|objs| - 1]), NormListSpec(objs[|objs| - 1].skills));
    }
  }

  /** The tokens of `AddTokens(v, toks)` are those of `v` and those of `toks`. */
  lemma {:induction false} AddTokensKeys(v: Vocab, toks: seq<string>, t: string)
    ensures t in AddTokens(v, toks) <==> t in v || t in toks
    decreases |toks|
  {
    if toks != [] {
      var init := toks[..|toks| - 1];
      AddTokensKeys(v, init, t);
      assert toks == init + [toks[|toks| - 1]];
    }
  }

  /** A token is in the vocabulary iff it is a normalised skill of some object. */
  lemma {:induction false} VocabKeys(objs: seq<CatalogObject>, t: string)
    ensures t in VocabSpec(objs) <==> exists i :: 0 <= i < |objs| && t in NormListSpec(objs[i].skills)
  {
    if objs != [] {
      var init := objs[..|objs| - 1];
      var last := objs[|objs| - 1];
      VocabKeys(init, t);
      AddTokensKeys(VocabSpec(init), NormListSpec(last.skills), t);
      assert forall i :: 0 <= i < |init| ==> init[i] == objs[i];
      if t in NormListSpec(last.skills) {
        assert 0 <= |objs| - 1 < |objs| && t in NormListSpec(objs[|objs| - 1].skills);
      }
    }
  }

  /** The empty string is never a token of the vocabulary. */
  lemma NoEmptyToken(objs: seq<CatalogObject>)
    ensures "" !in VocabSpec(objs)
  {
    VocabKeys(objs, "");
  }

  /**
   * First-appearance order: the vocabulary built from the first `n` objects keeps its
   * indices in the full vocabulary, and every token first seen later gets a larger index.
   */
  lemma {:induction false} VocabPrefixStable(objs: seq<CatalogObject>, n: nat)
    requires n <= |objs|
    ensures forall t :: t in VocabSpec(objs[..n]) ==> t in VocabSpec(objs) && VocabSpec(objs)[t] == VocabSpec(objs[..n])[t]
    ensures forall t :: t in VocabSpec(objs) && t !in VocabSpec(objs[..n]) ==> VocabSpec(objs)[t] >= |VocabSpec(objs[..n])|
    ensures |VocabSpec(objs[..n])| <= |VocabSpec(objs)|
    decreases |objs| - n
  {
    if n == |objs| {
      assert objs[..n] == objs;
    } else {
      var init := objs[..|objs| - 1];
      assert init[..n] == objs[..n];
      VocabPrefixStable(init, n);
      VocabValid(init);
      AddTokensProps(VocabSpec(init), NormListSpec(objs[|objs| - 1].skills));
    }
  }

  /**
   * First-appearance order in full: skill `j` of object `i`, when it is new at its turn, gets
   * the number of distinct tokens seen before it (earlier objects, then earlier skills of
   * object `i`), and keeps that index in the vocabulary of all objects.
   */
  lemma VocabIndex(objs: seq<CatalogObject>, i: nat, j: nat)
    requires i < |objs| && j < |NormListSpec(objs[i].skills)|
    requires var toks := NormListSpec(objs[i].skills);
      toks[j] !in AddTokens(VocabSpec(objs[..i]), toks[..j])
    ensures var toks := NormListSpec(objs[i].skills);
      && toks[j] in VocabSpec(objs)
      && VocabSpec(objs)[toks[j]] == |AddTokens(VocabSpec(objs[..i]), toks[..j])|
  {
    var toks := NormListSpec(objs[i].skills);
    var before := VocabSpec(objs[..i]);
    assert objs[..i + 1][..i] == objs[..i] && objs[..i + 1][i] == objs[i];
    assert VocabSpec(objs[..i + 1]) == AddTokens(before, toks);
    VocabValid(objs[..i]);
    AddTokensIndex(before, toks, j);
    VocabPrefixStable(objs, i + 1);
  }
}
