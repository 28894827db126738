/**
 * The label classifier of ml/server.py: `load_artifacts`, which fills the three module
 * globals from the artifacts directory, and `predict_labels`, which keeps the labels whose
 * probability reaches their threshold, most probable first.
 *
 * The fitted model itself is a parameter: `model(text)` is the probability per label that
 * the pipeline gives for the normalised text.
 */
module Classifier {
  import opened Results
  import opened PyStrings
  import opened TokenNormalizer

  const ModelFile: string := "tfidf_logreg_ovr.joblib"
  const LabelsFile: string := "labels.json"

  /** `DEFAULT_THR`. */
  const DefaultThreshold: real := 0.5

  /** The contents of a `.npy` file: its shape and its values. */
  datatype NpyArray = NpyArray(shape: seq<int>, data: seq<real>)

  /**
   * The artifacts directory as `load_artifacts` finds it: whether the model file exists, the
   * list in labels.json if that file exists, and the array in thresholds.npy if that exists.
   */
  datatype ArtifactDir = ArtifactDir(hasModel: bool, labels: Option<seq<string>>, thresholds: Option<NpyArray>)

  /** The names of the required artifacts that are missing, in the order they are checked. */
  function MissingFiles(dir: ArtifactDir): (missing: seq<string>)
    ensures missing == [] <==> dir.hasModel && dir.labels.Some?
    ensures ModelFile in missing <==> !dir.hasModel
    ensures LabelsFile in missing <==> dir.labels.None?
  {
    (if dir.hasModel then [] else [ModelFile]) + (if dir.labels.Some? then [] else [LabelsFile])
  }

  /** The thresholds kept at load: the array's values when its shape is `(n,)`, else none. */
  function KeptThresholds(t: Option<NpyArray>, n: nat): (r: Option<seq<real>>)
    ensures r.Some? <==> t.Some? && t.value.shape == [n]
    ensures r.Some? ==> r.value == t.value.data
  {
    if t.Some? && t.value.shape == [n] then Some(t.value.data) else None
  }

  /** A one-dimensional `.npy` array holds as many values as its shape says. */
  predicate WellFormed(a: NpyArray) {
    |a.shape| == 1 ==> a.shape[0] == |a.data|
  }

  lemma KeptThresholdsLength(t: Option<NpyArray>, n: nat)
    requires t.Some? ==> WellFormed(t.value)
    ensures KeptThresholds(t, n).Some? ==> |KeptThresholds(t, n).value| == n
  {
  }

  /** The threshold of each label: the kept array, or `DefaultThreshold` for every label. */
  function Thresholds(kept: Option<seq<real>>, n: nat): (thr: seq<real>)
    ensures kept.None? ==> |thr| == n && forall i :: 0 <= i < n ==> thr[i] == DefaultThreshold
    ensures kept.Some? ==> thr == kept.value
  {
    if kept.Some? then kept.value else seq(n, i => DefaultThreshold)
  }

  // ---------------------------------------------------------------------------------------
  // Label selection
  // ---------------------------------------------------------------------------------------

  /** `np.where(probs >= thresholds)[0]` restricted to the first `n` labels. */
  function Selected(probs: seq<real>, thr: seq<real>, n: nat): (idx: seq<nat>)
    requires n <= |probs| == |thr|
    ensures forall p :: 0 <= p < |idx| ==> idx[p] < n
  {
    if n == 0 then []
    else Selected(probs, thr, n - 1) + (if probs[n - 1] >= thr[n - 1] then [n - 1] else [])
  }

  /** A label is selected iff its probability reaches its threshold (the bound is inclusive). */
  lemma {:induction false} SelectedIff(probs: seq<real>, thr: seq<real>, n: nat, i: int)
    requires n <= |probs| == |thr|
    ensures i in Selected(probs, thr, n) <==> 0 <= i < n && probs[i] >= thr[i]
  {
    if n > 0 {
      SelectedIff(probs, thr, n - 1, i);
    }
  }

  /** The selected labels are listed once each, in label order. */
  lemma {:induction false} SelectedIncreasing(probs: seq<real>, thr: seq<real>, n: nat)
    requires n <= |probs| == |thr|
    ensures forall p, q :: 0 <= p < q < |Selected(probs, thr, n)| ==> Selected(probs, thr, n)[p] < Selected(probs, thr, n)[q]
  {
    if n > 0 {
      SelectedIncreasing(probs, thr, n - 1);
    }
  }

  predicate InRange(probs: seq<real>, xs: seq<nat>) {
    forall p :: 0 <= p < |xs| ==> xs[p] < |probs|
  }

  /** Probabilities never increase along `xs`. */
  predicate NonIncreasing(probs: seq<real>, xs: seq<nat>)
    requires InRange(probs, xs)
  {
    forall p, q :: 0 <= p < q < |xs| ==> probs[xs[p]] >= probs[xs[q]]
  }

  /** Inserts `x` in front of the first entry of lower probability. */
  function InsertByProb(probs: seq<real>, x: nat, xs: seq<nat>): (r: seq<nat>)
    requires x < |probs| && InRange(probs, xs)
    ensures InRange(probs, r) && multiset(r) == multiset(xs) + multiset{x}
    ensures |r| == |xs| + 1 && forall y :: y in r <==> y == x || y in xs
  {
    if xs == [] then [x]
    else if probs[x] > probs[xs[0]] then [x] + xs
    else
      assert xs == [xs[0]] + xs[1..];
      [xs[0]] + InsertByProb(probs, x, xs[1..])
  }

  /**
   * The order of `idx[np.argsort(-probs[idx])]`, taken to be the stable one; `argsort`'s
   * default sort is not stable, so only the probability order and the contents are claimed.
   */
  function SortByProb(probs: seq<real>, xs: seq<nat>): (r: seq<nat>)
    requires InRange(probs, xs)
    ensures InRange(probs, r) && multiset(r) == multiset(xs)
  {
    if xs == [] then []
    else
      assert xs == xs[..|xs| - 1] + [xs[|xs| - 1]];
      InsertByProb(probs, xs[|xs| - 1], SortByProb(probs, xs[..|xs| - 1]))
  }

  lemma {:induction false} InsertByProbSorted(probs: seq<real>, x: nat, xs: seq<nat>)
    requires x < |probs| && InRange(probs, xs) && NonIncreasing(probs, xs)
    ensures NonIncreasing(probs, InsertByProb(probs, x, xs))
  {
    if xs != [] && probs[x] <= probs[xs[0]] {
      InsertByProbSorted(probs, x, xs[1..]);
      var rest := InsertByProb(probs, x, xs[1..]);
      forall q | 0 <= q < |rest|
        ensures probs[xs[0]] >= probs[rest[q]]
      {
        assert rest[q] in rest;
        if rest[q] != x {
          var k :| 0 <= k < |xs[1..]| && xs[1..][k] == rest[q];
          assert xs[k + 1] == rest[q];
        }
      }
    }
  }

  lemma {:induction false} SortByProbSorted(probs: seq<real>, xs: seq<nat>)
    requires InRange(probs, xs)
    ensures NonIncreasing(probs, SortByProb(probs, xs))
  {
    if xs != [] {
      SortByProbSorted(probs, xs[..|xs| - 1]);
      InsertByProbSorted(probs, xs[|xs| - 1], SortByProb(probs, xs[..|xs| - 1]));
    }
  }

  /** The label list `predict_labels` returns for probabilities `probs` (normalised text non-empty). */
  function SelectLabels(labels: seq<string>, probs: seq<real>, thr: seq<real>): seq<string>
    requires |labels| == |probs| == |thr|
  {
    var order := SortByProb(probs, Selected(probs, thr, |probs|));
    seq(|order|, p requires 0 <= p < |order| => labels[order[p]])
  }

  /**
   * The answer lists, most probable first, the label of every index whose probability reaches
   * its threshold, each index exactly once, and nothing else.
   */
  lemma SelectLabelsProps(labels: seq<string>, probs: seq<real>, thr: seq<real>)
    requires |labels| == |probs| == |thr|
    ensures var order := SortByProb(probs, Selected(probs, thr, |probs|));
            && |SelectLabels(labels, probs, thr)| == |order|
            && (forall p :: 0 <= p < |order| ==> SelectLabels(labels, probs, thr)[p] == labels[order[p]])
            && NonIncreasing(probs, order)
            && (forall i: nat :: i < |probs| ==> multiset(order)[i] == if probs[i] >= thr[i] then 1 else 0)
  {
    var sel: seq<nat> := Selected(probs, thr, |probs|);
    var order: seq<nat> := SortByProb(probs, sel);
    SortByProbSorted(probs, sel);
    SelectedIncreasing(probs, thr, |probs|);
    forall i: nat | i < |probs|
      ensures multiset(order)[i] == if probs[i] >= thr[i] then 1 else 0
    {
      SelectedIff(probs, thr, |probs|, i);
      CountOfIncreasing(sel, i);
    }
  }

  /** In a strictly increasing sequence every value occurs at most once. */
  lemma {:induction false} CountOfIncreasing(xs: seq<nat>, v: nat)
    requires forall p, q :: 0 <= p < q < |xs| ==> xs[p] < xs[q]
    ensures multiset(xs)[v] == if v in xs then 1 else 0
  {
    if xs != [] {
      var init := xs[..|xs| - 1];
      CountOfIncreasing(init, v);
      assert xs == init + [xs[|xs| - 1]];
      if v in init {
        var k :| 0 <= k < |init| && init[k] == v;
        assert v != xs[|xs| - 1];
      }
    }
  }

  /** Why `predict_labels` raised: missing artifacts, or the model's output did not fit. */
  datatype Failure = ArtifactsMissing(names: seq<string>) | ModelFailure

  /** The text of the missing-artifacts error around the list of missing file names. */
  const MissingPrefix: string := "\U{41d}\U{435} \U{43d}\U{430}\U{439}\U{434}\U{435}\U{43d}\U{44b} \U{430}\U{440}\U{442}\U{435}\U{444}\U{430}\U{43a}\U{442}\U{44b}: "
  const MissingSuffix: string := " \U{432} "

  // ---------------------------------------------------------------------------------------
  // The globals PIPE, LABELS, THRESHOLDS
  // ---------------------------------------------------------------------------------------

  /**
   * The module globals of the classifier: whether `PIPE` holds a model, `LABELS`, and
   * `THRESHOLDS` (`None` when absent or discarded). `modelCalls` counts the times the model
   * was consulted.
   */
  class ArtifactStore {
    var pipeLoaded: bool
    var labels: seq<string>
    var thresholds: Option<seq<real>>
    ghost var modelCalls: nat

    /** `PIPE = None`, `LABELS = []`, `THRESHOLDS = None`. */
    constructor ()
      ensures !pipeLoaded && labels == [] && thresholds == None && modelCalls == 0
    {
      pipeLoaded := false;
      labels := [];
      thresholds := None;
      modelCalls := 0;
    }

    /**
     * `load_artifacts`: fails, changing nothing, when the model or the label file is
     * missing; otherwise loads both and keeps the thresholds only when there is one per label.
     */
    method LoadArtifacts(dir: ArtifactDir) returns (missing: seq<string>)
      modifies this
      ensures missing == MissingFiles(dir)
      ensures missing != [] ==> pipeLoaded == old(pipeLoaded) && labels == old(labels) && thresholds == old(thresholds)
      ensures missing == [] ==> pipeLoaded && labels == dir.labels.value && thresholds == KeptThresholds(dir.thresholds, |labels|)
      ensures modelCalls == old(modelCalls)
    {
      missing := [];
      if !dir.hasModel {
        missing := missing + [ModelFile];
      }
      if dir.labels.None? {
        missing := missing + [LabelsFile];
      }
      if missing != [] {
        return;
      }
      pipeLoaded := true;
      labels := dir.labels.value;
      if dir.thresholds.Some? {
        thresholds := Some(dir.thresholds.value.data);
        if dir.thresholds.value.shape != [|labels|] {
          thresholds := None;
        }
      } else {
        thresholds := None;
      }
    }

    /**
     * `predict_labels`: loads the artifacts when no model or no label is loaded, answers
     * `[]` without consulting the model when the normalised description is empty, and
     * otherwise selects labels by threshold, most probable first. A failed load raises the
     * missing-files error; a model answer of the wrong length fails in numpy.
     */
    method PredictLabels(dir: ArtifactDir, description: string, model: string -> seq<real>)
        returns (r: Result<seq<string>, Failure>)
      modifies this
      requires thresholds.Some? ==> |thresholds.value| == |labels|
      requires dir.thresholds.Some? ==> WellFormed(dir.thresholds.value)
      ensures thresholds.Some? ==> |thresholds.value| == |labels|
      ensures var reload := !old(pipeLoaded) || old(labels) == [];
              && (!(reload && MissingFiles(dir) == []) ==>
                    pipeLoaded == old(pipeLoaded) && labels == old(labels) && thresholds == old(thresholds))
              && (reload && MissingFiles(dir) == [] ==>
                    pipeLoaded && labels == dir.labels.value && thresholds == KeptThresholds(dir.thresholds, |labels|))
      ensures var reload := !old(pipeLoaded) || old(labels) == [];
              var text := NormalizeText(Str(description));
              && (reload && MissingFiles(dir) != [] ==>
                    r == Err(ArtifactsMissing(MissingFiles(dir))) && modelCalls == old(modelCalls))
              && (!(reload && MissingFiles(dir) != []) && text == "" ==> r == Ok([]) && modelCalls == old(modelCalls))
              && (!(reload && MissingFiles(dir) != []) && text != "" ==>
                    modelCalls == old(modelCalls) + 1 &&
                    var thr := Thresholds(thresholds, |labels|);
                    r == if |model(text)| == |labels| then Ok(SelectLabels(labels, model(text), thr)) else Err(ModelFailure))
    {
      if !pipeLoaded || labels == [] {
        var missing := LoadArtifacts(dir);
        if missing != [] {
          return Err(ArtifactsMissing(missing));
        }
        KeptThresholdsLength(dir.thresholds, |labels|);
      }
      var text := NormalizeText(Str(description));
      if text == "" {
        return Ok([]);
      }
      var probs := model(text);
      modelCalls := modelCalls + 1;
      var thr := Thresholds(thresholds, |labels|);
      if |probs| != |labels| {
        return Err(ModelFailure);
      }
      return Ok(SelectLabels(labels, probs, thr));
    }

    /** `POST /predict`: every failure becomes status 500. */
    method Predict(dir: ArtifactDir, description: string, model: string -> seq<real>)
        returns (r: Result<seq<string>, HttpError>)
      modifies this
      requires thresholds.Some? ==> |thresholds.value| == |labels|
      requires dir.thresholds.Some? ==> WellFormed(dir.thresholds.value)
      ensures thresholds.Some? ==> |thresholds.value| == |labels|
      ensures var reload := !old(pipeLoaded) || old(labels) == [];
              && (!(reload && MissingFiles(dir) == []) ==>
                    pipeLoaded == old(pipeLoaded) && labels == old(labels) && thresholds == old(thresholds))
              && (reload && MissingFiles(dir) == [] ==>
                    pipeLoaded && labels == dir.labels.value && thresholds == KeptThresholds(dir.thresholds, |labels|))
      ensures r.Err? ==> r.error.status == 500
      ensures var reload := !old(pipeLoaded) || old(labels) == [];
              var text := NormalizeText(Str(description));
              && (reload && MissingFiles(dir) != [] ==> r == Err(ErrorResponse(ArtifactsMissing(MissingFiles(dir)))))
              && (!(reload && MissingFiles(dir) != []) && text == "" ==> r == Ok([]))
              && (!(reload && MissingFiles(dir) != []) && text != "" ==>
                    var thr := Thresholds(thresholds, |labels|);
                    r == if |model(text)| == |labels| then Ok(SelectLabels(labels, model(text), thr))
                         else Err(ErrorResponse(ModelFailure)))
    {
      var out := PredictLabels(dir, description, model);
      if out.Err? {
        return Err(ErrorResponse(out.error));
      }
      return Ok(out.value);
    }
  }

  /** How `predict` answers each failure. */
  function ErrorResponse(f: Failure): (e: HttpError)
    ensures e.status == 500
    ensures f.ArtifactsMissing? ==> StartsWith(e.detail, MissingPrefix + Join(", ", f.names))
    ensures f.ModelFailure? ==> StartsWith(e.detail, "Internal error: ")
  {
    match f
    case ArtifactsMissing(names) => HttpError(500, MissingPrefix + Join(", ", names) + MissingSuffix)
    case ModelFailure => HttpError(500, "Internal error: numpy shape mismatch")
  }

  /** With no thresholds file, a label is selected iff its probability is at least 0.5. */
  lemma DefaultThresholdSelects(labels: seq<string>, probs: seq<real>, i: nat)
    requires |labels| == |probs| && i < |probs|
    ensures i in Selected(probs, Thresholds(None, |labels|), |probs|) <==> probs[i] >= 0.5
  {
    SelectedIff(probs, Thresholds(None, |labels|), |probs|, i);
  }
}
