/** ASI's evaluation of a trained model on a test set (ASI.py lines 166-268):
    load the set, either drop the masked pixels (label 2) or relabel them as
    non-sargassum, classify the model's scores against a threshold, build the
    confusion matrix with sargassum (class 1) as the positive class and
    derive the usual rates from it. */
module AsiEvaluation {
  import opened Common
  import Asi
  import opened AsiDataset

  /** Every element of s is a class in 0 .. n-1. */
  predicate InRange(s: seq<int>, n: nat) {
    forall k :: 0 <= k < |s| ==> 0 <= s[k] < n
  }

  /** The (feature row, label) pairs of a data set. */
  function Zip(X: seq<seq<real>>, y: seq<int>): (z: seq<(seq<real>, int)>)
    requires |X| == |y|
    ensures |z| == |y| && forall k :: 0 <= k < |y| ==> z[k] == (X[k], y[k])
  {
    seq(|y|, k requires 0 <= k < |y| => (X[k], y[k]))
  }

  /** Boolean indexing by labels != 2: the masked pixels leave both the
      features and the labels, every other pixel stays with its own label and
      every other label keeps its count. */
  function DropMasked(X: seq<seq<real>>, y: seq<int>): (r: (seq<seq<real>>, seq<int>))
    requires |X| == |y|
    ensures |r.0| == |r.1| == |y| - Count(y, 2)
    ensures 2 !in r.1
    ensures forall v :: v != 2 ==> Count(r.1, v) == Count(y, v)
    ensures forall k :: 0 <= k < |r.1| ==> (r.0[k], r.1[k]) in Zip(X, y)
    decreases |y|
  {
    if |y| == 0 then ([], [])
    else
      var n := |y| - 1;
      var rest := DropMasked(X[..n], y[..n]);
      assert forall k :: 0 <= k < n ==> Zip(X[..n], y[..n])[k] == Zip(X, y)[k];
      if y[n] == 2 then rest
      else
        var kept := rest.1 + [y[n]];
        assert kept[..|kept| - 1] == rest.1;
        assert Zip(X, y)[n] == (X[n], y[n]);
        (rest.0 + [X[n]], kept)
  }

  /** The in-place relabelling y[y == 2] = 0 used when masked pixels are kept. */
  function Relabel(y: seq<int>): (r: seq<int>)
    ensures |r| == |y| && 2 !in r
    ensures forall k :: 0 <= k < |y| && y[k] != 2 ==> r[k] == y[k]
    ensures forall k :: 0 <= k < |y| && y[k] == 2 ==> r[k] == 0
  {
    seq(|y|, k requires 0 <= k < |y| => if y[k] == 2 then 0 else y[k])
  }

  /** Relabelling moves the masked pixels into the non-sargassum class and
      leaves every other count alone. */
  lemma {:induction false} RelabelCounts(y: seq<int>)
    ensures Count(Relabel(y), 0) == Count(y, 0) + Count(y, 2)
    ensures forall v :: v != 0 && v != 2 ==> Count(Relabel(y), v) == Count(y, v)
    decreases |y|
  {
    if |y| > 0 {
      var n := |y| - 1;
      RelabelCounts(y[..n]);
      assert Relabel(y)[..n] == Relabel(y[..n]);
    }
  }

  method RelabelMasked(y: array<int>)
    modifies y
    ensures y[..] == Relabel(old(y[..]))
  {
    for k := 0 to y.Length
      invariant forall j :: 0 <= j < k ==> y[j] == (if old(y[j]) == 2 then 0 else old(y[j]))
      invariant forall j :: k <= j < y.Length ==> y[j] == old(y[j])
    {
      if y[k] == 2 {
        y[k] := 0;
      }
    }
  }

  /** A score at or above the threshold predicts sargassum (1), a score below it
      predicts its absence (0). */
  function Classify(scores: seq<real>, threshold: real): (r: seq<int>)
    ensures |r| == |scores| && InRange(r, 2)
    ensures forall k :: 0 <= k < |r| ==> (r[k] == 1 <==> scores[k] >= threshold)
  {
    seq(|scores|, k requires 0 <= k < |scores| => if scores[k] >= threshold then 1 else 0)
  }

  /** The two masked assignments over an uninitialised integer array. */
  method ClassifyPredictions(scores: seq<real>, threshold: real) returns (cls: seq<int>)
    ensures cls == Classify(scores, threshold)
  {
    var a := new int[|scores|];
    for k := 0 to |scores|
      invariant forall j :: 0 <= j < k && scores[j] >= threshold ==> a[j] == 1
    {
      if scores[k] >= threshold {
        a[k] := 1;
      }
    }
    for k := 0 to |scores|
      invariant forall j :: 0 <= j < |scores| && scores[j] >= threshold ==> a[j] == 1
      invariant forall j :: 0 <= j < k && scores[j] < threshold ==> a[j] == 0
    {
      if scores[k] < threshold {
        a[k] := 0;
      }
    }
    cls := a[..];
  }

  /** Number of samples with label i that were predicted as j. */
  function PairCount(labels: seq<int>, preds: seq<int>, i: int, j: int): (c: nat)
    requires |labels| == |preds|
    ensures c <= |labels|
    decreases |labels|
  {
    if |labels| == 0 then 0
    else
      var n := |labels| - 1;
      (if labels[n] == i && preds[n] == j then 1 else 0) + PairCount(labels[..n], preds[..n], i, j)
  }

  /** With binary predictions, a row of the confusion matrix holds every
      sample of its label. */
  lemma {:induction false} RowSum(labels: seq<int>, preds: seq<int>, i: int)
    requires |labels| == |preds| && InRange(preds, 2)
    ensures PairCount(labels, preds, i, 0) + PairCount(labels, preds, i, 1) == Count(labels, i)
    decreases |labels|
  {
    if |labels| > 0 {
      var n := |labels| - 1;
      RowSum(labels[..n], preds[..n], i);
    }
  }

  /** tf.math.confusion_matrix: entry [i][j] counts the samples labelled i and
      predicted j; a label or prediction outside the classes is an error. */
  function ConfusionMatrix(labels: seq<int>, preds: seq<int>, numClasses: nat): (r: Result<seq<seq<nat>>>)
    requires |labels| == |preds|
    ensures r.Success? <==> InRange(labels, numClasses) && InRange(preds, numClasses)
    ensures r.Failure? ==> r.error == LabelOutOfRange
    ensures r.Success? ==> IsGrid(r.value, numClasses, numClasses)
    ensures r.Success? ==> forall i, j :: 0 <= i < numClasses && 0 <= j < numClasses ==>
              r.value[i][j] == PairCount(labels, preds, i, j)
  {
    if !InRange(labels, numClasses) || !InRange(preds, numClasses) then Failure(LabelOutOfRange)
    else Success(seq(numClasses, i requires 0 <= i < numClasses =>
                   seq(numClasses, j requires 0 <= j < numClasses => PairCount(labels, preds, i, j))))
  }

  /** The four counts read from the top-left corner of the matrix. */
  datatype Confusion2 = Confusion2(tn: nat, fp: nat, fn: nat, tp: nat)

  /** A numpy division of counts; a zero denominator gives nan or inf, which
      the model keeps as None. */
  function Ratio(num: nat, den: nat): (r: Option<real>)
    ensures r.Some? <==> den > 0
    ensures r.Some? ==> r.value * den as real == num as real
    ensures r.Some? && num <= den ==> 0.0 <= r.value <= 1.0
  {
    if den == 0 then None else Some(num as real / den as real)
  }

  datatype Metrics = Metrics(
    accuracy: Option<real>,
    sensitivity: Option<real>,
    specificity: Option<real>,
    missRate: Option<real>,
    fallOut: Option<real>,
    precision: Option<real>,
    f1: Option<real>)

  predicate IsRate(o: Option<real>) {
    o.None? || 0.0 <= o.value <= 1.0
  }

  /** Two rates over the same denominator that add up to one. */
  predicate Complementary(a: Option<real>, b: Option<real>) {
    a.Some? && b.Some? && a.value + b.value == 1.0
  }

  lemma ComplementaryRatios(a: nat, b: nat)
    ensures a + b > 0 ==> Complementary(Ratio(a, a + b), Ratio(b, a + b))
  {
    if a + b > 0 {
      var d := (a + b) as real;
      assert a as real / d + b as real / d == (a as real + b as real) / d;
    }
  }

  /** The rates of the evaluation, with the false-positive rate (fall-out)
      taken over the actual negatives, FP / (FP + TN). */
  function MetricsOf(c: Confusion2): (m: Metrics)
    ensures IsRate(m.accuracy) && IsRate(m.sensitivity) && IsRate(m.specificity)
    ensures IsRate(m.missRate) && IsRate(m.fallOut) && IsRate(m.precision) && IsRate(m.f1)
    ensures c.tp + c.fn > 0 ==> Complementary(m.sensitivity, m.missRate)
    ensures c.tn + c.fp > 0 ==> Complementary(m.specificity, m.fallOut)
    ensures m.accuracy.Some? <==> c.tn + c.fp + c.fn + c.tp > 0
  {
    ComplementaryRatios(c.tp, c.fn);
    assert c.fn + c.tp == c.tp + c.fn;
    ComplementaryRatios(c.tn, c.fp);
    assert c.fp + c.tn == c.tn + c.fp;
    Metrics(
      Ratio(c.tp + c.tn, (c.tp + c.fn) + (c.tn + c.fp)),
      Ratio(c.tp, c.tp + c.fn),
      Ratio(c.tn, c.tn + c.fp),
      Ratio(c.fn, c.fn + c.tp),
      Ratio(c.fp, c.fp + c.tn),
      Ratio(c.tp, c.tp + c.fp),
      Ratio(2 * c.tp, 2 * c.tp + c.fp + c.fn))
  }

  /** The fall-out as ASI.py line 247 computes it: false negatives over the
      actual negatives. */
  function FallOutAsWritten(c: Confusion2): (r: Option<real>)
    ensures r.Some? <==> c.fp + c.tn > 0
    ensures r.Some? ==> r.value * (c.fp + c.tn) as real == c.fn as real
  {
    Ratio(c.fn, c.fp + c.tn)
  }

  /** With 8 true positives, 2 false positives, 1 false negative and 9 true
      negatives, the written fall-out is 1/11 where the false-positive rate is
      2/11; it no longer complements the specificity and can even exceed 1. */
  lemma FallOutAsWrittenDiffers()
    ensures FallOutAsWritten(Confusion2(9, 2, 1, 8)) == Some(1.0 / 11.0)
    ensures MetricsOf(Confusion2(9, 2, 1, 8)).fallOut == Some(2.0 / 11.0)
    ensures !Complementary(MetricsOf(Confusion2(9, 2, 1, 8)).specificity, FallOutAsWritten(Confusion2(9, 2, 1, 8)))
    ensures FallOutAsWritten(Confusion2(1, 0, 5, 0)).value > 1.0
  {
    assert MetricsOf(Confusion2(9, 2, 1, 8)).specificity == Some(9.0 / 11.0);
  }

  lemma CancelFactor(x: real, y: real, k: real)
    requires k != 0.0 && x * k == y * k
    ensures x == y
  {
    assert (x - y) * k == 0.0;
  }

  /** f = 2t / (a + b), p = t / a and s = t / b satisfy f (p + s) = 2 p s. */
  lemma HarmonicMeanAlgebra(t: real, a: real, b: real, p: real, s: real, f: real)
    requires a > 0.0 && b > 0.0
    requires p * a == t && s * b == t && f * (a + b) == 2.0 * t
    ensures f * (p + s) == 2.0 * p * s
  {
    var k := a * b * (a + b);
    assert k > 0.0;
    var u := (p + s) * (a * b);
    assert u == (p * a) * b + (s * b) * a;
    assert u == t * (a + b);
    assert f * (p + s) * k == (f * (a + b)) * u;
    assert f * (p + s) * k == 2.0 * t * t * (a + b);
    assert 2.0 * p * s * k == 2.0 * (p * a) * (s * b) * (a + b);
    CancelFactor(f * (p + s), 2.0 * p * s, k);
  }

  /** The ratio 2tp / (2tp + fp + fn) is the harmonic mean of tp / (tp + fp)
      and tp / (tp + fn). */
  lemma HarmonicRatios(tp: nat, fp: nat, fn: nat)
    requires tp > 0
    ensures var p, s, f := Ratio(tp, tp + fp), Ratio(tp, tp + fn), Ratio(2 * tp, 2 * tp + fp + fn);
            && p.Some? && s.Some? && f.Some?
            && f.value * (p.value + s.value) == 2.0 * p.value * s.value
  {
    var p, s, f := Ratio(tp, tp + fp), Ratio(tp, tp + fn), Ratio(2 * tp, 2 * tp + fp + fn);
    var a := (tp + fp) as real;
    var b := (tp + fn) as real;
    assert (2 * tp + fp + fn) as real == a + b;
    assert f.value * (a + b) == 2.0 * tp as real;
    HarmonicMeanAlgebra(tp as real, a, b, p.value, s.value, f.value);
  }

  /** The F1 score is the harmonic mean of precision and sensitivity. */
  lemma F1IsHarmonicMean(c: Confusion2)
    requires c.tp > 0
    ensures var m := MetricsOf(c);
            && m.f1.Some? && m.precision.Some? && m.sensitivity.Some?
            && m.f1.value * (m.precision.value + m.sensitivity.value)
               == 2.0 * m.precision.value * m.sensitivity.value
  {
    HarmonicRatios(c.tp, c.fp, c.fn);
  }

  /** The rates of a small worked case. */
  lemma ExampleMetrics()
    ensures MetricsOf(Confusion2(9, 2, 1, 8)) ==
      Metrics(Some(17.0 / 20.0), Some(8.0 / 9.0), Some(9.0 / 11.0), Some(1.0 / 9.0),
              Some(2.0 / 11.0), Some(8.0 / 10.0), Some(16.0 / 19.0))
  {
  }

  /** What an evaluation reports: the label counts of the loaded set, the
      confusion counts and the rates. */
  datatype Report = Report(numNonSargassum: nat, numSargassum: nat, numMasked: nat,
                           confusion: Confusion2, metrics: Metrics)

  /** test_model on an already loaded array and model. */
  function TestModelSpec(model: Asi.Model, dataset: MLArray, removeMasked: bool, threshold: real): (r: Result<Report>)
    requires WellShaped(dataset)
    ensures LoadMLDataset(dataset).Failure? ==> r == Failure(LoadMLDataset(dataset).error)
    ensures LoadMLDataset(dataset).Success? && model.inputWidth != 9 ==> r == Failure(ModelInputMismatch)
    ensures r.Success? ==> r.value.metrics == MetricsOf(r.value.confusion)
  {
    match LoadMLDataset(dataset)
    case Failure(e) => Failure(e)
    case Success(data) =>
      var y := data.labels;
      var (X, labels, numClasses) :=
        if removeMasked then var d := DropMasked(data.features, y); (d.0, d.1, 2)
        else (data.features, Relabel(y), 3);
      match Asi.Predict(model, 9, X)
      case Failure(e) => Failure(e)
      case Success(scores) =>
        var cls := Classify(scores, threshold);
        match ConfusionMatrix(labels, cls, numClasses)
        case Failure(e) => Failure(e)
        case Success(m) =>
          var c := Confusion2(m[0][0], m[0][1], m[1][0], m[1][1]);
          Success(Report(Count(y, 0), Count(y, 1), Count(y, 2), c, MetricsOf(c)))
  }

  /** A confusion matrix over at most three classes only exists when every
      label was 0, 1 or 2. */
  lemma LabelsAreClasses(y: seq<int>, kept: seq<int>, numClasses: nat)
    requires numClasses <= 3 && InRange(kept, numClasses)
    requires forall v :: v != 0 && v != 2 ==> Count(kept, v) == Count(y, v)
    ensures forall k :: 0 <= k < |y| ==> 0 <= y[k] <= 2
  {
    forall k | 0 <= k < |y|
      ensures 0 <= y[k] <= 2
    {
      if y[k] != 0 && y[k] != 2 {
        CountBound(y, y[k]);
        CountBound(kept, y[k]);
      }
    }
  }

  /** A successful evaluation accounts for every pixel of the test set: the
      sargassum pixels are exactly the positives, the non-sargassum pixels
      (with the masked ones when they are kept) exactly the negatives, and
      only the labels 0, 1 and 2 occur. */
  lemma ReportCounts(model: Asi.Model, dataset: MLArray, removeMasked: bool, threshold: real)
    requires WellShaped(dataset)
    requires TestModelSpec(model, dataset, removeMasked, threshold).Success?
    ensures var rep := TestModelSpec(model, dataset, removeMasked, threshold).value;
            && rep.numNonSargassum + rep.numSargassum + rep.numMasked == |LoadMLDataset(dataset).value.labels|
            && rep.confusion.tp + rep.confusion.fn == rep.numSargassum
            && rep.confusion.tn + rep.confusion.fp
               == rep.numNonSargassum + (if removeMasked then 0 else rep.numMasked)
  {
    var data := LoadMLDataset(dataset).value;
    var y := data.labels;
    var X := if removeMasked then DropMasked(data.features, y).0 else data.features;
    var labels := if removeMasked then DropMasked(data.features, y).1 else Relabel(y);
    var numClasses: nat := if removeMasked then 2 else 3;
    var scores := Asi.Predict(model, 9, X).value;
    var cls := Classify(scores, threshold);
    assert ConfusionMatrix(labels, cls, numClasses).Success?;
    RowSum(labels, cls, 0);
    RowSum(labels, cls, 1);
    if !removeMasked {
      RelabelCounts(y);
    }
    LabelsAreClasses(y, labels, numClasses);
    CountsOfThreeClasses(y);
  }

  /** test_model with its two in-place array steps: relabelling the masked
      pixels when they are kept, and classifying the scores. */
  method TestModel(model: Asi.Model, dataset: MLArray, removeMasked: bool, threshold: real) returns (r: Result<Report>)
    requires WellShaped(dataset)
    ensures r == TestModelSpec(model, dataset, removeMasked, threshold)
  {
    var loaded := LoadMLDataset(dataset);
    if loaded.Failure? {
      return Failure(loaded.error);
    }
    var data := loaded.value;
    var y := data.labels;
    var X: seq<seq<real>>;
    var labels: seq<int>;
    var numClasses: nat;
    if removeMasked {
      var d := DropMasked(data.features, y);
      X, labels, numClasses := d.0, d.1, 2;
    } else {
      var buffer := new int[|y|](k requires 0 <= k < |y| => y[k]);
      assert buffer[..] == y;
      RelabelMasked(buffer);
      X, labels, numClasses := data.features, buffer[..], 3;
    }
    var predicted := Asi.Predict(model, 9, X);
    if predicted.Failure? {
      return Failure(predicted.error);
    }
    var cls := ClassifyPredictions(predicted.value, threshold);
    var matrix := ConfusionMatrix(labels, cls, numClasses);
    if matrix.Failure? {
      return Failure(matrix.error);
    }
    var m := matrix.value;
    var c := Confusion2(m[0][0], m[0][1], m[1][0], m[1][1]);
    r := Success(Report(Count(y, 0), Count(y, 1), Count(y, 2), c, MetricsOf(c)));
  }
}
