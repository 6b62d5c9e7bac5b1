/** The ASI index (ASI.py, ASI_Index.compute): every pixel's nine band values
    become one row of a feature matrix, a trained network scores each row,
    and the scores are reshaped back into the image.  The network itself is
    outside the model: it is a Model value giving the width of the rows it
    accepts and its score for one row.  ASI_Index does not inherit from the
    base class; it provides the same members by name. */
module Asi {
  import opened Common
  import opened SargassumIndex

  const Name: string := "ASI"

  /** The bands of a feature row, in column order; the trained network depends on this order. */
  const RequiredChannels: seq<string> := ["B02", "B03", "B04", "B05", "B06", "B07", "B8A", "B11", "B12"]

  /** The same channels as a set. */
  const RequiredSet: set<string> := {"B02", "B03", "B04", "B05", "B06", "B07", "B8A", "B11", "B12"}

  lemma RequiredSetMatches()
    ensures |RequiredSet| == |RequiredChannels|
    ensures forall k :: 0 <= k < |RequiredChannels| ==> RequiredChannels[k] in RequiredSet
    ensures forall c :: c in RequiredSet ==> c in RequiredChannels
  {
  }

  function Declared(): (d: Descriptor)
    ensures Overrides(d) && |d.requiredChannels.value| == 9
  {
    Descriptor(Some(Name), Some(RequiredChannels))
  }

  /** A trained network as the code sees it: the number of features per row
      it accepts, and its score for one row. */
  datatype Model = Model(inputWidth: nat, score: seq<real> -> real)

  /** model.predict on a matrix of the given width: one score per row, in
      row order; the batch size does not enter.  A width other than the
      network's input width is rejected. */
  function Predict(m: Model, width: nat, rows: seq<seq<real>>): (r: Result<seq<real>>)
    ensures r.Success? <==> width == m.inputWidth
    ensures r.Failure? ==> r.error == ModelInputMismatch
    ensures r.Success? ==> |r.value| == |rows|
  {
    if width != m.inputWidth then Failure(ModelInputMismatch)
    else Success(seq(|rows|, p requires 0 <= p < |rows| => m.score(rows[p])))
  }

  /** The flattened raster of required channel i, if there is one. */
  function Column(channels: ChannelMap, i: nat): seq<real> {
    if i < |RequiredChannels| && RequiredChannels[i] in channels
    then Ravel(channels[RequiredChannels[i]]) else []
  }

  /** What goes wrong when filling column i of an ntot-row matrix:
      required_channels has only nine entries, the channel may be missing,
      and its raster may not reshape to ntot cells. */
  function ColumnError(channels: ChannelMap, ntot: nat, i: nat): Option<Error> {
    if i >= |RequiredChannels| then Some(IndexError)
    else if RequiredChannels[i] !in channels then Some(KeyError(RequiredChannels[i]))
    else if |Ravel(channels[RequiredChannels[i]])| != ntot then Some(ReshapeError)
    else None
  }

  /** The error of the first failing column among i .. n-1, if any. */
  function FirstColumnError(channels: ChannelMap, ntot: nat, i: nat, n: nat): (e: Option<Error>)
    requires i <= n
    decreases n - i
    ensures e.None? <==> forall k :: i <= k < n ==> ColumnError(channels, ntot, k).None?
  {
    if i == n then None
    else if ColumnError(channels, ntot, i).Some? then ColumnError(channels, ntot, i)
    else FirstColumnError(channels, ntot, i + 1, n)
  }

  /** When columns i .. k-1 are fine and column k fails, column k's error is the one reported. */
  lemma {:induction false} FirstColumnErrorAt(channels: ChannelMap, ntot: nat, i: nat, k: nat, n: nat)
    requires i <= k < n
    requires forall j :: i <= j < k ==> ColumnError(channels, ntot, j).None?
    requires ColumnError(channels, ntot, k).Some?
    ensures FirstColumnError(channels, ntot, i, n) == ColumnError(channels, ntot, k)
    decreases k - i
  {
    if i < k {
      FirstColumnErrorAt(channels, ntot, i + 1, k, n);
    }
  }

  lemma ColumnsFit(channels: ChannelMap, ntot: nat, nch: nat)
    requires FirstColumnError(channels, ntot, 0, nch).None?
    ensures forall i :: 0 <= i < nch ==> |Column(channels, i)| == ntot
  {
    forall i | 0 <= i < nch
      ensures |Column(channels, i)| == ntot
    {
      assert ColumnError(channels, ntot, i).None?;
    }
  }

  /** The ntot x nch feature matrix: column i is required channel i flattened row-major. */
  function FeatureMatrix(channels: ChannelMap, nch: nat, ntot: nat): (r: Result<seq<seq<real>>>)
    ensures r.Success? <==> FirstColumnError(channels, ntot, 0, nch).None?
    ensures r.Failure? ==> r.error == FirstColumnError(channels, ntot, 0, nch).value
    ensures r.Success? ==> |r.value| == ntot && forall p :: 0 <= p < ntot ==> |r.value[p]| == nch
  {
    match FirstColumnError(channels, ntot, 0, nch)
    case Some(e) => Failure(e)
    case None =>
      ColumnsFit(channels, ntot, nch);
      Success(seq(ntot, p requires 0 <= p < ntot =>
                seq(nch, i requires 0 <= i < nch => Column(channels, i)[p])))
  }

  /** ASI_Index.compute, as a value: the first required channel fixes the
      image shape (nx, ny); as many columns are filled as the dictionary has
      entries; an unloaded model fails; the scores are reshaped to (nx, ny). */
  function ComputeSpec(model: Option<Model>, channels: ChannelMap): (r: Result<Grid<real>>)
    ensures RequiredChannels[0] !in channels ==> r == Failure(KeyError("B02"))
    ensures model.None? ==> r.Failure?
    ensures r.Success? ==> IsGrid(r.value, |channels["B02"]|, Cols(channels["B02"]))
  {
    if RequiredChannels[0] !in channels then Failure(KeyError(RequiredChannels[0]))
    else
      var ch0 := channels[RequiredChannels[0]];
      var nx, ny := |ch0|, Cols(ch0);
      match FeatureMatrix(channels, |channels|, nx * ny)
      case Failure(e) => Failure(e)
      case Success(data) =>
        if model.None? then Failure(ModelNotLoaded)
        else
          match Predict(model.value, |channels|, data)
          case Failure(e) => Failure(e)
          case Success(scores) =>
            ReshapeIsGrid(scores, nx, ny);
            Success(Reshape(scores, nx, ny))
  }

  /** An ASI index object: the loaded network (None until one is loaded),
      the path it came from, and the batch size handed to predict. */
  class AsiIndex {
    var modelPath: Option<string>
    var model: Option<Model>
    var batchSize: Option<nat>

    /** ASI_Index.__init__: starts with no model and loads one when a path
        is given; the file loader is the parameter load. */
    constructor (modelPath: Option<string>, batchSize: Option<nat>, load: string -> Model)
      ensures this.modelPath == modelPath && this.batchSize == batchSize
      ensures this.model == (if modelPath.Some? then Some(load(modelPath.value)) else None)
    {
      this.modelPath := None;
      this.model := None;
      this.batchSize := batchSize;
      new;
      if modelPath.Some? {
        LoadModel(modelPath.value, load(modelPath.value));
      }
    }

    /** ASI_Index.load_model: remembers the path and the network read from it. */
    method LoadModel(path: string, loaded: Model)
      modifies this`modelPath, this`model
      ensures modelPath == Some(path) && model == Some(loaded)
    {
      modelPath := Some(path);
      model := Some(loaded);
    }

    /** ASI_Index.compute: a given batch size replaces the stored one (even
        when the computation then fails); the feature matrix is filled column
        by column in a fresh buffer; the result is ComputeSpec's, whatever
        the batch size. */
    method Compute(channels: ChannelMap, batchSize: Option<nat>) returns (r: Result<Grid<real>>)
      modifies this`batchSize
      ensures this.batchSize == (if batchSize.Some? then batchSize else old(this.batchSize))
      ensures r == ComputeSpec(model, channels)
    {
      if batchSize.Some? {
        this.batchSize := batchSize;
      }
      if RequiredChannels[0] !in channels {
        return Failure(KeyError(RequiredChannels[0]));
      }
      var ch0 := channels[RequiredChannels[0]];
      var nx, ny := |ch0|, Cols(ch0);
      var ntot := nx * ny;
      var nch := |channels|;
      var data, err := FillColumns(channels, ntot, nch);
      if err.Some? {
        return Failure(err.value);
      }
      ghost var matrix := FeatureMatrix(channels, nch, ntot).value;
      if model.None? {
        return Failure(ModelNotLoaded);
      }
      var m := model.value;
      if m.inputWidth != nch {
        return Failure(ModelInputMismatch);
      }
      var scores := ScoreRows(m, data, matrix);
      r := Success(Reshape(scores, nx, ny));
    }
  }

  /** The column-filling loop of ASI_Index.compute: a fresh ntot x nch
      buffer whose column i is required channel i flattened, or the error of
      the first column that cannot be filled. */
  method FillColumns(channels: ChannelMap, ntot: nat, nch: nat) returns (data: array2<real>, err: Option<Error>)
    ensures fresh(data) && data.Length0 == ntot && data.Length1 == nch
    ensures err == FirstColumnError(channels, ntot, 0, nch)
    ensures err.None? ==> forall p, k :: 0 <= p < ntot && 0 <= k < nch ==>
              data[p, k] == FeatureMatrix(channels, nch, ntot).value[p][k]
  {
    data := new real[ntot, nch];
    var i := 0;
    while i < nch
      modifies data
      invariant 0 <= i <= nch
      invariant forall k :: 0 <= k < i ==> ColumnError(channels, ntot, k).None?
      invariant forall k :: 0 <= k < i ==> |Column(channels, k)| == ntot
      invariant forall p, k :: 0 <= p < ntot && 0 <= k < i ==> data[p, k] == Column(channels, k)[p]
    {
      var e := ColumnError(channels, ntot, i);
      if e.Some? {
        FirstColumnErrorAt(channels, ntot, 0, i, nch);
        return data, e;
      }
      CopyColumn(data, i, Column(channels, i));
      i := i + 1;
    }
    err := None;
    forall p, k | 0 <= p < ntot && 0 <= k < nch
      ensures data[p, k] == FeatureMatrix(channels, nch, ntot).value[p][k]
    {
      FeatureMatrixAt(channels, nch, ntot, p, k);
    }
  }

  /** Writes column into column i of data, leaving the other columns alone. */
  method CopyColumn(data: array2<real>, i: nat, column: seq<real>)
    requires i < data.Length1 && |column| == data.Length0
    modifies data
    ensures forall q, k :: 0 <= q < data.Length0 && 0 <= k < data.Length1 ==>
              data[q, k] == if k == i then column[q] else old(data[q, k])
  {
    var p := 0;
    while p < data.Length0
      invariant 0 <= p <= data.Length0
      invariant forall q, k :: 0 <= q < data.Length0 && 0 <= k < data.Length1 ==>
                  data[q, k] == if k == i && q < p then column[q] else old(data[q, k])
    {
      data[p, i] := column[p];
      p := p + 1;
    }
  }

  /** Cell (p, k) of a well-formed feature matrix is cell p of column k. */
  lemma FeatureMatrixAt(channels: ChannelMap, nch: nat, ntot: nat, p: nat, k: nat)
    requires FirstColumnError(channels, ntot, 0, nch).None?
    requires p < ntot && k < nch
    ensures |Column(channels, k)| == ntot
    ensures FeatureMatrix(channels, nch, ntot).value[p][k] == Column(channels, k)[p]
  {
    ColumnsFit(channels, ntot, nch);
  }

  /** The prediction loop: one score per row of the buffer, read back as a
      row of the feature matrix it holds. */
  method ScoreRows(m: Model, data: array2<real>, ghost matrix: seq<seq<real>>) returns (scores: seq<real>)
    requires data.Length1 == m.inputWidth && |matrix| == data.Length0
    requires forall p :: 0 <= p < |matrix| ==> |matrix[p]| == data.Length1
    requires forall p, k :: 0 <= p < data.Length0 && 0 <= k < data.Length1 ==> data[p, k] == matrix[p][k]
    ensures Predict(m, data.Length1, matrix) == Success(scores)
  {
    scores := [];
    var p := 0;
    while p < data.Length0
      invariant 0 <= p <= data.Length0
      invariant |scores| == p
      invariant forall q :: 0 <= q < p ==> scores[q] == m.score(matrix[q])
    {
      var row := seq(data.Length1, k requires 0 <= k < data.Length1 reads data => data[p, k]);
      assert row == matrix[p];
      scores := scores + [m.score(row)];
      p := p + 1;
    }
    assert scores == Predict(m, data.Length1, matrix).value;
  }

  /** The nine band values of pixel (x, y), in required-channel order. */
  function PixelFeatures(channels: ChannelMap, x: nat, y: nat): seq<real>
    requires forall k :: 0 <= k < |RequiredChannels| ==>
               RequiredChannels[k] in channels && x < |channels[RequiredChannels[k]]|
               && y < |channels[RequiredChannels[k]][x]|
  {
    seq(|RequiredChannels|, k requires 0 <= k < |RequiredChannels| => channels[RequiredChannels[k]][x][y])
  }

  /** All nine required channels are present as rasters of shape (nx, ny). */
  predicate AllBandsShaped(channels: ChannelMap, nx: nat, ny: nat) {
    forall k :: 0 <= k < |RequiredChannels| ==>
      RequiredChannels[k] in channels && IsGrid(channels[RequiredChannels[k]], nx, ny)
  }

  /** Pixel correspondence: row x * ny + y of the feature matrix holds pixel
      (x, y)'s bands in required-channel order, so cell (x, y) of the result
      is the network's score of exactly that pixel. */
  lemma ComputeAtPixel(m: Model, channels: ChannelMap, nx: nat, ny: nat, x: nat, y: nat)
    requires AllBandsShaped(channels, nx, ny) && |channels| == 9 && m.inputWidth == 9
    requires x < nx && y < ny
    ensures ComputeSpec(Some(m), channels).Success?
    ensures IsGrid(ComputeSpec(Some(m), channels).value, nx, ny)
    ensures ComputeSpec(Some(m), channels).value[x][y] == m.score(PixelFeatures(channels, x, y))
  {
    var ntot := nx * ny;
    assert RequiredChannels[0] in channels && IsGrid(channels[RequiredChannels[0]], nx, ny);
    forall k | 0 <= k < 9
      ensures ColumnError(channels, ntot, k).None?
    {
      RavelLength(channels[RequiredChannels[k]], nx, ny);
    }
    var matrix := FeatureMatrix(channels, 9, ntot).value;
    RavelAt(channels[RequiredChannels[0]], nx, ny, x, y);
    var p := x * ny + y;
    forall k | 0 <= k < 9
      ensures matrix[p][k] == PixelFeatures(channels, x, y)[k]
    {
      RavelAt(channels[RequiredChannels[k]], nx, ny, x, y);
    }
    assert matrix[p] == PixelFeatures(channels, x, y);
    var scores := Predict(m, 9, matrix).value;
    ReshapeAt(scores, nx, ny, x, y);
  }

  /** With a scorer that returns the same value c for every row, every cell
      of the result is c; nothing depends on the batch size. */
  lemma ConstantScorer(w: nat, c: real, channels: ChannelMap)
    requires ComputeSpec(Some(Model(w, _ => c)), channels).Success?
    ensures var out := ComputeSpec(Some(Model(w, _ => c)), channels).value;
            forall x, y :: 0 <= x < |out| && 0 <= y < |out[x]| ==> out[x][y] == c
  {
    var ch0 := channels["B02"];
    var nx, ny := |ch0|, Cols(ch0);
    var m := Model(w, _ => c);
    var data := FeatureMatrix(channels, |channels|, nx * ny).value;
    var scores := Predict(m, |channels|, data).value;
    var out := ComputeSpec(Some(m), channels).value;
    forall x, y | 0 <= x < |out| && 0 <= y < |out[x]|
      ensures out[x][y] == c
    {
      ReshapeAt(scores, nx, ny, x, y);
    }
  }

  /** The loop over dictionary entries reads required_channels[i] for every
      entry, so a dictionary with more than nine entries always fails. */
  lemma ExtraEntriesFail(model: Option<Model>, channels: ChannelMap)
    requires |channels| > |RequiredChannels|
    ensures ComputeSpec(model, channels).Failure?
  {
    if RequiredChannels[0] in channels {
      var ch0 := channels[RequiredChannels[0]];
      assert ColumnError(channels, |ch0| * Cols(ch0), 9).Some?;
    }
  }

  /** A subset is no larger than its superset. */
  lemma {:induction false} SubsetSize<T>(a: set<T>, b: set<T>)
    requires a <= b
    ensures |a| <= |b|
    decreases a
  {
    if a != {} {
      var z :| z in a;
      SubsetSize(a - {z}, b - {z});
    }
  }

  /** A finite set contained in another of the same size is that set. */
  lemma SubsetOfSameSize<T>(a: set<T>, b: set<T>)
    requires a <= b && |a| == |b|
    ensures a == b
  {
    if a != b {
      var z :| z in b && z !in a;
      SubsetSize(a, b - {z});
    }
  }

  /** Every required channel reshapes to the size of the first one. */
  predicate SizesAgree(channels: ChannelMap)
    requires RequiredSet <= channels.Keys
  {
    RequiredSetMatches();
    var ch0 := channels["B02"];
    forall k :: 0 <= k < |RequiredChannels| ==> |Ravel(channels[RequiredChannels[k]])| == |ch0| * Cols(ch0)
  }

  lemma SuccessNeedsExactChannels(m: Model, channels: ChannelMap)
    requires m.inputWidth == 9 && ComputeSpec(Some(m), channels).Success?
    ensures channels.Keys == RequiredSet && SizesAgree(channels)
  {
    RequiredSetMatches();
    var ch0 := channels["B02"];
    var ntot := |ch0| * Cols(ch0);
    var fm := FeatureMatrix(channels, |channels|, ntot);
    assert fm.Success?;
    assert Predict(m, |channels|, fm.value).Success?;
    assert |channels| == 9;
    forall k | 0 <= k < 9
      ensures RequiredChannels[k] in channels && |Ravel(channels[RequiredChannels[k]])| == ntot
    {
      assert ColumnError(channels, ntot, k).None?;
    }
    assert RequiredSet <= channels.Keys;
    assert |channels.Keys| == 9;
    SubsetOfSameSize(RequiredSet, channels.Keys);
  }

  lemma ExactChannelsSucceed(m: Model, channels: ChannelMap)
    requires m.inputWidth == 9 && channels.Keys == RequiredSet && SizesAgree(channels)
    ensures ComputeSpec(Some(m), channels).Success?
  {
    RequiredSetMatches();
    assert |channels| == |channels.Keys| == 9;
    var ch0 := channels["B02"];
    var ntot := |ch0| * Cols(ch0);
    forall k | 0 <= k < 9
      ensures ColumnError(channels, ntot, k).None?
    {
      assert RequiredChannels[k] in RequiredSet;
    }
    assert FirstColumnError(channels, ntot, 0, 9).None?;
  }

  /** For the nine-feature network: compute succeeds exactly when the
      dictionary holds the nine required channels and nothing else, and each
      of them reshapes to the first channel's size. */
  lemma ComputeSucceedsIff(m: Model, channels: ChannelMap)
    requires m.inputWidth == 9
    ensures ComputeSpec(Some(m), channels).Success? <==>
              channels.Keys == RequiredSet && SizesAgree(channels)
  {
    if ComputeSpec(Some(m), channels).Success? {
      SuccessNeedsExactChannels(m, channels);
    }
    if channels.Keys == RequiredSet && SizesAgree(channels) {
      ExactChannelsSucceed(m, channels);
    }
  }

  /** Missing any required channel makes compute fail for the nine-feature network. */
  lemma MissingChannelFails(m: Model, channels: ChannelMap, k: nat)
    requires m.inputWidth == 9 && k < 9 && RequiredChannels[k] !in channels
    ensures ComputeSpec(Some(m), channels).Failure?
  {
    ComputeSucceedsIff(m, channels);
    RequiredSetMatches();
  }
}
