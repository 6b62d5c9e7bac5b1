/** The detection pipeline of detect_sargassum.py: read the product name,
    load the index's bands and the scene classification layer (SCL), compute
    the index, optionally threshold it into sargassum / no sargassum, and
    optionally mask every pixel whose SCL class is not one of the kept
    classes (water and thin cirrus by default).  Loading from disk is a
    parameter: the band dictionary and the SCL raster as the Sentinel-2
    loaders return them, None when they found nothing. */
module DetectSargassum {
  import opened Common
  import opened ProductName
  import SargassumIndex
  import Afai
  import Asi

  /** A float32 cell of an index raster: a number, or the NaN used by
      default to mark masked pixels. */
  datatype Sample = Num(v: real) | NaN

  /** The result array: float scores, or the uint8 classes of a thresholded
      index (0 no sargassum, 1 sargassum, 2 masked). */
  datatype Raster = Scores(scores: Grid<Sample>) | Classes(classes: Grid<int>)

  function DTypeName(r: Raster): string {
    if r.Classes? then "uint8" else "float32"
  }

  /** The keyword arguments of detect_sargassum that the model follows. */
  datatype Options = Options(
    applyMask: bool,
    keep: seq<int>,
    maskedValue: Sample,
    threshold: Option<real>,
    saveNpy: bool,
    saveGeotiff: bool,
    saveJp2: bool,
    outdir: Option<string>,
    verbose: bool)

  const Defaults: Options := Options(true, [6, 10], NaN, None, false, false, false, None, true)

  /** The index to compute.  AFAI keeps only its verbose flag; ASI is an
      object, of which the pipeline only reads the model. */
  datatype IndexAlgorithm = AfaiAlgorithm(verbose: bool) | AsiAlgorithm(asi: Asi.AsiIndex)

  /** What the pipeline reads of an index object at the time of the call. */
  datatype IndexValue = AfaiValue(verbose: bool) | AsiValue(model: Option<Asi.Model>)

  function Snapshot(alg: IndexAlgorithm): (v: IndexValue)
    reads if alg.AsiAlgorithm? then {alg.asi} else {}
    ensures alg.AfaiAlgorithm? <==> v.AfaiValue?
  {
    match alg
    case AfaiAlgorithm(verbose) => AfaiValue(verbose)
    case AsiAlgorithm(asi) => AsiValue(asi.model)
  }

  function IndexName(i: IndexValue): string {
    if i.AfaiValue? then Afai.Name else Asi.Name
  }

  function Required(i: IndexValue): (r: seq<string>)
    ensures |r| > 0
  {
    if i.AfaiValue? then Afai.RequiredChannels else Asi.RequiredChannels
  }

  /** index.compute(channels): on success a raster shaped like the first
      required band. */
  function ComputeIndex(i: IndexValue, channels: SargassumIndex.ChannelMap): (r: Result<Grid<real>>)
    ensures r.Success? ==>
              var ch0 := Required(i)[0];
              ch0 in channels && IsGrid(r.value, |channels[ch0]|, Cols(channels[ch0]))
  {
    match i
    case AfaiValue(verbose) => Afai.Compute(channels, verbose)
    case AsiValue(model) => Asi.ComputeSpec(model, channels)
  }

  /** np.where(values >= threshold, 1, 0).astype("uint8"). */
  function Threshold(values: Grid<real>, t: real): (r: Grid<int>)
    requires IsGrid(values, |values|, Cols(values))
    ensures IsGrid(r, |values|, Cols(values))
    ensures forall x, y :: 0 <= x < |values| && 0 <= y < Cols(values) ==>
              (r[x][y] == 1 <==> values[x][y] >= t) && (r[x][y] == 0 <==> values[x][y] < t)
  {
    seq(|values|, x requires 0 <= x < |values| =>
      seq(Cols(values), y requires 0 <= y < Cols(values) => if values[x][y] >= t then 1 else 0))
  }

  /** The index values as float cells. */
  function AsSamples(values: Grid<real>): (r: Grid<Sample>)
    requires IsGrid(values, |values|, Cols(values))
    ensures IsGrid(r, |values|, Cols(values))
    ensures forall x, y :: 0 <= x < |values| && 0 <= y < Cols(values) ==> r[x][y] == Num(values[x][y])
  {
    seq(|values|, x requires 0 <= x < |values| =>
      seq(Cols(values), y requires 0 <= y < Cols(values) => Num(values[x][y])))
  }

  /** np.isin(SCL, keep) at a pixel.  A missing SCL makes np.isin a single
      False, so no pixel is kept. */
  predicate Kept(scl: Option<Grid<int>>, keep: seq<int>, x: nat, y: nat)
    requires scl.Some? ==> x < |scl.value| && y < |scl.value[x]|
  {
    scl.Some? && scl.value[x][y] in keep
  }

  /** The SCL can mask a raster of nx x ny pixels: it is missing, or has
      that shape (numpy's boolean indexing refuses any other). */
  predicate MaskFits(scl: Option<Grid<int>>, nx: nat, ny: nat) {
    scl.None? || IsGrid(scl.value, nx, ny)
  }

  /** result[~SCL_mask] = v: every pixel that is not kept becomes v, the
      others keep their value. */
  function Mask<T>(g: Grid<T>, scl: Option<Grid<int>>, keep: seq<int>, v: T): (r: Grid<T>)
    requires IsGrid(g, |g|, Cols(g)) && MaskFits(scl, |g|, Cols(g))
    ensures IsGrid(r, |g|, Cols(g))
    ensures forall x, y :: 0 <= x < |g| && 0 <= y < Cols(g) ==>
              r[x][y] == (if Kept(scl, keep, x, y) then g[x][y] else v)
  {
    seq(|g|, x requires 0 <= x < |g| =>
      seq(Cols(g), y requires 0 <= y < Cols(g) => if Kept(scl, keep, x, y) then g[x][y] else v))
  }

  /** The contents of a two-dimensional array as a grid. */
  function Contents<T>(a: array2<T>): (g: Grid<T>)
    reads a
    ensures IsGrid(g, a.Length0, a.Length1)
    ensures forall x, y :: 0 <= x < a.Length0 && 0 <= y < a.Length1 ==> g[x][y] == a[x, y]
  {
    seq(a.Length0, x requires 0 <= x < a.Length0 reads a =>
      seq(a.Length1, y requires 0 <= y < a.Length1 reads a => a[x, y]))
  }

  lemma GridExtensionality<T>(g: Grid<T>, h: Grid<T>, nx: nat, ny: nat)
    requires IsGrid(g, nx, ny) && IsGrid(h, nx, ny)
    requires forall x, y :: 0 <= x < nx && 0 <= y < ny ==> g[x][y] == h[x][y]
    ensures g == h
  {
    forall x | 0 <= x < nx
      ensures g[x] == h[x]
    {
      assert forall y :: 0 <= y < ny ==> g[x][y] == h[x][y];
    }
  }

  /** The masking assignment, done in place on the result array. */
  method MaskInPlace<T>(a: array2<T>, scl: Option<Grid<int>>, keep: seq<int>, v: T)
    requires MaskFits(scl, a.Length0, a.Length1)
    modifies a
    ensures Contents(a) == Mask(old(Contents(a)), scl, keep, v)
  {
    ghost var before := Contents(a);
    for x := 0 to a.Length0
      invariant forall i, j :: 0 <= i < x && 0 <= j < a.Length1 ==>
                  a[i, j] == (if Kept(scl, keep, i, j) then before[i][j] else v)
      invariant forall i, j :: x <= i < a.Length0 && 0 <= j < a.Length1 ==> a[i, j] == before[i][j]
    {
      for y := 0 to a.Length1
        invariant forall i, j :: 0 <= i < x && 0 <= j < a.Length1 ==>
                    a[i, j] == (if Kept(scl, keep, i, j) then before[i][j] else v)
        invariant forall j :: 0 <= j < y ==> a[x, j] == (if Kept(scl, keep, x, j) then before[x][j] else v)
        invariant forall i, j :: 0 <= i < a.Length0 && 0 <= j < a.Length1 && (i > x || (i == x && j >= y)) ==>
                    a[i, j] == before[i][j]
      {
        if !Kept(scl, keep, x, y) {
          a[x, y] := v;
        }
      }
    }
    GridExtensionality(Contents(a), Mask(before, scl, keep, v), a.Length0, a.Length1);
  }

  /** The raster after the optional threshold and the optional mask. */
  function Finish(values: Grid<real>, scl: Option<Grid<int>>, opts: Options): (r: Raster)
    requires IsGrid(values, |values|, Cols(values))
    requires opts.applyMask ==> MaskFits(scl, |values|, Cols(values))
  {
    if opts.threshold.Some? then
      var classes := Threshold(values, opts.threshold.value);
      Classes(if opts.applyMask then Mask(classes, scl, opts.keep, 2) else classes)
    else
      var samples := AsSamples(values);
      Scores(if opts.applyMask then Mask(samples, scl, opts.keep, opts.maskedValue) else samples)
  }

  /** The JPEG2000 guard as written at detect_sargassum.py line 156: the
      dtype is compared with the misspelt name "utin8", so no raster passes. */
  predicate Jp2WrittenAsWritten(saveJp2: bool, r: Raster) {
    saveJp2 && DTypeName(r) in ["utin8"]
  }

  lemma Jp2NeverWritten(saveJp2: bool, r: Raster)
    ensures !Jp2WrittenAsWritten(saveJp2, r)
    ensures Jp2WrittenAsWritten(true, Classes([[1]])) != Jp2Written(true, Classes([[1]]))
  {
    assert DTypeName(r) != "utin8";
  }

  /** The intended guard: only an integer (thresholded) raster is saved as JPEG2000. */
  predicate Jp2Written(saveJp2: bool, r: Raster) {
    saveJp2 && DTypeName(r) == "uint8"
  }

  lemma Jp2WrittenIffThresholded(saveJp2: bool, r: Raster)
    ensures Jp2Written(saveJp2, r) <==> saveJp2 && r.Classes?
  {
  }

  /** The candidates whose flag is set, in order. */
  function Selected(wanted: seq<bool>, candidates: seq<string>): (r: seq<string>)
    requires |wanted| == |candidates|
    ensures |r| == Count(wanted, true)
    ensures forall k :: 0 <= k < |r| ==> r[k] in candidates
    ensures forall k :: 0 <= k < |wanted| && wanted[k] ==> candidates[k] in r
    ensures forall x :: x in r ==> exists k :: 0 <= k < |wanted| && wanted[k] && candidates[k] == x
    decreases |wanted|
  {
    if |wanted| == 0 then []
    else
      var n := |wanted| - 1;
      var init := Selected(wanted[..n], candidates[..n]);
      var r := init + (if wanted[n] then [candidates[n]] else []);
      assert wanted[..n] + [wanted[n]] == wanted;
      assert forall x :: x in init ==> exists k :: 0 <= k < n && wanted[k] && candidates[k] == x;
      r
  }

  /** The files written, in the order .npy, GeoTIFF, JPEG2000. */
  function WrittenPaths(datasetPath: string, p: Product, name: string, r: Raster, opts: Options): seq<string> {
    Selected([opts.saveNpy, opts.saveGeotiff, Jp2Written(opts.saveJp2, r)],
             [OutputPath(opts.outdir, datasetPath, p, name, "npy"),
              OutputPath(opts.outdir, datasetPath, p, name, "tif"),
              OutputPath(opts.outdir, datasetPath, p, name, "jp2")])
  }

  /** The result of a run: the raster returned and the paths written. */
  datatype Detection = Detection(result: Raster, written: seq<string>)

  /** Size of the SCL raster, the divisor of the verbose unmasked percentage. */
  function SclSize(scl: Grid<int>): nat {
    |scl| * Cols(scl)
  }

  /** detect_sargassum.  Failures come in the order the code meets them: a
      sensing time strptime rejects, a band loader that found nothing, the
      first required band missing, with verbose output a missing or empty
      SCL, a failing index computation, and an SCL that cannot mask the
      result. */
  function DetectSpec(datasetPath: string, index: IndexValue, loaded: Option<SargassumIndex.ChannelMap>,
                      scl: Option<Grid<int>>, opts: Options): (r: Result<Detection>)
    requires scl.Some? ==> IsGrid(scl.value, |scl.value|, Cols(scl.value))
    ensures ParseProduct(BaseName(datasetPath)).Failure? ==> r == Failure(DateFormatError)
    ensures ParseProduct(BaseName(datasetPath)).Success? && loaded.None? ==> r == Failure(DatasetNotLoaded)
    ensures r.Success? ==>
              && loaded.Some? && Required(index)[0] in loaded.value
              && ComputeIndex(index, loaded.value).Success?
              && (opts.verbose ==> scl.Some? && SclSize(scl.value) > 0)
              && (r.value.result.Classes? <==> opts.threshold.Some?)
  {
    match ParseProduct(BaseName(datasetPath))
    case Failure(e) => Failure(e)
    case Success(product) =>
      if loaded.None? then Failure(DatasetNotLoaded)
      else
        var channels := loaded.value;
        var ch0 := Required(index)[0];
        if ch0 !in channels then Failure(KeyError(ch0))
        else if opts.verbose && scl.None? then Failure(SclNotLoaded)
        else if opts.verbose && SclSize(scl.value) == 0 then Failure(ZeroDivision)
        else
          match ComputeIndex(index, channels)
          case Failure(e) => Failure(e)
          case Success(values) =>
            if opts.applyMask && !MaskFits(scl, |values|, Cols(values)) then Failure(IndexError)
            else
              var raster := Finish(values, scl, opts);
              Success(Detection(raster, WrittenPaths(datasetPath, product, IndexName(index), raster, opts)))
  }

  /** Thresholding then masking: 2 exactly off the kept pixels, elsewhere 1
      exactly where the value reaches the threshold. */
  lemma FinishMaskedClasses(values: Grid<real>, scl: Option<Grid<int>>, opts: Options)
    requires IsGrid(values, |values|, Cols(values)) && MaskFits(scl, |values|, Cols(values))
    requires opts.threshold.Some? && opts.applyMask
    ensures var res := Finish(values, scl, opts);
            && res.Classes? && IsGrid(res.classes, |values|, Cols(values))
            && forall x, y :: 0 <= x < |values| && 0 <= y < Cols(values) ==>
                 && 0 <= res.classes[x][y] <= 2
                 && (res.classes[x][y] == 2 <==> !Kept(scl, opts.keep, x, y))
                 && (Kept(scl, opts.keep, x, y) ==> (res.classes[x][y] == 1 <==> values[x][y] >= opts.threshold.value))
  {
    var classes := Threshold(values, opts.threshold.value);
    assert forall x, y :: 0 <= x < |values| && 0 <= y < Cols(values) ==> 0 <= classes[x][y] <= 1;
  }

  /** A successful run returns Finish applied to the computed index, whose
      shape the SCL fits whenever the mask is applied. */
  lemma DetectResult(datasetPath: string, index: IndexValue, loaded: Option<SargassumIndex.ChannelMap>,
                     scl: Option<Grid<int>>, opts: Options)
    requires scl.Some? ==> IsGrid(scl.value, |scl.value|, Cols(scl.value))
    requires DetectSpec(datasetPath, index, loaded, scl, opts).Success?
    ensures loaded.Some? && ComputeIndex(index, loaded.value).Success?
    ensures var values := ComputeIndex(index, loaded.value).value;
            && IsGrid(values, |values|, Cols(values))
            && (opts.applyMask ==> MaskFits(scl, |values|, Cols(values)))
            && DetectSpec(datasetPath, index, loaded, scl, opts).value.result == Finish(values, scl, opts)
  {
    var values := ComputeIndex(index, loaded.value).value;
    assert IsGrid(values, |values|, Cols(values));
  }

  /** Without threshold and mask the result is the index itself. */
  lemma RawIndex(datasetPath: string, index: IndexValue, loaded: Option<SargassumIndex.ChannelMap>,
                 scl: Option<Grid<int>>, opts: Options)
    requires scl.Some? ==> IsGrid(scl.value, |scl.value|, Cols(scl.value))
    requires opts.threshold.None? && !opts.applyMask
    requires DetectSpec(datasetPath, index, loaded, scl, opts).Success?
    ensures var values := ComputeIndex(index, loaded.value).value;
            var res := DetectSpec(datasetPath, index, loaded, scl, opts).value.result;
            && res.Scores? && IsGrid(res.scores, |values|, Cols(values))
            && forall x, y :: 0 <= x < |values| && 0 <= y < Cols(values) ==> res.scores[x][y] == Num(values[x][y])
  {
    DetectResult(datasetPath, index, loaded, scl, opts);
    var values := ComputeIndex(index, loaded.value).value;
  }

  /** A thresholded, unmasked result is 1 exactly where the index reaches the threshold. */
  lemma ThresholdedIndex(datasetPath: string, index: IndexValue, loaded: Option<SargassumIndex.ChannelMap>,
                         scl: Option<Grid<int>>, opts: Options)
    requires scl.Some? ==> IsGrid(scl.value, |scl.value|, Cols(scl.value))
    requires opts.threshold.Some? && !opts.applyMask
    requires DetectSpec(datasetPath, index, loaded, scl, opts).Success?
    ensures var values := ComputeIndex(index, loaded.value).value;
            var res := DetectSpec(datasetPath, index, loaded, scl, opts).value.result;
            && res.Classes? && IsGrid(res.classes, |values|, Cols(values))
            && forall x, y :: 0 <= x < |values| && 0 <= y < Cols(values) ==>
                 (res.classes[x][y] == 0 || res.classes[x][y] == 1)
                 && (res.classes[x][y] == 1 <==> values[x][y] >= opts.threshold.value)
  {
    DetectResult(datasetPath, index, loaded, scl, opts);
    var values := ComputeIndex(index, loaded.value).value;
  }

  /** A thresholded, masked result is 2 exactly on the pixels whose SCL class
      is not kept, and elsewhere 1 exactly where the index reaches the threshold. */
  lemma MaskedClasses(datasetPath: string, index: IndexValue, loaded: Option<SargassumIndex.ChannelMap>,
                      scl: Option<Grid<int>>, opts: Options)
    requires scl.Some? ==> IsGrid(scl.value, |scl.value|, Cols(scl.value))
    requires opts.threshold.Some? && opts.applyMask
    requires DetectSpec(datasetPath, index, loaded, scl, opts).Success?
    ensures var values := ComputeIndex(index, loaded.value).value;
            var res := DetectSpec(datasetPath, index, loaded, scl, opts).value.result;
            && res.Classes? && IsGrid(res.classes, |values|, Cols(values))
            && MaskFits(scl, |values|, Cols(values))
            && forall x, y :: 0 <= x < |values| && 0 <= y < Cols(values) ==>
                 && 0 <= res.classes[x][y] <= 2
                 && (res.classes[x][y] == 2 <==> !Kept(scl, opts.keep, x, y))
                 && (Kept(scl, opts.keep, x, y) ==> (res.classes[x][y] == 1 <==> values[x][y] >= opts.threshold.value))
  {
    DetectResult(datasetPath, index, loaded, scl, opts);
    FinishMaskedClasses(ComputeIndex(index, loaded.value).value, scl, opts);
  }

  /** A masked, unthresholded result holds the masked value exactly on the
      pixels that are not kept (or there too when the index equals it). */
  lemma MaskedScores(datasetPath: string, index: IndexValue, loaded: Option<SargassumIndex.ChannelMap>,
                     scl: Option<Grid<int>>, opts: Options)
    requires scl.Some? ==> IsGrid(scl.value, |scl.value|, Cols(scl.value))
    requires opts.threshold.None? && opts.applyMask
    requires DetectSpec(datasetPath, index, loaded, scl, opts).Success?
    ensures var values := ComputeIndex(index, loaded.value).value;
            var res := DetectSpec(datasetPath, index, loaded, scl, opts).value.result;
            && res.Scores? && IsGrid(res.scores, |values|, Cols(values))
            && MaskFits(scl, |values|, Cols(values))
            && forall x, y :: 0 <= x < |values| && 0 <= y < Cols(values) ==>
                 res.scores[x][y] == (if Kept(scl, opts.keep, x, y) then Num(values[x][y]) else opts.maskedValue)
  {
    DetectResult(datasetPath, index, loaded, scl, opts);
    var values := ComputeIndex(index, loaded.value).value;
  }

  /** Quiet runs survive a missing SCL, and then mask every pixel. */
  lemma MissingSclMasksEverything(datasetPath: string, index: IndexValue, loaded: Option<SargassumIndex.ChannelMap>,
                                  opts: Options)
    requires !opts.verbose && opts.applyMask && opts.threshold.Some?
    requires DetectSpec(datasetPath, index, loaded, None, opts).Success?
    ensures var res := DetectSpec(datasetPath, index, loaded, None, opts).value.result;
            res.Classes? && forall x, y :: 0 <= x < |res.classes| && 0 <= y < |res.classes[x]| ==> res.classes[x][y] == 2
  {
    DetectResult(datasetPath, index, loaded, None, opts);
  }

  /** With verbose output (the default), a missing SCL stops the run. */
  lemma VerboseNeedsScl(datasetPath: string, index: IndexValue, loaded: Option<SargassumIndex.ChannelMap>, opts: Options)
    requires opts.verbose
    ensures DetectSpec(datasetPath, index, loaded, None, opts).Failure?
  {
  }

  /** Choosing among three candidates: each chosen one appears once, in order. */
  lemma SelectedThree(a: bool, b: bool, c: bool, x: string, y: string, z: string)
    ensures Selected([a, b, c], [x, y, z]) == (if a then [x] else []) + (if b then [y] else []) + (if c then [z] else [])
  {
    var w, cs := [a, b, c], [x, y, z];
    assert [a][..0] == [] && [x][..0] == [];
    assert Selected([a], [x]) == (if a then [x] else []);
    assert [a, b][..1] == [a] && [x, y][..1] == [x];
    assert Selected([a, b], [x, y]) == Selected([a], [x]) + (if b then [y] else []);
    assert w[..2] == [a, b] && cs[..2] == [x, y];
    assert Selected(w, cs) == Selected([a, b], [x, y]) + (if c then [z] else []);
  }

  /** With a first candidate unlike the other two, it is chosen exactly when
      its flag is set, and the count is the number of flags set. */
  lemma SelectedThreeChoice(a: bool, b: bool, c: bool, x: string, y: string, z: string)
    requires x != y && x != z
    ensures var r := Selected([a, b, c], [x, y, z]);
            && |r| == (if a then 1 else 0) + (if b then 1 else 0) + (if c then 1 else 0)
            && (a <==> x in r)
            && (c ==> z in r)
            && forall k :: 0 <= k < |r| ==> r[k] in [x, y, z]
  {
    SelectedThree(a, b, c, x, y, z);
  }

  /** One file per format asked for, each named after the product and the
      index; the .npy file exactly when asked for. */
  lemma WrittenPathsChoice(datasetPath: string, p: Product, name: string, r: Raster, opts: Options)
    ensures var written := WrittenPaths(datasetPath, p, name, r, opts);
            && |written| == (if opts.saveNpy then 1 else 0) + (if opts.saveGeotiff then 1 else 0)
                            + (if opts.saveJp2 && r.Classes? then 1 else 0)
            && (opts.saveNpy <==> OutputPath(opts.outdir, datasetPath, p, name, "npy") in written)
            && (opts.saveJp2 && r.Classes? ==> OutputPath(opts.outdir, datasetPath, p, name, "jp2") in written)
            && forall k :: 0 <= k < |written| ==>
                 written[k] in [OutputPath(opts.outdir, datasetPath, p, name, "npy"),
                                OutputPath(opts.outdir, datasetPath, p, name, "tif"),
                                OutputPath(opts.outdir, datasetPath, p, name, "jp2")]
  {
    Jp2WrittenIffThresholded(opts.saveJp2, r);
    var npy := OutputPath(opts.outdir, datasetPath, p, name, "npy");
    var tif := OutputPath(opts.outdir, datasetPath, p, name, "tif");
    var jp2 := OutputPath(opts.outdir, datasetPath, p, name, "jp2");
    OutputExtensionsDiffer(opts.outdir, datasetPath, p, name, "npy", "tif");
    OutputExtensionsDiffer(opts.outdir, datasetPath, p, name, "npy", "jp2");
    SelectedThreeChoice(opts.saveNpy, opts.saveGeotiff, Jp2Written(opts.saveJp2, r), npy, tif, jp2);
  }

  /** The files the code as written saves: the .npy and GeoTIFF files asked
      for and never a JPEG2000 file, so WrittenPaths with its JPEG2000 entry
      removed. */
  lemma WrittenPathsAsWritten(datasetPath: string, p: Product, name: string, r: Raster, opts: Options)
    ensures var npy := OutputPath(opts.outdir, datasetPath, p, name, "npy");
            var tif := OutputPath(opts.outdir, datasetPath, p, name, "tif");
            var jp2 := OutputPath(opts.outdir, datasetPath, p, name, "jp2");
            var asWritten := Selected([opts.saveNpy, opts.saveGeotiff, Jp2WrittenAsWritten(opts.saveJp2, r)], [npy, tif, jp2]);
            && asWritten == (if opts.saveNpy then [npy] else []) + (if opts.saveGeotiff then [tif] else [])
            && WrittenPaths(datasetPath, p, name, r, opts) == asWritten + (if opts.saveJp2 && r.Classes? then [jp2] else [])
  {
    var npy := OutputPath(opts.outdir, datasetPath, p, name, "npy");
    var tif := OutputPath(opts.outdir, datasetPath, p, name, "tif");
    var jp2 := OutputPath(opts.outdir, datasetPath, p, name, "jp2");
    Jp2NeverWritten(opts.saveJp2, r);
    Jp2WrittenIffThresholded(opts.saveJp2, r);
    SelectedThree(opts.saveNpy, opts.saveGeotiff, Jp2WrittenAsWritten(opts.saveJp2, r), npy, tif, jp2);
    SelectedThree(opts.saveNpy, opts.saveGeotiff, Jp2Written(opts.saveJp2, r), npy, tif, jp2);
  }

  /** A run writes one file per format asked for, JPEG2000 only for a
      thresholded result. */
  lemma WrittenFiles(datasetPath: string, index: IndexValue, loaded: Option<SargassumIndex.ChannelMap>,
                     scl: Option<Grid<int>>, opts: Options)
    requires scl.Some? ==> IsGrid(scl.value, |scl.value|, Cols(scl.value))
    requires DetectSpec(datasetPath, index, loaded, scl, opts).Success?
    ensures var det := DetectSpec(datasetPath, index, loaded, scl, opts).value;
            && det.written == WrittenPaths(datasetPath, ParseProduct(BaseName(datasetPath)).value, IndexName(index), det.result, opts)
            && |det.written| == (if opts.saveNpy then 1 else 0) + (if opts.saveGeotiff then 1 else 0)
                                 + (if opts.saveJp2 && opts.threshold.Some? then 1 else 0)
  {
    var det := DetectSpec(datasetPath, index, loaded, scl, opts).value;
    WrittenPathsChoice(datasetPath, ParseProduct(BaseName(datasetPath)).value, IndexName(index), det.result, opts);
  }

  method NewArray<T>(g: Grid<T>, nx: nat, ny: nat) returns (a: array2<T>)
    requires IsGrid(g, nx, ny)
    ensures fresh(a) && a.Length0 == nx && a.Length1 == ny && Contents(a) == g
  {
    a := new T[nx, ny]((x, y) requires 0 <= x < nx && 0 <= y < ny => g[x][y]);
    GridExtensionality(Contents(a), g, nx, ny);
  }

  /** The threshold and the mask of detect_sargassum, done on a result
      array: the mask is assigned in place. */
  method FinishInPlace(values: Grid<real>, scl: Option<Grid<int>>, opts: Options) returns (raster: Raster)
    requires IsGrid(values, |values|, Cols(values))
    requires opts.applyMask ==> MaskFits(scl, |values|, Cols(values))
    ensures raster == Finish(values, scl, opts)
  {
    var nx, ny := |values|, Cols(values);
    if opts.threshold.Some? {
      var a := NewArray(Threshold(values, opts.threshold.value), nx, ny);
      if opts.applyMask {
        MaskInPlace(a, scl, opts.keep, 2);
      }
      raster := Classes(Contents(a));
    } else {
      var a := NewArray(AsSamples(values), nx, ny);
      if opts.applyMask {
        MaskInPlace(a, scl, opts.keep, opts.maskedValue);
      }
      raster := Scores(Contents(a));
    }
  }

  /** detect_sargassum with the index object: ASI's compute updates nothing
      but its batch size (called without one here), and the mask is applied
      in place on the result array. */
  method Detect(datasetPath: string, alg: IndexAlgorithm, loaded: Option<SargassumIndex.ChannelMap>,
                scl: Option<Grid<int>>, opts: Options) returns (r: Result<Detection>)
    requires scl.Some? ==> IsGrid(scl.value, |scl.value|, Cols(scl.value))
    modifies if alg.AsiAlgorithm? then {alg.asi} else {}
    ensures r == DetectSpec(datasetPath, Snapshot(alg), loaded, scl, opts)
    ensures alg.AsiAlgorithm? ==> unchanged(alg.asi)
  {
    var index := Snapshot(alg);
    var product := ParseProduct(BaseName(datasetPath));
    if product.Failure? {
      return Failure(product.error);
    }
    if loaded.None? {
      return Failure(DatasetNotLoaded);
    }
    var channels := loaded.value;
    var ch0 := Required(index)[0];
    if ch0 !in channels {
      return Failure(KeyError(ch0));
    }
    if opts.verbose && scl.None? {
      return Failure(SclNotLoaded);
    }
    if opts.verbose && SclSize(scl.value) == 0 {
      return Failure(ZeroDivision);
    }
    var computed: Result<Grid<real>>;
    match alg {
      case AfaiAlgorithm(verbose) =>
        computed := Afai.Compute(channels, verbose);
      case AsiAlgorithm(asi) =>
        computed := asi.Compute(channels, None);
    }
    assert computed == ComputeIndex(index, channels);
    if computed.Failure? {
      return Failure(computed.error);
    }
    var values := computed.value;
    var nx, ny := |values|, Cols(values);
    if opts.applyMask && !MaskFits(scl, nx, ny) {
      return Failure(IndexError);
    }
    var raster := FinishInPlace(values, scl, opts);
    r := Success(Detection(raster, WrittenPaths(datasetPath, product.value, IndexName(index), raster, opts)));
  }
}
