/** ASI's reading of a training or test array (ASI.py lines 54-76).  A stored
    array is either a table with one row per pixel (two coordinates, the nine
    bands, the label) or a cube of pixels holding the nine bands and the
    label.  Loading splits it into a feature matrix of nine band values per
    pixel and a vector of integer labels. */
module AsiDataset {
  import opened Common
  import Asi

  /** An array as loaded from disk, by rank. */
  datatype MLArray =
    | Table(ncols: nat, rows: seq<seq<real>>)        // rank 2: one row of ncols values per pixel
    | Cube(depth: nat, cells: Grid<seq<real>>)       // rank 3: NX x NY pixels of depth values
    | OtherRank(ndim: nat)                           // any other rank

  /** A numpy array is rectangular: the shape fields describe every element. */
  predicate WellShaped(a: MLArray) {
    match a
    case Table(c, rows) => forall k :: 0 <= k < |rows| ==> |rows[k]| == c
    case Cube(d, cells) =>
      && IsGrid(cells, |cells|, Cols(cells))
      && forall x, y :: 0 <= x < |cells| && 0 <= y < |cells[x]| ==> |cells[x][y]| == d
    case OtherRank(n) => n != 2 && n != 3
  }

  const TableNames: seq<string> :=
    ["coordX", "coordY", "B02", "B03", "B04", "B05", "B06", "B07", "B8A", "B11", "B12", "sargassum"]

  const CubeNames: seq<string> :=
    ["B02", "B03", "B04", "B05", "B06", "B07", "B8A", "B11", "B12", "sargassum"]

  /** The column names of both layouts put the nine ASI bands, in ASI's own
      order, exactly where the features are read from, and the label last. */
  lemma NamesMatchBands()
    ensures TableNames[2..11] == Asi.RequiredChannels && TableNames[11] == "sargassum"
    ensures CubeNames[0..9] == Asi.RequiredChannels && CubeNames[9] == "sargassum"
  {
  }

  /** The loaded data: column names, nine features per pixel, one label per pixel. */
  datatype MLData = MLData(names: seq<string>, features: seq<seq<real>>, labels: seq<int>)

  /** numpy's astype(int) on a float: truncation toward zero. */
  function Trunc(v: real): (r: int)
    ensures v >= 0.0 ==> r as real <= v < r as real + 1.0
    ensures v < 0.0 ==> r as real - 1.0 < v <= r as real
  {
    if v >= 0.0 then v.Floor else -((-v).Floor)
  }

  /** Labels stored as whole floats are read back unchanged. */
  lemma TruncOfInteger(k: int)
    ensures Trunc(k as real) == k
  {
  }

  /** Every pixel of a well-shaped cube, flattened row-major, has depth values. */
  lemma {:induction false} PixelsHaveDepth(cells: Grid<seq<real>>, d: nat)
    requires forall x, y :: 0 <= x < |cells| && 0 <= y < |cells[x]| ==> |cells[x][y]| == d
    ensures forall k :: 0 <= k < |Ravel(cells)| ==> |Ravel(cells)[k]| == d
    decreases |cells|
  {
    if |cells| > 0 {
      PixelsHaveDepth(cells[1..], d);
      forall k | 0 <= k < |Ravel(cells)|
        ensures |Ravel(cells)[k]| == d
      {
        if k >= |cells[0]| {
          assert Ravel(cells)[k] == Ravel(cells[1..])[k - |cells[0]|];
        }
      }
    }
  }

  /** load_ML_dataset.  A table needs a twelfth column for the label and a
      cube a tenth layer (indexing past the last column raises IndexError,
      while the feature slice is clamped); any other rank fails. */
  function LoadMLDataset(a: MLArray): (r: Result<MLData>)
    requires WellShaped(a)
    ensures a.OtherRank? ==> r == Failure(UnsupportedRank)
    ensures a.Table? ==> (r.Success? <==> a.ncols >= 12)
    ensures a.Cube? ==> (r.Success? <==> a.depth >= 10)
    ensures r.Failure? && !a.OtherRank? ==> r.error == IndexError
    ensures r.Success? ==> |r.value.features| == |r.value.labels|
    ensures r.Success? ==> forall k :: 0 <= k < |r.value.features| ==> |r.value.features[k]| == 9
    ensures r.Success? && a.Table? ==>
      && r.value.names == TableNames
      && |r.value.labels| == |a.rows|
      && forall k :: 0 <= k < |a.rows| ==>
           r.value.features[k] == a.rows[k][2..11] && r.value.labels[k] == Trunc(a.rows[k][11])
    ensures r.Success? && a.Cube? ==>
      && r.value.names == CubeNames
      && |r.value.labels| == |Ravel(a.cells)|
      && (forall k :: 0 <= k < |Ravel(a.cells)| ==> |Ravel(a.cells)[k]| == a.depth)
      && forall k :: 0 <= k < |Ravel(a.cells)| ==>
           r.value.features[k] == Ravel(a.cells)[k][0..9] && r.value.labels[k] == Trunc(Ravel(a.cells)[k][9])
  {
    match a
    case OtherRank(_) => Failure(UnsupportedRank)
    case Table(c, rows) =>
      if c < 12 then Failure(IndexError)
      else Success(MLData(TableNames,
                          seq(|rows|, k requires 0 <= k < |rows| => rows[k][2..11]),
                          seq(|rows|, k requires 0 <= k < |rows| => Trunc(rows[k][11]))))
    case Cube(d, cells) =>
      var pixels := Ravel(cells);
      PixelsHaveDepth(cells, d);
      if d < 10 then Failure(IndexError)
      else Success(MLData(CubeNames,
                          seq(|pixels|, k requires 0 <= k < |pixels| => pixels[k][0..9]),
                          seq(|pixels|, k requires 0 <= k < |pixels| => Trunc(pixels[k][9]))))
  }

  /** In a cube, pixel (x, y) becomes sample x * NY + y, with its first nine
      layers as features and its tenth as label. */
  lemma CubeSample(d: nat, cells: Grid<seq<real>>, x: nat, y: nat)
    requires WellShaped(Cube(d, cells)) && d >= 10
    requires x < |cells| && y < Cols(cells)
    ensures LoadMLDataset(Cube(d, cells)).Success?
    ensures var data := LoadMLDataset(Cube(d, cells)).value;
            && x * Cols(cells) + y < |data.labels|
            && data.features[x * Cols(cells) + y] == cells[x][y][0..9]
            && data.labels[x * Cols(cells) + y] == Trunc(cells[x][y][9])
  {
    RavelAt(cells, |cells|, Cols(cells), x, y);
  }
}
