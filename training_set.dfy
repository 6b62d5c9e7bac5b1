/** Building an ASI training set from a Sentinel-2 product
    (generate_training_set.py): AFAI thresholded and masked by the SCL labels
    every pixel 1 (sargassum), 0 (no sargassum) or 2 (masked); the nine ASI
    bands are then stored with that label, either for every pixel (the full
    set, an NX x NY x 10 cube) or for the sargassum pixels and as many
    randomly chosen non-sargassum pixels (the small set, one 12-column row
    per pixel: the two coordinates, the nine bands, the label). */
module TrainingSet {
  import opened Common
  import opened ProductName
  import Asi
  import opened SargassumIndex
  import opened AsiDataset
  import opened DetectSargassum

  /** The keyword arguments of generate_training_set. */
  datatype GenOptions = GenOptions(outDir: string, fullArray: bool, afaiThreshold: real, keep: seq<int>, verbose: bool)

  const GenDefaults: GenOptions := GenOptions("./", true, 0.005, [6], true)

  /** The detect_sargassum call that labels the pixels: masked, thresholded,
      nothing saved. */
  function LabelOptions(o: GenOptions): (d: Options)
    ensures d.applyMask && d.threshold == Some(o.afaiThreshold) && d.keep == o.keep
    ensures !d.saveNpy && !d.saveGeotiff && !d.saveJp2 && d.verbose == o.verbose
  {
    Options(true, o.keep, Num(2.0), Some(o.afaiThreshold), false, false, false, None, o.verbose)
  }

  /** The labels AFAI gives a product: a rectangular grid of 0, 1 and 2. */
  lemma LabelGrid(datasetPath: string, loaded: Option<ChannelMap>, scl: Option<Grid<int>>, o: GenOptions)
    requires scl.Some? ==> IsGrid(scl.value, |scl.value|, Cols(scl.value))
    requires DetectSpec(datasetPath, AfaiValue(o.verbose), loaded, scl, LabelOptions(o)).Success?
    ensures var res := DetectSpec(datasetPath, AfaiValue(o.verbose), loaded, scl, LabelOptions(o)).value.result;
            && res.Classes? && IsGrid(res.classes, |res.classes|, Cols(res.classes))
            && forall x, y :: 0 <= x < |res.classes| && 0 <= y < Cols(res.classes) ==> 0 <= res.classes[x][y] <= 2
  {
    MaskedClasses(datasetPath, AfaiValue(o.verbose), loaded, scl, LabelOptions(o));
  }

  /** The first of the nine ASI bands, from index i on, missing from the dictionary. */
  function FirstMissing(channels: ChannelMap, i: nat): (m: Option<string>)
    requires i <= |Asi.RequiredChannels|
    ensures m.None? <==> forall k :: i <= k < |Asi.RequiredChannels| ==> Asi.RequiredChannels[k] in channels
    ensures m.Some? ==> m.value in Asi.RequiredChannels && m.value !in channels
    decreases |Asi.RequiredChannels| - i
  {
    if i == |Asi.RequiredChannels| then None
    else if Asi.RequiredChannels[i] !in channels then Some(Asi.RequiredChannels[i])
    else FirstMissing(channels, i + 1)
  }

  // ---------------------------------------------------------------------------
  // Full set

  /** np.stack of the nine bands and the labels, transposed to pixel-major:
      pixel (x, y) holds its nine band values then its label. */
  function FullSet(channels: ChannelMap, mask: Grid<int>, nx: nat, ny: nat): (cube: Grid<seq<real>>)
    requires IsGrid(mask, nx, ny) && Asi.AllBandsShaped(channels, nx, ny)
    ensures IsGrid(cube, nx, ny)
    ensures forall x, y :: 0 <= x < nx && 0 <= y < ny ==>
              |cube[x][y]| == 10 && cube[x][y][..9] == Asi.PixelFeatures(channels, x, y)
              && cube[x][y][9] == mask[x][y] as real
  {
    seq(nx, x requires 0 <= x < nx =>
      seq(ny, y requires 0 <= y < ny => Asi.PixelFeatures(channels, x, y) + [mask[x][y] as real]))
  }

  /** The full set, or why it cannot be built: the band loader found nothing,
      a band is missing, or np.stack meets bands of another shape. */
  function FullArray(mask: Grid<int>, nx: nat, ny: nat, asiLoaded: Option<ChannelMap>): (r: Result<MLArray>)
    requires IsGrid(mask, nx, ny)
    ensures r.Success? <==> asiLoaded.Some? && Asi.AllBandsShaped(asiLoaded.value, nx, ny)
    ensures r.Success? ==> r.value.Cube? && r.value.depth == 10 && WellShaped(r.value)
  {
    if asiLoaded.None? then Failure(DatasetNotLoaded)
    else
      var channels := asiLoaded.value;
      match FirstMissing(channels, 0)
      case Some(b) => Failure(KeyError(b))
      case None =>
        if !Asi.AllBandsShaped(channels, nx, ny) then Failure(StackShapeError)
        else Success(Cube(10, FullSet(channels, mask, nx, ny)))
  }

  /** Element 9 of every flattened pixel is the flattened label grid. */
  lemma {:induction false} RavelLabels(cube: Grid<seq<real>>, mask: Grid<int>, nx: nat, ny: nat)
    requires IsGrid(cube, nx, ny) && IsGrid(mask, nx, ny)
    requires forall x, y :: 0 <= x < nx && 0 <= y < ny ==> |cube[x][y]| == 10 && cube[x][y][9] == mask[x][y] as real
    ensures |Ravel(cube)| == |Ravel(mask)|
    ensures forall k :: 0 <= k < |Ravel(cube)| ==> |Ravel(cube)[k]| == 10 && Ravel(cube)[k][9] == Ravel(mask)[k] as real
    decreases nx
  {
    RavelLength(cube, nx, ny);
    RavelLength(mask, nx, ny);
    if nx > 0 {
      RavelLabels(cube[1..], mask[1..], nx - 1, ny);
      forall k | 0 <= k < |Ravel(cube)|
        ensures |Ravel(cube)[k]| == 10 && Ravel(cube)[k][9] == Ravel(mask)[k] as real
      {
        if k >= ny {
          assert Ravel(cube)[k] == Ravel(cube[1..])[k - ny];
          assert Ravel(mask)[k] == Ravel(mask[1..])[k - ny];
        } else {
          assert Ravel(cube)[k] == cube[0][k];
          assert Ravel(mask)[k] == mask[0][k];
        }
      }
    }
  }

  /** Loading a full set gives back, for every pixel x * NY + y, the bands ASI
      reads at (x, y) and the AFAI label, and the labels in row-major order. */
  lemma FullSetRoundTrip(channels: ChannelMap, mask: Grid<int>, nx: nat, ny: nat, x: nat, y: nat)
    requires IsGrid(mask, nx, ny) && Asi.AllBandsShaped(channels, nx, ny)
    requires x < nx && y < ny
    ensures var a := Cube(10, FullSet(channels, mask, nx, ny));
            && WellShaped(a) && LoadMLDataset(a).Success?
            && var data := LoadMLDataset(a).value;
               && data.labels == Ravel(mask)
               && x * ny + y < |data.labels|
               && data.features[x * ny + y] == Asi.PixelFeatures(channels, x, y)
  {
    var cube := FullSet(channels, mask, nx, ny);
    var data := LoadMLDataset(Cube(10, cube)).value;
    CubeSample(10, cube, x, y);
    assert cube[x][y][0..9] == Asi.PixelFeatures(channels, x, y);
    RavelLabels(cube, mask, nx, ny);
    forall k | 0 <= k < |data.labels|
      ensures data.labels[k] == Ravel(mask)[k]
    {
      TruncOfInteger(Ravel(mask)[k]);
    }
  }

  /** A full set of labels 0, 1 and 2 loads back to the row-major labels,
      every one of them counted in exactly one class. */
  lemma FullSetLabels(channels: ChannelMap, mask: Grid<int>, nx: nat, ny: nat)
    requires IsGrid(mask, nx, ny) && Asi.AllBandsShaped(channels, nx, ny)
    requires forall x, y :: 0 <= x < nx && 0 <= y < ny ==> 0 <= mask[x][y] <= 2
    ensures var a := Cube(10, FullSet(channels, mask, nx, ny));
            && WellShaped(a) && LoadMLDataset(a).Success?
            && var labels := LoadMLDataset(a).value.labels;
               && labels == Ravel(mask)
               && Count(labels, 0) + Count(labels, 1) + Count(labels, 2) == |labels|
  {
    var cube := FullSet(channels, mask, nx, ny);
    RavelLabels(cube, mask, nx, ny);
    var labels := LoadMLDataset(Cube(10, cube)).value.labels;
    forall k | 0 <= k < |labels|
      ensures labels[k] == Ravel(mask)[k]
    {
      TruncOfInteger(Ravel(mask)[k]);
    }
    RavelLength(mask, nx, ny);
    forall k | 0 <= k < |labels|
      ensures 0 <= labels[k] <= 2
    {
      CellOfIndex(k, nx, ny);
      RavelAt(mask, nx, ny, k / ny, k % ny);
    }
    CountsOfThreeClasses(labels);
  }

  // ---------------------------------------------------------------------------
  // Small set

  /** Indices k < n of flat holding v, increasing. */
  function Hits(flat: seq<int>, v: int, n: nat): (r: seq<nat>)
    requires n <= |flat|
    ensures |r| == Count(flat[..n], v)
    ensures forall i :: 0 <= i < |r| ==> r[i] < n && flat[r[i]] == v
    ensures forall i, j :: 0 <= i < j < |r| ==> r[i] < r[j]
    ensures forall k :: 0 <= k < n && flat[k] == v ==> k in r
    decreases n
  {
    if n == 0 then []
    else
      var init := Hits(flat, v, n - 1);
      assert flat[..n][..n - 1] == flat[..n - 1];
      init + (if flat[n - 1] == v then [n - 1] else [])
  }

  lemma MulMono(a: int, b: int, c: nat)
    ensures a >= b ==> a * c >= b * c
  {
  }

  /** Row-major position x * NY + y has row x and column y. */
  lemma DivModOf(x: nat, y: nat, ny: nat)
    requires y < ny
    ensures (x * ny + y) / ny == x && (x * ny + y) % ny == y
  {
    var k := x * ny + y;
    var q, r := k / ny, k % ny;
    assert q * ny + r == x * ny + y;
    MulMono(q, x + 1, ny);
    MulMono(x, q + 1, ny);
    assert (x + 1) * ny == x * ny + ny;
    assert (q + 1) * ny == q * ny + ny;
  }

  /** A position below NX * NY lies in row k / NY < NX. */
  lemma CellOfIndex(k: nat, nx: nat, ny: nat)
    requires k < nx * ny
    ensures ny > 0 && k / ny < nx && k % ny < ny && (k / ny) * ny + k % ny == k
  {
    MulMono(0, nx, ny);
    assert ny > 0;
    MulMono(k / ny, nx, ny);
  }

  /** The (row, column) cells of row-major positions. */
  function Cells(hits: seq<nat>, ny: nat): (r: seq<(nat, nat)>)
    requires ny > 0
    ensures |r| == |hits| && forall i :: 0 <= i < |r| ==> r[i] == (hits[i] / ny, hits[i] % ny)
  {
    seq(|hits|, i requires 0 <= i < |hits| => (hits[i] / ny, hits[i] % ny))
  }

  /** The cells are listed in strictly increasing row-major position. */
  predicate RowMajor(cells: seq<(nat, nat)>, ny: nat) {
    forall i, j :: 0 <= i < j < |cells| ==> cells[i].0 * ny + cells[i].1 < cells[j].0 * ny + cells[j].1
  }

  /** The cells of positions of v lie in the grid, hold v, and keep the order. */
  lemma CellsOfHits(g: Grid<int>, v: int, nx: nat, ny: nat, hits: seq<nat>)
    requires IsGrid(g, nx, ny) && ny > 0 && |Ravel(g)| == nx * ny
    requires forall i :: 0 <= i < |hits| ==> hits[i] < nx * ny && Ravel(g)[hits[i]] == v
    requires forall i, j :: 0 <= i < j < |hits| ==> hits[i] < hits[j]
    ensures var r := Cells(hits, ny);
            && (forall i :: 0 <= i < |r| ==> r[i].0 < nx && r[i].1 < ny && g[r[i].0][r[i].1] == v)
            && RowMajor(r, ny)
  {
    var r := Cells(hits, ny);
    forall i | 0 <= i < |r|
      ensures r[i].0 < nx && r[i].1 < ny && g[r[i].0][r[i].1] == v && r[i].0 * ny + r[i].1 == hits[i]
    {
      CellOfIndex(hits[i], nx, ny);
      RavelAt(g, nx, ny, hits[i] / ny, hits[i] % ny);
    }
  }

  /** Every cell holding v is among the cells of the positions in hits. */
  lemma HitsCoverCells(g: Grid<int>, v: int, nx: nat, ny: nat, hits: seq<nat>)
    requires IsGrid(g, nx, ny) && ny > 0 && |Ravel(g)| == nx * ny
    requires forall k :: 0 <= k < nx * ny && Ravel(g)[k] == v ==> k in hits
    ensures forall x, y :: 0 <= x < nx && 0 <= y < ny && g[x][y] == v ==> (x, y) in Cells(hits, ny)
  {
    var r := Cells(hits, ny);
    forall x, y | 0 <= x < nx && 0 <= y < ny && g[x][y] == v
      ensures (x, y) in r
    {
      RavelAt(g, nx, ny, x, y);
      var i :| 0 <= i < |hits| && hits[i] == x * ny + y;
      DivModOf(x, y, ny);
      assert r[i] == (x, y);
    }
  }

  /** np.argwhere(mask == v): the cells holding v in row-major order. */
  function Argwhere(g: Grid<int>, v: int, nx: nat, ny: nat): (r: seq<(nat, nat)>)
    requires IsGrid(g, nx, ny)
    ensures |r| == Count(Ravel(g), v)
    ensures forall i :: 0 <= i < |r| ==> r[i].0 < nx && r[i].1 < ny && g[r[i].0][r[i].1] == v
    ensures forall x, y :: 0 <= x < nx && 0 <= y < ny && g[x][y] == v ==> (x, y) in r
    ensures RowMajor(r, ny)
  {
    RavelLength(g, nx, ny);
    var flat := Ravel(g);
    if ny == 0 then
      assert |flat| == 0;
      []
    else
      assert flat[..nx * ny] == flat;
      var hits := Hits(flat, v, nx * ny);
      CellsOfHits(g, v, nx, ny, hits);
      HitsCoverCells(g, v, nx, ny, hits);
      Cells(hits, ny)
  }

  /** One row of the small set: the coordinates, the nine bands, the label. */
  function SmallRow(channels: ChannelMap, mask: Grid<int>, nx: nat, ny: nat, c: (nat, nat)): (row: seq<real>)
    requires IsGrid(mask, nx, ny) && Asi.AllBandsShaped(channels, nx, ny) && c.0 < nx && c.1 < ny
    ensures |row| == 12 && row[0] == c.0 as real && row[1] == c.1 as real
    ensures row[2..11] == Asi.PixelFeatures(channels, c.0, c.1) && row[11] == mask[c.0][c.1] as real
  {
    [c.0 as real, c.1 as real] + Asi.PixelFeatures(channels, c.0, c.1) + [mask[c.0][c.1] as real]
  }

  predicate InGrid(coords: seq<(nat, nat)>, nx: nat, ny: nat) {
    forall k :: 0 <= k < |coords| ==> coords[k].0 < nx && coords[k].1 < ny
  }

  /** The rows of the given pixels, in order. */
  function PackRows(channels: ChannelMap, mask: Grid<int>, nx: nat, ny: nat, coords: seq<(nat, nat)>): (rows: seq<seq<real>>)
    requires IsGrid(mask, nx, ny) && InGrid(coords, nx, ny)
    requires |coords| > 0 ==> Asi.AllBandsShaped(channels, nx, ny)
    ensures |rows| == |coords|
    ensures forall k :: 0 <= k < |coords| ==> rows[k] == SmallRow(channels, mask, nx, ny, coords[k])
  {
    seq(|coords|, k requires 0 <= k < |coords| => SmallRow(channels, mask, nx, ny, coords[k]))
  }

  /** The packing loop: an uninitialised (rows x 12) float array filled row
      by row, the bands one column at a time. */
  method Pack(channels: ChannelMap, mask: Grid<int>, nx: nat, ny: nat, coords: seq<(nat, nat)>) returns (rows: seq<seq<real>>)
    requires IsGrid(mask, nx, ny) && InGrid(coords, nx, ny)
    requires |coords| > 0 ==> Asi.AllBandsShaped(channels, nx, ny)
    ensures rows == PackRows(channels, mask, nx, ny, coords)
  {
    var table := new real[|coords|, 12];
    for k := 0 to |coords|
      invariant forall p, q :: 0 <= p < k && 0 <= q < 12 ==> table[p, q] == SmallRow(channels, mask, nx, ny, coords[p])[q]
    {
      PackRow(table, k, channels, mask, nx, ny, coords[k]);
    }
    rows := seq(|coords|, p requires 0 <= p < |coords| reads table => seq(12, q requires 0 <= q < 12 reads table => table[p, q]));
    forall p | 0 <= p < |coords|
      ensures rows[p] == SmallRow(channels, mask, nx, ny, coords[p])
    {
      assert forall q :: 0 <= q < 12 ==> rows[p][q] == SmallRow(channels, mask, nx, ny, coords[p])[q];
    }
  }

  /** One iteration of the packing loop: row k gets the coordinates, the
      nine bands of pixel c and its label; the other rows are untouched. */
  method PackRow(table: array2<real>, k: nat, channels: ChannelMap, mask: Grid<int>, nx: nat, ny: nat, c: (nat, nat))
    requires k < table.Length0 && table.Length1 == 12
    requires IsGrid(mask, nx, ny) && Asi.AllBandsShaped(channels, nx, ny) && c.0 < nx && c.1 < ny
    modifies table
    ensures forall q :: 0 <= q < 12 ==> table[k, q] == SmallRow(channels, mask, nx, ny, c)[q]
    ensures forall p, q :: 0 <= p < table.Length0 && p != k && 0 <= q < 12 ==> table[p, q] == old(table[p, q])
  {
    var (i, j) := c;
    table[k, 0] := i as real;
    table[k, 1] := j as real;
    for l := 0 to 9
      invariant forall p, q :: 0 <= p < table.Length0 && p != k && 0 <= q < 12 ==> table[p, q] == old(table[p, q])
      invariant table[k, 0] == i as real && table[k, 1] == j as real
      invariant forall q :: 2 <= q < 2 + l ==> table[k, q] == channels[Asi.RequiredChannels[q - 2]][i][j]
    {
      table[k, 2 + l] := channels[Asi.RequiredChannels[l]][i][j];
    }
    table[k, 11] := mask[i][j] as real;
  }

  /** What random.sample(population, k) promises: k distinct positions of a
      population of m elements. */
  predicate ValidPick(pick: seq<nat>, m: nat, k: nat) {
    && |pick| == k
    && (forall i :: 0 <= i < k ==> pick[i] < m)
    && (forall i, j :: 0 <= i < j < k ==> pick[i] != pick[j])
  }

  /** A random sampler: given a population size m and k <= m, a valid pick. */
  ghost predicate IsSampler(sampler: (nat, nat) -> seq<nat>) {
    forall m: nat, k: nat :: k <= m ==> ValidPick(sampler(m, k), m, k)
  }

  /** The failures of the small set shared by both versions: random.sample
      asked for more non-sargassum pixels than there are, and, once there is
      a row to pack, a band loader that found nothing or a missing or
      mis-shaped band. */
  function SmallSetError(nx: nat, ny: nat, n: nat, population: nat, asiLoaded: Option<ChannelMap>): (e: Option<Error>)
    ensures e.None? <==> n <= population && (n > 0 ==> asiLoaded.Some? && Asi.AllBandsShaped(asiLoaded.value, nx, ny))
  {
    if n > population then Some(SampleLargerThanPopulation)
    else if n > 0 && asiLoaded.None? then Some(DatasetNotLoaded)
    else if n > 0 && !Asi.AllBandsShaped(asiLoaded.value, nx, ny) then
      match FirstMissing(asiLoaded.value, 0)
      case Some(b) => Some(KeyError(b))
      case None => Some(IndexError)
    else None
  }

  /** The pixels a balanced set of n sargassum pixels packs: the first n hold
      label 1 and the next n label 0. */
  predicate Balanced(mask: Grid<int>, nx: nat, ny: nat, coords: seq<(nat, nat)>, n: nat)
    requires IsGrid(mask, nx, ny)
  {
    && |coords| == 2 * n && InGrid(coords, nx, ny)
    && (forall k :: 0 <= k < n ==> mask[coords[k].0][coords[k].1] == 1)
    && (forall k :: n <= k < 2 * n ==> mask[coords[k].0][coords[k].1] == 0)
  }

  /** The pixels packed as generate_training_set.py lines 138-153 pick them:
      the random sample is drawn and then ignored, and row k >= n takes
      non-sargassum pixel k, so pixels n .. 2n-1 are used and there must be
      2n of them. */
  function CoordsAsWritten(mask: Grid<int>, nx: nat, ny: nat): (coords: seq<(nat, nat)>)
    requires IsGrid(mask, nx, ny) && 2 * Count(Ravel(mask), 1) <= Count(Ravel(mask), 0)
    ensures Balanced(mask, nx, ny, coords, Count(Ravel(mask), 1))
  {
    var sarg := Argwhere(mask, 1, nx, ny);
    var notSarg := Argwhere(mask, 0, nx, ny);
    var rest := notSarg[|sarg|..2 * |sarg|];
    assert forall i :: 0 <= i < |rest| ==> rest[i] == notSarg[|sarg| + i];
    JoinBalanced(mask, nx, ny, sarg, rest);
    sarg + rest
  }

  /** Cells of label 1 followed by as many cells of label 0 are balanced. */
  lemma JoinBalanced(mask: Grid<int>, nx: nat, ny: nat, sarg: seq<(nat, nat)>, rest: seq<(nat, nat)>)
    requires IsGrid(mask, nx, ny) && |rest| == |sarg|
    requires forall i :: 0 <= i < |sarg| ==> sarg[i].0 < nx && sarg[i].1 < ny && mask[sarg[i].0][sarg[i].1] == 1
    requires forall i :: 0 <= i < |rest| ==> rest[i].0 < nx && rest[i].1 < ny && mask[rest[i].0][rest[i].1] == 0
    ensures Balanced(mask, nx, ny, sarg + rest, |sarg|)
  {
    var coords := sarg + rest;
    assert forall k :: |sarg| <= k < |coords| ==> coords[k] == rest[k - |sarg|];
  }

  /** The elements of population at the picked positions. */
  function Choose<T>(population: seq<T>, pick: seq<nat>): (r: seq<T>)
    requires forall i :: 0 <= i < |pick| ==> pick[i] < |population|
    ensures |r| == |pick| && forall i :: 0 <= i < |pick| ==> r[i] == population[pick[i]]
  {
    seq(|pick|, i requires 0 <= i < |pick| => population[pick[i]])
  }

  /** n distinct cells of label 1 followed by n distinct picked cells of
      label 0 form a balanced list without repetition. */
  lemma SampleIsBalanced(mask: Grid<int>, nx: nat, ny: nat, sarg: seq<(nat, nat)>, notSarg: seq<(nat, nat)>, pick: seq<nat>)
    requires IsGrid(mask, nx, ny) && ValidPick(pick, |notSarg|, |sarg|)
    requires forall i :: 0 <= i < |sarg| ==> sarg[i].0 < nx && sarg[i].1 < ny && mask[sarg[i].0][sarg[i].1] == 1
    requires forall i :: 0 <= i < |notSarg| ==> notSarg[i].0 < nx && notSarg[i].1 < ny && mask[notSarg[i].0][notSarg[i].1] == 0
    requires forall i, j :: 0 <= i < |sarg| && 0 <= j < |sarg| && i != j ==> sarg[i] != sarg[j]
    requires forall i, j :: 0 <= i < |notSarg| && 0 <= j < |notSarg| && i != j ==> notSarg[i] != notSarg[j]
    ensures var coords := sarg + Choose(notSarg, pick);
            && Balanced(mask, nx, ny, coords, |sarg|)
            && forall i, j :: 0 <= i < j < |coords| ==> coords[i] != coords[j]
  {
    var n := |sarg|;
    var chosen := Choose(notSarg, pick);
    var coords := sarg + chosen;
    forall i, j | 0 <= i < j < |coords|
      ensures coords[i] != coords[j]
    {
      if j < n {
        assert coords[i] == sarg[i] && coords[j] == sarg[j];
      } else if i >= n {
        assert coords[i] == notSarg[pick[i - n]] && coords[j] == notSarg[pick[j - n]];
      } else {
        assert mask[coords[i].0][coords[i].1] == 1 && mask[coords[j].0][coords[j].1] == 0;
      }
    }
  }

  /** The pixels packed as intended: the sargassum pixels, then the randomly
      sampled non-sargassum pixels, no pixel twice. */
  function SampledCoords(mask: Grid<int>, nx: nat, ny: nat, sampler: (nat, nat) -> seq<nat>): (coords: seq<(nat, nat)>)
    requires IsGrid(mask, nx, ny) && IsSampler(sampler) && Count(Ravel(mask), 1) <= Count(Ravel(mask), 0)
    ensures Balanced(mask, nx, ny, coords, Count(Ravel(mask), 1))
    ensures forall i, j :: 0 <= i < j < |coords| ==> coords[i] != coords[j]
  {
    var sarg := Argwhere(mask, 1, nx, ny);
    var notSarg := Argwhere(mask, 0, nx, ny);
    var pick := sampler(|notSarg|, |sarg|);
    assert ValidPick(pick, |notSarg|, |sarg|);
    DistinctCells(sarg, ny);
    DistinctCells(notSarg, ny);
    SampleIsBalanced(mask, nx, ny, sarg, notSarg, pick);
    sarg + Choose(notSarg, pick)
  }

  /** Cells listed in strictly increasing row-major order are distinct. */
  lemma DistinctCells(cells: seq<(nat, nat)>, ny: nat)
    requires RowMajor(cells, ny)
    ensures forall i, j :: 0 <= i < |cells| && 0 <= j < |cells| && i != j ==> cells[i] != cells[j]
  {
  }

  /** Loading a packed table gives back, row by row, the label of the packed
      pixel and the bands ASI reads there. */
  lemma PackedTable(channels: ChannelMap, mask: Grid<int>, nx: nat, ny: nat, coords: seq<(nat, nat)>)
    requires IsGrid(mask, nx, ny) && InGrid(coords, nx, ny)
    requires |coords| > 0 ==> Asi.AllBandsShaped(channels, nx, ny)
    ensures var a := Table(12, PackRows(channels, mask, nx, ny, coords));
            && WellShaped(a) && LoadMLDataset(a).Success?
            && var data := LoadMLDataset(a).value;
               && |data.labels| == |coords|
               && forall k :: 0 <= k < |coords| ==>
                    && data.labels[k] == mask[coords[k].0][coords[k].1]
                    && data.features[k] == Asi.PixelFeatures(channels, coords[k].0, coords[k].1)
  {
    var rows := PackRows(channels, mask, nx, ny, coords);
    var data := LoadMLDataset(Table(12, rows)).value;
    forall k | 0 <= k < |coords|
      ensures data.labels[k] == mask[coords[k].0][coords[k].1]
    {
      TruncOfInteger(mask[coords[k].0][coords[k].1]);
    }
  }

  /** The small set as generate_training_set.py builds it. */
  function SmallArrayAsWritten(mask: Grid<int>, nx: nat, ny: nat, asiLoaded: Option<ChannelMap>): (r: Result<MLArray>)
    requires IsGrid(mask, nx, ny)
    ensures var n, m := Count(Ravel(mask), 1), Count(Ravel(mask), 0);
            r.Success? <==> SmallSetError(nx, ny, n, m, asiLoaded).None? && 2 * n <= m
  {
    var n, m := Count(Ravel(mask), 1), Count(Ravel(mask), 0);
    match SmallSetError(nx, ny, n, m, asiLoaded)
    case Some(e) => Failure(e)
    case None =>
      if 2 * n > m then Failure(IndexError)
      else
        var channels := if asiLoaded.Some? then asiLoaded.value else map[];
        Success(Table(12, PackRows(channels, mask, nx, ny, CoordsAsWritten(mask, nx, ny))))
  }

  /** The small set as intended, with the random sample used. */
  function SmallArray(mask: Grid<int>, nx: nat, ny: nat, asiLoaded: Option<ChannelMap>,
                      sampler: (nat, nat) -> seq<nat>): (r: Result<MLArray>)
    requires IsGrid(mask, nx, ny) && IsSampler(sampler)
    ensures var n, m := Count(Ravel(mask), 1), Count(Ravel(mask), 0);
            r.Success? <==> SmallSetError(nx, ny, n, m, asiLoaded).None?
    ensures r.Success? ==> r.value.Table? && r.value.ncols == 12 && WellShaped(r.value)
                           && |r.value.rows| == 2 * Count(Ravel(mask), 1)
  {
    var n, m := Count(Ravel(mask), 1), Count(Ravel(mask), 0);
    match SmallSetError(nx, ny, n, m, asiLoaded)
    case Some(e) => Failure(e)
    case None =>
      var channels := if asiLoaded.Some? then asiLoaded.value else map[];
      Success(Table(12, PackRows(channels, mask, nx, ny, SampledCoords(mask, nx, ny, sampler))))
  }

  function Repeat(v: int, n: nat): (s: seq<int>)
    ensures |s| == n && forall k :: 0 <= k < n ==> s[k] == v
  {
    seq(n, k => v)
  }

  lemma {:induction false} CountRepeat(v: int, w: int, n: nat)
    ensures Count(Repeat(v, n), w) == (if v == w then n else 0)
    decreases n
  {
    if n > 0 {
      assert Repeat(v, n)[..n - 1] == Repeat(v, n - 1);
      CountRepeat(v, w, n - 1);
    }
  }

  /** The labels of a balanced table: n ones then n zeros. */
  lemma BalancedLabels(channels: ChannelMap, mask: Grid<int>, nx: nat, ny: nat, coords: seq<(nat, nat)>, n: nat)
    requires IsGrid(mask, nx, ny) && Balanced(mask, nx, ny, coords, n)
    requires n > 0 ==> Asi.AllBandsShaped(channels, nx, ny)
    ensures var a := Table(12, PackRows(channels, mask, nx, ny, coords));
            && WellShaped(a) && LoadMLDataset(a).Success?
            && var labels := LoadMLDataset(a).value.labels;
               && labels == Repeat(1, n) + Repeat(0, n)
               && Count(labels, 1) == n && Count(labels, 0) == n && Count(labels, 2) == 0
  {
    PackedTable(channels, mask, nx, ny, coords);
    var labels := LoadMLDataset(Table(12, PackRows(channels, mask, nx, ny, coords))).value.labels;
    assert labels == Repeat(1, n) + Repeat(0, n);
    CountAppend(Repeat(1, n), Repeat(0, n), 1);
    CountAppend(Repeat(1, n), Repeat(0, n), 0);
    CountAppend(Repeat(1, n), Repeat(0, n), 2);
    CountRepeat(1, 1, n);
    CountRepeat(0, 1, n);
    CountRepeat(1, 0, n);
    CountRepeat(0, 0, n);
    CountRepeat(1, 2, n);
    CountRepeat(0, 2, n);
  }

  /** The intended small set is balanced: loading it gives 2n distinct
      pixels, n of them sargassum and n not, none masked, each with the bands
      ASI reads at the pixel whose coordinates its row stores. */
  lemma SmallSetBalanced(mask: Grid<int>, nx: nat, ny: nat, asiLoaded: Option<ChannelMap>,
                         sampler: (nat, nat) -> seq<nat>)
    requires IsGrid(mask, nx, ny) && IsSampler(sampler)
    requires SmallArray(mask, nx, ny, asiLoaded, sampler).Success?
    ensures var a := SmallArray(mask, nx, ny, asiLoaded, sampler).value;
            var n := Count(Ravel(mask), 1);
            && LoadMLDataset(a).Success?
            && var data := LoadMLDataset(a).value;
               && data.labels == Repeat(1, n) + Repeat(0, n)
               && Count(data.labels, 1) == n && Count(data.labels, 0) == n && Count(data.labels, 2) == 0
               && forall k :: 0 <= k < |a.rows| ==>
                    var x, y := a.rows[k][0].Floor, a.rows[k][1].Floor;
                    && 0 <= x < nx && 0 <= y < ny
                    && data.features[k] == Asi.PixelFeatures(asiLoaded.value, x, y)
  {
    var n := Count(Ravel(mask), 1);
    var channels := if asiLoaded.Some? then asiLoaded.value else map[];
    var coords := SampledCoords(mask, nx, ny, sampler);
    BalancedLabels(channels, mask, nx, ny, coords, n);
    PackedTable(channels, mask, nx, ny, coords);
  }

  /** Whenever there are fewer than twice as many non-sargassum pixels as
      sargassum pixels (but at least as many), the written packing indexes
      past the last non-sargassum pixel, while the sampled packing builds its
      balanced set. */
  lemma SmallSetAsWrittenFails(mask: Grid<int>, nx: nat, ny: nat, channels: ChannelMap, sampler: (nat, nat) -> seq<nat>)
    requires IsGrid(mask, nx, ny) && Asi.AllBandsShaped(channels, nx, ny) && IsSampler(sampler)
    requires 0 < Count(Ravel(mask), 1) <= Count(Ravel(mask), 0) < 2 * Count(Ravel(mask), 1)
    ensures SmallArrayAsWritten(mask, nx, ny, Some(channels)) == Failure(IndexError)
    ensures SmallArray(mask, nx, ny, Some(channels), sampler).Success?
  {
    assert SmallSetError(nx, ny, Count(Ravel(mask), 1), Count(Ravel(mask), 0), Some(channels)).None?;
  }

  /** The smallest such mask: one sargassum pixel next to one non-sargassum
      pixel. */
  lemma OnePairMask()
    ensures IsGrid([[1, 0]], 1, 2)
    ensures Count(Ravel([[1, 0]]), 1) == 1 && Count(Ravel([[1, 0]]), 0) == 1
  {
    var mask := [[1, 0]];
    assert Ravel(mask) == [1, 0] by {
      assert Ravel(mask[1..]) == [];
    }
    assert [1, 0][..1] == [1];
  }

  // ---------------------------------------------------------------------------
  // The whole program

  /** The end of a training-set file name: "_ML_full.npy" or "_ML_small.npy". */
  function TrainingSuffix(fullArray: bool): string {
    "_ML_" + (if fullArray then "full" else "small") + ".npy"
  }

  /** "T{tile}_{sensing time}_ML_{full|small}.npy" from the product name. */
  function TrainingSetName(basename: string, fullArray: bool): (name: string)
    ensures |basename| >= 44 ==>
              && |name| == 22 + |TrainingSuffix(fullArray)|
              && name[0] == 'T' && name[1..6] == basename[39..44]
              && name[6] == '_' && name[7..22] == basename[11..26]
              && name[22..] == TrainingSuffix(fullArray)
    ensures |name| >= 4 && name[|name| - 4..] == ".npy"
  {
    var tile, sensing := Slice(basename, 39, 44), Slice(basename, 11, 26);
    var tail := TrainingSuffix(fullArray);
    var name := "T" + tile + "_" + sensing + tail;
    assert |basename| >= 44 ==> name[1..6] == tile && name[7..22] == sensing && name[22..] == tail;
    assert name[|name| - 4..] == tail[|tail| - 4..];
    name
  }

  /** The worked product name gives "T16QEJ_20190706T160839_ML_full.npy"
      and "T16QEJ_20190706T160839_ML_small.npy". */
  lemma ExampleTrainingSetName(full: bool)
    ensures var name := TrainingSetName(ExampleName, full);
            && name[0] == 'T' && name[1..6] == "16QEJ" && name[6] == '_' && name[7..22] == "20190706T160839"
            && name[22..] == (if full then "_ML_full.npy" else "_ML_small.npy")
  {
    ExampleFields();
    assert |ExampleName| >= 44;
    assert TrainingSuffix(true) == "_ML_full.npy";
    assert TrainingSuffix(false) == "_ML_small.npy";
  }

  /** The training array and the path it is saved to. */
  datatype TrainingOutput = TrainingOutput(path: string, data: MLArray)

  /** generate_training_set, with the two band loaders, the SCL and the
      random sampler as parameters.  The labelling run of detect_sargassum
      fails first, then the verbose percentages on an empty image, then the
      set itself. */
  function GenerateSpec(datasetPath: string, afaiLoaded: Option<ChannelMap>, scl: Option<Grid<int>>,
                        asiLoaded: Option<ChannelMap>, o: GenOptions, sampler: (nat, nat) -> seq<nat>): (r: Result<TrainingOutput>)
    requires scl.Some? ==> IsGrid(scl.value, |scl.value|, Cols(scl.value))
    requires IsSampler(sampler)
    ensures DetectSpec(datasetPath, AfaiValue(o.verbose), afaiLoaded, scl, LabelOptions(o)).Failure? ==>
              r == Failure(DetectSpec(datasetPath, AfaiValue(o.verbose), afaiLoaded, scl, LabelOptions(o)).error)
    ensures r.Success? ==> r.value.path == JoinPath(o.outDir, TrainingSetName(BaseName(datasetPath), o.fullArray))
    ensures r.Success? ==> WellShaped(r.value.data) && (r.value.data.Cube? <==> o.fullArray)
  {
    match DetectSpec(datasetPath, AfaiValue(o.verbose), afaiLoaded, scl, LabelOptions(o))
    case Failure(e) => Failure(e)
    case Success(det) =>
      LabelGrid(datasetPath, afaiLoaded, scl, o);
      var mask := det.result.classes;
      var nx, ny := |mask|, Cols(mask);
      if o.verbose && nx * ny == 0 then Failure(ZeroDivision)
      else
        var built := if o.fullArray then FullArray(mask, nx, ny, asiLoaded) else SmallArray(mask, nx, ny, asiLoaded, sampler);
        match built
        case Failure(e) => Failure(e)
        case Success(a) => Success(TrainingOutput(JoinPath(o.outDir, TrainingSetName(BaseName(datasetPath), o.fullArray)), a))
  }

  /** The labels a successful run stores are AFAI's: the full set keeps every
      pixel's label in row-major order and the small set is balanced. */
  lemma GeneratedLabels(datasetPath: string, afaiLoaded: Option<ChannelMap>, scl: Option<Grid<int>>,
                        asiLoaded: Option<ChannelMap>, o: GenOptions, sampler: (nat, nat) -> seq<nat>)
    requires scl.Some? ==> IsGrid(scl.value, |scl.value|, Cols(scl.value))
    requires IsSampler(sampler)
    requires GenerateSpec(datasetPath, afaiLoaded, scl, asiLoaded, o, sampler).Success?
    ensures var a := GenerateSpec(datasetPath, afaiLoaded, scl, asiLoaded, o, sampler).value.data;
            var mask := DetectSpec(datasetPath, AfaiValue(o.verbose), afaiLoaded, scl, LabelOptions(o)).value.result.classes;
            && LoadMLDataset(a).Success?
            && var labels := LoadMLDataset(a).value.labels;
               && (o.fullArray ==> labels == Ravel(mask)
                                   && Count(labels, 0) + Count(labels, 1) + Count(labels, 2) == |labels|)
               && (!o.fullArray ==> Count(labels, 1) == Count(labels, 0) == Count(Ravel(mask), 1)
                                    && Count(labels, 2) == 0)
  {
    LabelGrid(datasetPath, afaiLoaded, scl, o);
    var mask := DetectSpec(datasetPath, AfaiValue(o.verbose), afaiLoaded, scl, LabelOptions(o)).value.result.classes;
    var nx, ny := |mask|, Cols(mask);
    var a := GenerateSpec(datasetPath, afaiLoaded, scl, asiLoaded, o, sampler).value.data;
    if o.fullArray {
      assert a == FullArray(mask, nx, ny, asiLoaded).value;
      FullSetLabels(asiLoaded.value, mask, nx, ny);
    } else {
      assert a == SmallArray(mask, nx, ny, asiLoaded, sampler).value;
      SmallSetBalanced(mask, nx, ny, asiLoaded, sampler);
    }
  }

  /** generate_training_set with the labelling run and the packing loop as
      methods. */
  method GenerateTrainingSet(datasetPath: string, afaiLoaded: Option<ChannelMap>, scl: Option<Grid<int>>,
                             asiLoaded: Option<ChannelMap>, o: GenOptions, sampler: (nat, nat) -> seq<nat>)
    returns (r: Result<TrainingOutput>)
    requires scl.Some? ==> IsGrid(scl.value, |scl.value|, Cols(scl.value))
    requires IsSampler(sampler)
    ensures r == GenerateSpec(datasetPath, afaiLoaded, scl, asiLoaded, o, sampler)
  {
    var detected := Detect(datasetPath, AfaiAlgorithm(o.verbose), afaiLoaded, scl, LabelOptions(o));
    if detected.Failure? {
      return Failure(detected.error);
    }
    LabelGrid(datasetPath, afaiLoaded, scl, o);
    var mask := detected.value.result.classes;
    var nx, ny := |mask|, Cols(mask);
    if o.verbose && nx * ny == 0 {
      return Failure(ZeroDivision);
    }
    var path := JoinPath(o.outDir, TrainingSetName(BaseName(datasetPath), o.fullArray));
    if o.fullArray {
      var built := FullArray(mask, nx, ny, asiLoaded);
      if built.Failure? {
        return Failure(built.error);
      }
      return Success(TrainingOutput(path, built.value));
    }
    var e := SmallSetError(nx, ny, Count(Ravel(mask), 1), Count(Ravel(mask), 0), asiLoaded);
    if e.Some? {
      return Failure(e.value);
    }
    var channels := if asiLoaded.Some? then asiLoaded.value else map[];
    var rows := Pack(channels, mask, nx, ny, SampledCoords(mask, nx, ny, sampler));
    r := Success(TrainingOutput(path, Table(12, rows)));
  }
}
