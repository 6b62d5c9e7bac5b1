/** Shared vocabulary of the sargassum-index model: optional values, results
    with the failures the pipeline can raise, two-dimensional rasters stored
    as sequences of rows, and Python's clamped string slicing. */
module Common {

  datatype Option<+T> = None | Some(value: T)

  /** The ways an operation of the pipeline can fail.  Each case names the
      exception the Python code raises at that point. */
  datatype Error =
    | KeyError(key: string)          // a channel missing from a channel dictionary
    | UnknownSclCode(code: int)      // a scene class code missing from the class table
    | IndexError                     // a list or array index out of range
    | ReshapeError                   // reshape of an array to a different size
    | BroadcastError                 // element-wise arithmetic on arrays of different shapes
    | StackShapeError                // np.stack of arrays of different shapes
    | DateFormatError                // strptime on a malformed sensing date
    | HexFormatError                 // int(_, 16) on a malformed colour component
    | SampleLargerThanPopulation     // random.sample asked for too many elements
    | DatasetNotLoaded               // the band loader returned None
    | SclNotLoaded                   // the scene classification loader returned None
    | ModelNotLoaded                 // predict on a model that was never loaded
    | ModelInputMismatch             // feature matrix width differs from the model's input
    | NotImplemented                 // compute of the abstract base index
    | UnsupportedRank                // a training array that is neither 2-D nor 3-D
    | LabelOutOfRange                // confusion matrix label or prediction outside the classes
    | ZeroDivision                   // a Python division by zero
    | EmptyReduction                 // min() or max() of an empty array

  datatype Result<+T> = Success(value: T) | Failure(error: Error)

  /** A raster: a sequence of rows, addressed as g[x][y]. */
  type Grid<T> = seq<seq<T>>

  /** g has exactly nx rows of ny cells each (a numpy array of shape (nx, ny)). */
  predicate IsGrid<T>(g: Grid<T>, nx: nat, ny: nat) {
    |g| == nx && forall x :: 0 <= x < nx ==> |g[x]| == ny
  }

  /** Number of columns, read from the first row as numpy's shape[1] would be. */
  function Cols<T>(g: Grid<T>): nat {
    if |g| == 0 then 0 else |g[0]|
  }

  predicate SameShape<T, U>(a: Grid<T>, b: Grid<U>) {
    IsGrid(a, |b|, Cols(b)) && IsGrid(b, |b|, Cols(b))
  }

  /** Row-major flattening (numpy's reshape to one dimension): the rows one after the other. */
  function Ravel<T>(g: Grid<T>): seq<T>
    decreases |g|
  {
    if |g| == 0 then [] else g[0] + Ravel(g[1..])
  }

  lemma {:induction false} RavelLength<T>(g: Grid<T>, nx: nat, ny: nat)
    requires IsGrid(g, nx, ny)
    ensures |Ravel(g)| == nx * ny
  {
    if nx > 0 {
      RavelLength(g[1..], nx - 1, ny);
    }
  }

  /** The row-major index formula: cell (x, y) sits at position x * ny + y. */
  lemma {:induction false} RavelAt<T>(g: Grid<T>, nx: nat, ny: nat, x: nat, y: nat)
    requires IsGrid(g, nx, ny) && x < nx && y < ny
    ensures |Ravel(g)| == nx * ny && x * ny + y < nx * ny
    ensures Ravel(g)[x * ny + y] == g[x][y]
  {
    RavelLength(g, nx, ny);
    if x > 0 {
      RavelAt(g[1..], nx - 1, ny, x - 1, y);
      assert (x - 1) * ny + y + ny == x * ny + y;
    }
  }

  /** Row-major reshaping of a flat sequence into nx rows of ny cells. */
  function Reshape<T>(s: seq<T>, nx: nat, ny: nat): seq<seq<T>>
    requires |s| == nx * ny
    decreases nx
  {
    if nx == 0 then []
    else
      assert |s| == (nx - 1) * ny + ny;
      [s[..ny]] + Reshape(s[ny..], nx - 1, ny)
  }

  lemma {:induction false} ReshapeIsGrid<T>(s: seq<T>, nx: nat, ny: nat)
    requires |s| == nx * ny
    ensures IsGrid(Reshape(s, nx, ny), nx, ny)
  {
    if nx > 0 {
      assert |s| == (nx - 1) * ny + ny;
      ReshapeIsGrid(s[ny..], nx - 1, ny);
    }
  }

  /** Flattening undoes reshaping. */
  lemma {:induction false} RavelReshape<T>(s: seq<T>, nx: nat, ny: nat)
    requires |s| == nx * ny
    ensures Ravel(Reshape(s, nx, ny)) == s
  {
    if nx > 0 {
      assert |s| == (nx - 1) * ny + ny;
      RavelReshape(s[ny..], nx - 1, ny);
      assert s == s[..ny] + s[ny..];
    }
  }

  /** Reshaping undoes flattening. */
  lemma {:induction false} ReshapeRavel<T>(g: Grid<T>, nx: nat, ny: nat)
    requires IsGrid(g, nx, ny)
    ensures |Ravel(g)| == nx * ny && Reshape(Ravel(g), nx, ny) == g
  {
    RavelLength(g, nx, ny);
    if nx > 0 {
      ReshapeRavel(g[1..], nx - 1, ny);
      assert Ravel(g)[..ny] == g[0];
      assert Ravel(g)[ny..] == Ravel(g[1..]);
    }
  }

  /** Cell (x, y) of a reshaped sequence is element x * ny + y. */
  lemma ReshapeAt<T>(s: seq<T>, nx: nat, ny: nat, x: nat, y: nat)
    requires |s| == nx * ny && x < nx && y < ny
    ensures IsGrid(Reshape(s, nx, ny), nx, ny) && x * ny + y < |s|
    ensures Reshape(s, nx, ny)[x][y] == s[x * ny + y]
  {
    ReshapeIsGrid(s, nx, ny);
    RavelAt(Reshape(s, nx, ny), nx, ny, x, y);
    RavelReshape(s, nx, ny);
  }

  /** Number of occurrences of v in s. */
  function Count<T(==)>(s: seq<T>, v: T): nat
    decreases |s|
  {
    if |s| == 0 then 0 else (if s[|s| - 1] == v then 1 else 0) + Count(s[..|s| - 1], v)
  }

  lemma {:induction false} CountAppend<T>(a: seq<T>, b: seq<T>, v: T)
    ensures Count(a + b, v) == Count(a, v) + Count(b, v)
    decreases |b|
  {
    if |b| == 0 {
      assert a + b == a;
    } else {
      assert (a + b)[..|a + b| - 1] == a + b[..|b| - 1];
      assert (a + b)[|a + b| - 1] == b[|b| - 1];
      CountAppend(a, b[..|b| - 1], v);
    }
  }

  lemma {:induction false} CountBound<T>(s: seq<T>, v: T)
    ensures Count(s, v) <= |s|
    ensures Count(s, v) == 0 <==> v !in s
    decreases |s|
  {
    if |s| > 0 {
      CountBound(s[..|s| - 1], v);
      assert s == s[..|s| - 1] + [s[|s| - 1]];
    }
  }

  /** In a sequence of the labels 0, 1 and 2, every element is counted in
      exactly one of them. */
  lemma {:induction false} CountsOfThreeClasses(y: seq<int>)
    requires forall k :: 0 <= k < |y| ==> 0 <= y[k] <= 2
    ensures Count(y, 0) + Count(y, 1) + Count(y, 2) == |y|
    decreases |y|
  {
    if |y| > 0 {
      CountsOfThreeClasses(y[..|y| - 1]);
    }
  }

  /** Python's s[lo:hi] for non-negative bounds: both ends are clamped to the
      length and an inverted range gives the empty string; it never fails. */
  function Slice(s: string, lo: nat, hi: nat): (r: string)
    ensures |r| <= |s|
    ensures lo <= hi <= |s| ==> r == s[lo..hi]
    ensures |s| <= lo ==> r == []
    ensures lo <= hi ==> |r| <= hi - lo
  {
    var a := if lo < |s| then lo else |s|;
    var b := if hi < |s| then hi else |s|;
    if b <= a then [] else s[a..b]
  }

  /** Python's str.replace(old, new) for single characters. */
  function ReplaceChar(s: string, from: char, to: char): (r: string)
    ensures |r| == |s|
    ensures forall i :: 0 <= i < |s| ==> r[i] == (if s[i] == from then to else s[i])
    ensures from != to ==> from !in r
  {
    seq(|s|, i requires 0 <= i < |s| => if s[i] == from then to else s[i])
  }
}
