/** `find_piezo_coord`: the order in which the export walks the curves of an
    `nx` × `ny` map. Curve numbers start as `arange(nx * ny)` laid out in `ny`
    rows of `nx`; a JPK force map, recorded in a serpentine, has every odd
    row reversed; the grid is mirrored left-right, turned a quarter to the
    left and flattened row by row. */
module Export {
  import opened Wrappers
  import opened Errors
  import ArdfImages
  import PyOps

  /** A two-dimensional array of curve numbers, row by row. */
  type Grid = seq<seq<nat>>

  /** `np.arange(nx * ny).reshape((ny, nx))`. */
  function Base(nx: nat, ny: nat): (g: Grid)
    ensures ArdfImages.Shaped(g, ny, nx)
  {
    seq(ny, r requires 0 <= r < ny => seq(nx, c requires 0 <= c < nx => r * nx + c))
  }

  /** `[row[::(-1)**i] for i, row in enumerate(g)]`: odd rows reversed. */
  function Snake(g: Grid): (r: Grid)
    ensures |r| == |g| && forall i :: 0 <= i < |g| ==> |r[i]| == |g[i]|
  {
    seq(|g|, i requires 0 <= i < |g| => if i % 2 == 0 then g[i] else PyOps.Reversed(g[i]))
  }

  /** `np.fliplr(g)`: every row reversed. */
  function FlipLR(g: Grid): (r: Grid)
    ensures |r| == |g| && forall i :: 0 <= i < |g| ==> |r[i]| == |g[i]|
  {
    seq(|g|, i requires 0 <= i < |g| => PyOps.Reversed(g[i]))
  }

  /** `np.rot90(g)` of a grid with `cols` columns: a quarter turn to the left,
      so row `i` of the result is column `cols - 1 - i` of `g`. */
  function Rot90(g: Grid, cols: nat): (r: Grid)
    requires ArdfImages.Shaped(g, |g|, cols)
    ensures ArdfImages.Shaped(r, cols, |g|)
  {
    seq(cols, i requires 0 <= i < cols => seq(|g|, j requires 0 <= j < |g| => g[j][cols - 1 - i]))
  }

  const JpkForceMap: string := "jpk-force-map"

  /** The grid and its row-major flattening. */
  function PiezoMap(nx: nat, ny: nat, fileExt: string): (Grid, seq<nat>) {
    var base := Base(nx, ny);
    var coords := if fileExt == JpkForceMap then Snake(base) else base;
    var map2D := Rot90(FlipLR(coords), nx);
    (map2D, ArdfImages.Flatten(map2D))
  }

  /** `find_piezo_coord(nx, ny, file_ext)`. For a JPK force map the rows are
      rebuilt with `np.asarray` from a list comprehension; with no rows the
      list is empty, the array is one-dimensional, and `np.fliplr` raises a
      ValueError. In every other case the result is `PiezoMap`: reshaping
      `arange(0)` to `(0, nx)` keeps two dimensions. */
  function FindPiezoCoord(nx: nat, ny: nat, fileExt: string): (r: Result<(Grid, seq<nat>), Error>)
    ensures r.Failure? <==> fileExt == JpkForceMap && ny == 0
    ensures r.Failure? ==> r.error == BadShape
  {
    if fileExt == JpkForceMap && ny == 0 then Failure(BadShape)
    else Success(PiezoMap(nx, ny, fileExt))
  }

  /** The grid is `nx` × `ny` and is the flat list read `ny` at a time, and
      the flat list is a permutation of `0 .. nx * ny - 1`. */
  predicate PiezoFacts(nx: nat, ny: nat, p: (Grid, seq<nat>)) {
    && ArdfImages.Shaped(p.0, nx, ny) && |p.1| == nx * ny
    && (forall i, j :: 0 <= i < nx && 0 <= j < ny ==>
          (PyOps.PlaceBelow(i, j, nx, ny); p.1[i * ny + j] == p.0[i][j]))
    && (forall v :: 0 <= v < nx * ny ==> v in p.1)
    && (forall k, l :: 0 <= k < l < |p.1| ==> p.1[k] != p.1[l])
  }

  /** Whenever `find_piezo_coord` returns, its result has `PiezoFacts`. */
  lemma FindPiezoCoordMeaning(nx: nat, ny: nat, fileExt: string)
    ensures FindPiezoCoord(nx, ny, fileExt).Success? ==> PiezoFacts(nx, ny, FindPiezoCoord(nx, ny, fileExt).value)
  {
    if FindPiezoCoord(nx, ny, fileExt).Success? {
      PiezoMapMeaning(nx, ny, fileExt);
    }
  }

  /** The same facts about the map itself. */
  lemma PiezoMapMeaning(nx: nat, ny: nat, fileExt: string)
    ensures PiezoFacts(nx, ny, PiezoMap(nx, ny, fileExt))
  {
    var p := PiezoMap(nx, ny, fileExt);
    PiezoGrid(nx, ny, fileExt);
    GridFacts(p.0, p.1, nx, ny, fileExt == JpkForceMap);
  }

  /** Any `nx` × `ny` grid of transposed curve numbers, with its flattening,
      has `PiezoFacts`. */
  lemma GridFacts(m: Grid, lin: seq<nat>, nx: nat, ny: nat, snake: bool)
    requires ArdfImages.Shaped(m, nx, ny) && lin == ArdfImages.Flatten(m)
    requires forall i, j :: 0 <= i < nx && 0 <= j < ny ==> m[i][j] == Coord(nx, j, i, snake)
    ensures PiezoFacts(nx, ny, (m, lin))
  {
    ArdfImages.FlattenLength(m, nx, ny);
    forall i, j | 0 <= i < nx && 0 <= j < ny ensures i * ny + j < |lin| && lin[i * ny + j] == m[i][j] {
      ArdfImages.FlattenIndex(m, nx, ny, i, j);
    }
    GridWalk(m, nx, ny, snake);
    WalkDistinct(lin, nx, ny, snake);
    WalkCovers(lin, nx, ny, snake);
  }

  /** The curve number at column `col` of row `row`: serpentine maps run odd
      rows backwards. */
  function Coord(nx: nat, row: nat, col: nat, snake: bool): nat
    requires col < nx
  {
    row * nx + (if snake && row % 2 == 1 then nx - 1 - col else col)
  }

  /** The base grid is `arange` reshaped: flattened, it counts up from 0. */
  lemma BaseIsArange(nx: nat, ny: nat)
    ensures ArdfImages.Flatten(Base(nx, ny)) == seq(nx * ny, k requires 0 <= k < nx * ny => k)
  {
    var b := Base(nx, ny);
    var f := ArdfImages.Flatten(b);
    ArdfImages.FlattenLength(b, ny, nx);
    forall k | 0 <= k < nx * ny ensures f[k] == k {
      PyOps.DivBelow(k, ny, nx);
      var q, r := k / nx, k % nx;
      PyOps.Euclid(k, nx);
      ArdfImages.FlattenIndex(b, ny, nx, q, r);
      assert f[q * nx + r] == b[q][r] == q * nx + r;
    }
  }

  /** Mirroring left-right and turning left is transposing. */
  lemma RotFlipIsTranspose(g: Grid, rows: nat, cols: nat)
    requires ArdfImages.Shaped(g, rows, cols)
    ensures ArdfImages.Shaped(Rot90(FlipLR(g), cols), cols, rows)
    ensures forall i, j :: 0 <= i < cols && 0 <= j < rows ==> Rot90(FlipLR(g), cols)[i][j] == g[j][i]
  {
  }

  /** The grid before the turn holds `Coord` at every place. */
  lemma CoordsMeaning(nx: nat, ny: nat, snake: bool)
    ensures var g := if snake then Snake(Base(nx, ny)) else Base(nx, ny);
      ArdfImages.Shaped(g, ny, nx) &&
      forall r, c :: 0 <= r < ny && 0 <= c < nx ==> g[r][c] == Coord(nx, r, c, snake)
  {
  }

  /** One entry of the result: entry `(i, j)` of the grid is the curve at
      column `i` of row `j`, and it is also at `i * ny + j` of the flat list. */
  lemma PiezoAt(nx: nat, ny: nat, fileExt: string, i: nat, j: nat)
    requires i < nx && j < ny
    ensures var r := PiezoMap(nx, ny, fileExt);
      && ArdfImages.Shaped(r.0, nx, ny) && |r.1| == nx * ny
      && i * ny + j < |r.1| && r.1[i * ny + j] == r.0[i][j] == Coord(nx, j, i, fileExt == JpkForceMap)
  {
    var snake := fileExt == JpkForceMap;
    var coords := if snake then Snake(Base(nx, ny)) else Base(nx, ny);
    CoordsMeaning(nx, ny, snake);
    RotFlipIsTranspose(coords, ny, nx);
    var m := Rot90(FlipLR(coords), nx);
    ArdfImages.FlattenLength(m, nx, ny);
    ArdfImages.FlattenIndex(m, nx, ny, i, j);
  }

  /** The returned grid is `nx` × `ny`, its entry `(i, j)` is the curve at
      column `i` of row `j` (the base grid transposed), and the flat list
      has `nx * ny` entries. */
  lemma PiezoGrid(nx: nat, ny: nat, fileExt: string)
    ensures var (m, lin) := PiezoMap(nx, ny, fileExt);
      && ArdfImages.Shaped(m, nx, ny) && |lin| == nx * ny
      && forall i, j :: 0 <= i < nx && 0 <= j < ny ==> m[i][j] == Coord(nx, j, i, fileExt == JpkForceMap)
  {
    var (m, lin) := PiezoMap(nx, ny, fileExt);
    ArdfImages.FlattenLength(m, nx, ny);
    forall i, j | 0 <= i < nx && 0 <= j < ny ensures m[i][j] == Coord(nx, j, i, fileExt == JpkForceMap) {
      PiezoAt(nx, ny, fileExt, i, j);
    }
  }

  /** `lin` lists the curves column by column: position `k` holds the
      curve at column `k div ny` of row `k mod ny`. */
  predicate Walk(lin: seq<nat>, nx: nat, ny: nat, snake: bool) {
    |lin| == nx * ny && (ny > 0 ==> forall k :: 0 <= k < |lin| ==> k / ny < nx && lin[k] == Coord(nx, k % ny, k / ny, snake))
  }

  /** Position `k` of the flat list is the curve at column `k div ny` of row
      `k mod ny`. */
  lemma PiezoLinear(nx: nat, ny: nat, fileExt: string)
    ensures Walk(PiezoMap(nx, ny, fileExt).1, nx, ny, fileExt == JpkForceMap)
  {
    var r := PiezoMap(nx, ny, fileExt);
    PiezoGrid(nx, ny, fileExt);
    GridWalk(r.0, nx, ny, fileExt == JpkForceMap);
  }

  /** An `nx` × `ny` grid holding the transposed curve numbers flattens to
      a column-by-column walk. */
  lemma GridWalk(m: Grid, nx: nat, ny: nat, snake: bool)
    requires ArdfImages.Shaped(m, nx, ny)
    requires forall i, j :: 0 <= i < nx && 0 <= j < ny ==> m[i][j] == Coord(nx, j, i, snake)
    ensures Walk(ArdfImages.Flatten(m), nx, ny, snake)
  {
    var lin := ArdfImages.Flatten(m);
    ArdfImages.FlattenLength(m, nx, ny);
    if ny > 0 {
      forall k | 0 <= k < |lin| ensures k / ny < nx && lin[k] == Coord(nx, k % ny, k / ny, snake) {
        GridWalkAt(m, nx, ny, snake, k);
      }
    }
  }

  lemma GridWalkAt(m: Grid, nx: nat, ny: nat, snake: bool, k: nat)
    requires ArdfImages.Shaped(m, nx, ny) && k < nx * ny
    requires forall i, j :: 0 <= i < nx && 0 <= j < ny ==> m[i][j] == Coord(nx, j, i, snake)
    ensures ny > 0 && k / ny < nx && k < |ArdfImages.Flatten(m)|
    ensures ArdfImages.Flatten(m)[k] == Coord(nx, k % ny, k / ny, snake)
  {
    PyOps.DivBelow(k, nx, ny);
    PyOps.Euclid(k, ny);
    var i: nat, j: nat := k / ny, k % ny;
    ArdfImages.FlattenIndex(m, nx, ny, i, j);
    assert ArdfImages.Flatten(m)[i * ny + j] == m[i][j];
  }

  /** For any extension but a JPK force map, position `k` of the flat list
      is `(k mod ny) * nx + k div ny`. */
  lemma PiezoPlain(nx: nat, ny: nat, fileExt: string)
    requires fileExt != JpkForceMap
    ensures var lin := PiezoMap(nx, ny, fileExt).1;
      ny > 0 ==> forall k :: 0 <= k < |lin| ==> lin[k] == (k % ny) * nx + k / ny
  {
    PiezoLinear(nx, ny, fileExt);
    WalkPlain(PiezoMap(nx, ny, fileExt).1, nx, ny);
  }

  /** A walk without the serpentine is the transpose of `arange`. */
  lemma WalkPlain(lin: seq<nat>, nx: nat, ny: nat)
    requires Walk(lin, nx, ny, false)
    ensures ny > 0 ==> forall k :: 0 <= k < |lin| ==> lin[k] == (k % ny) * nx + k / ny
  {
  }

  /** A place of the grid is found back from its curve number. */
  lemma CoordInverse(nx: nat, ny: nat, row: nat, col: nat, snake: bool)
    requires row < ny && col < nx
    ensures Coord(nx, row, col, snake) < nx * ny
    ensures Coord(nx, row, col, snake) / nx == row
    ensures var c := Coord(nx, row, col, snake) % nx; col == if snake && row % 2 == 1 then nx - 1 - c else c
  {
    var c := if snake && row % 2 == 1 then nx - 1 - col else col;
    PyOps.DivModOf(row, c, nx);
    PyOps.PlaceBelow(row, c, ny, nx);
    assert row * nx + c < nx * ny;
  }

  /** The flat list is a permutation of `0 .. nx * ny - 1`: every value is
      in range, none occurs twice, and every one occurs. */
  lemma PiezoPermutation(nx: nat, ny: nat, fileExt: string)
    ensures var lin := PiezoMap(nx, ny, fileExt).1;
      && |lin| == nx * ny
      && (forall k :: 0 <= k < |lin| ==> lin[k] < nx * ny)
      && (forall k, l :: 0 <= k < l < |lin| ==> lin[k] != lin[l])
      && (forall v :: 0 <= v < nx * ny ==> v in lin)
  {
    var lin := PiezoMap(nx, ny, fileExt).1;
    PiezoLinear(nx, ny, fileExt);
    WalkDistinct(lin, nx, ny, fileExt == JpkForceMap);
    WalkCovers(lin, nx, ny, fileExt == JpkForceMap);
  }

  /** A column-by-column walk stays in range and meets no curve twice. */
  lemma WalkDistinct(lin: seq<nat>, nx: nat, ny: nat, snake: bool)
    requires Walk(lin, nx, ny, snake)
    ensures forall k :: 0 <= k < |lin| ==> lin[k] < nx * ny
    ensures forall k, l :: 0 <= k < l < |lin| ==> lin[k] != lin[l]
  {
    forall k | 0 <= k < |lin| ensures lin[k] < nx * ny {
      WalkBelow(nx, ny, snake, k);
    }
    forall k, l | 0 <= k < l < |lin| ensures lin[k] != lin[l] {
      WalkApart(nx, ny, snake, k, l);
    }
  }

  /** The curve met at step `k` is below `nx * ny`. */
  lemma WalkBelow(nx: nat, ny: nat, snake: bool, k: nat)
    requires k < nx * ny
    ensures ny > 0 && k / ny < nx && Coord(nx, k % ny, k / ny, snake) < nx * ny
  {
    PyOps.DivBelow(k, nx, ny);
    var row: nat, col: nat := k % ny, k / ny;
    CoordInverse(nx, ny, row, col, snake);
  }

  /** Different steps meet different curves. */
  lemma WalkApart(nx: nat, ny: nat, snake: bool, k: nat, l: nat)
    requires k < l < nx * ny
    ensures ny > 0 && k / ny < nx && l / ny < nx
    ensures Coord(nx, k % ny, k / ny, snake) != Coord(nx, l % ny, l / ny, snake)
  {
    PyOps.DivBelow(k, nx, ny);
    PyOps.DivBelow(l, nx, ny);
    var r1: nat, c1: nat, r2: nat, c2: nat := k % ny, k / ny, l % ny, l / ny;
    PyOps.DivModUnique(k, l, ny);
    if Coord(nx, r1, c1, snake) == Coord(nx, r2, c2, snake) {
      CoordInjective(nx, ny, r1, c1, r2, c2, snake);
      assert false;
    }
  }

  /** A column-by-column walk meets every curve. */
  lemma WalkCovers(lin: seq<nat>, nx: nat, ny: nat, snake: bool)
    requires Walk(lin, nx, ny, snake)
    ensures forall v :: 0 <= v < nx * ny ==> v in lin
  {
    forall v | 0 <= v < nx * ny ensures v in lin {
      var row, col := PlaceOf(nx, ny, v, snake);
      var at: nat := col * ny + row;
      PyOps.PlaceBelow(col, row, nx, ny);
      PyOps.DivModOf(col, row, ny);
      assert lin[at] == v;
    }
  }

  /** Different places hold different curve numbers. */
  lemma CoordInjective(nx: nat, ny: nat, r1: nat, c1: nat, r2: nat, c2: nat, snake: bool)
    requires r1 < ny && c1 < nx && r2 < ny && c2 < nx
    requires Coord(nx, r1, c1, snake) == Coord(nx, r2, c2, snake)
    ensures r1 == r2 && c1 == c2
  {
    CoordInverse(nx, ny, r1, c1, snake);
    CoordInverse(nx, ny, r2, c2, snake);
  }

  /** Every curve number below `nx * ny` is held by some place of the grid. */
  lemma PlaceOf(nx: nat, ny: nat, v: nat, snake: bool) returns (row: nat, col: nat)
    requires v < nx * ny
    ensures row < ny && col < nx && Coord(nx, row, col, snake) == v
  {
    PyOps.DivBelow(v, ny, nx);
    var c: nat := v % nx;
    row := v / nx;
    col := if snake && row % 2 == 1 then nx - 1 - c else c;
    PyOps.Euclid(v, nx);
    assert (if snake && row % 2 == 1 then nx - 1 - col else col) == c;
  }
}
