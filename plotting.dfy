/** The mosaic layout of PyASL's figure helper (pyasl/utils/plotting.py,
    `get_plot_array`): the slices of an (X, Y, Z) volume are tiled row by row
    into a `winf[0]` by `winf[1]` grid of X by Y tiles. Drawing and saving
    the figure is not part of the model. */
module Plotting {
  import opened Common

  /** data[x, y, z] of a flat (X, Y, Z) volume in C order. */
  function VoxelIndex(ny: nat, nz: nat, x: nat, y: nat, z: nat): nat {
    (x * ny + y) * nz + z
  }

  lemma {:induction false} VoxelIndexInRange(nx: nat, ny: nat, nz: nat, x: nat, y: nat, z: nat)
    requires x < nx && y < ny && z < nz
    ensures VoxelIndex(ny, nz, x, y, z) < nx * ny * nz
  {
    assert x * ny + y < nx * ny by {
      assert x * ny + y < x * ny + ny == (x + 1) * ny;
      assert (x + 1) * ny <= nx * ny by {
        MulLe(x + 1, nx, ny);
      }
    }
    var a := x * ny + y;
    assert a * nz + z < (a + 1) * nz;
    MulLe(a + 1, nx * ny, nz);
  }

  lemma MulLe(a: nat, b: nat, c: nat)
    requires a <= b
    ensures a * c <= b * c
  {
  }

  /** Division is determined by quotient and remainder. */
  lemma DivUnique(a: nat, n: nat, q: nat, r: nat)
    requires n > 0 && r < n && a == q * n + r
    ensures a / n == q && a % n == r
  {
    var q', r' := a / n, a % n;
    if q' > q {
      MulLe(q + 1, q', n);
    } else if q' < q {
      MulLe(q' + 1, q, n);
    }
  }

  /** A cell left of column w * n lies in a tile column below w. */
  lemma DivBelow(a: nat, n: nat, w: nat)
    requires n > 0 && a < w * n
    ensures a / n < w
  {
    if a / n >= w {
      MulLe(w, a / n, n);
    }
  }

  /** A tile row inside the grid holds only tiles numbered below w * n. */
  lemma BelowOfDiv(a: nat, n: nat, w: nat)
    requires n > 0 && a / n < w
    ensures a < w * n
  {
    MulLe(a / n + 1, w, n);
  }

  /** The tile a target cell lies in, numbered row by row. */
  function TileOf(nx: nat, ny: nat, w1: nat, row: nat, col: nat): nat
    requires nx > 0 && ny > 0
  {
    (row / nx) * w1 + col / ny
  }

  /** What the finished mosaic holds at (row, col): voxel (row mod X,
      col mod Y) of the slice numbered like the cell's tile, or 0 for a tile
      with no slice. */
  function Mosaic(data: seq<real>, nx: nat, ny: nat, nz: nat, w1: nat, row: nat, col: nat): real
    requires |data| == nx * ny * nz && nx > 0 && ny > 0 && col < w1 * ny
  {
    var t := TileOf(nx, ny, w1, row, col);
    if t < nz then
      VoxelIndexInRange(nx, ny, nz, row % nx, col % ny, t);
      data[VoxelIndex(ny, nz, row % nx, col % ny, t)]
    else 0.0
  }

  /** Every cell of a w0 by w1 grid lies in a tile numbered below w0 * w1. */
  lemma TileBelowGrid(nx: nat, ny: nat, w0: nat, w1: nat, row: nat, col: nat)
    requires nx > 0 && ny > 0 && row < w0 * nx && col < w1 * ny
    ensures TileOf(nx, ny, w1, row, col) < w0 * w1
  {
    var p, q := row / nx, col / ny;
    DivBelow(row, nx, w0);
    DivBelow(col, ny, w1);
    assert p * w1 + q < (p + 1) * w1;
    MulLe(p + 1, w0, w1);
  }

  /** Slice ni goes to tile (ni div w1, ni mod w1): the cell of its voxel
      (x, y) is the only cell of tile ni at offset (x, y). */
  lemma TileCell(nx: nat, ny: nat, w1: nat, ni: nat, x: nat, y: nat, row: nat, col: nat)
    requires nx > 0 && ny > 0 && w1 > 0 && x < nx && y < ny && col < w1 * ny
    ensures (TileOf(nx, ny, w1, row, col) == ni && row % nx == x && col % ny == y) <==>
      (row == (ni / w1) * nx + x && col == (ni % w1) * ny + y)
  {
    if row == (ni / w1) * nx + x && col == (ni % w1) * ny + y {
      TileCellOf(nx, ny, w1, ni, x, y);
    }
    if TileOf(nx, ny, w1, row, col) == ni && row % nx == x && col % ny == y {
      TileCellFrom(nx, ny, w1, row, col);
    }
  }

  /** A cell lies at its own offset of its own tile. */
  lemma TileCellFrom(nx: nat, ny: nat, w1: nat, row: nat, col: nat)
    requires nx > 0 && ny > 0 && w1 > 0 && col < w1 * ny
    ensures var ni := TileOf(nx, ny, w1, row, col);
      row == (ni / w1) * nx + row % nx && col == (ni % w1) * ny + col % ny
  {
    var p, q := row / nx, col / ny;
    DivBelow(col, ny, w1);
    DivUnique(p * w1 + q, w1, p, q);
    assert row == p * nx + row % nx;
    assert col == q * ny + col % ny;
  }

  /** The cell at offset (x, y) of tile ni lies in tile ni at that offset. */
  lemma TileCellOf(nx: nat, ny: nat, w1: nat, ni: nat, x: nat, y: nat)
    requires nx > 0 && ny > 0 && w1 > 0 && x < nx && y < ny
    ensures var row, col := (ni / w1) * nx + x, (ni % w1) * ny + y;
      TileOf(nx, ny, w1, row, col) == ni && row % nx == x && col % ny == y
  {
    var row, col := (ni / w1) * nx + x, (ni % w1) * ny + y;
    DivUnique(row, nx, ni / w1, x);
    DivUnique(col, ny, ni % w1, y);
  }

  /** The cell at offset (x, y) of tile (pi, qi) lies inside the target. */
  lemma CellInTarget(nx: nat, ny: nat, w0: nat, w1: nat, pi: nat, qi: nat, x: nat, y: nat)
    requires pi < w0 && qi < w1 && x < nx && y < ny
    ensures pi * nx + x < w0 * nx && qi * ny + y < w1 * ny
  {
    MulLe(pi + 1, w0, nx);
    MulLe(qi + 1, w1, ny);
  }

  /** The cells already filled: tiles before ni, and the cells of tile ni
      before offset (x, y) in row-major order. */
  predicate Done(nx: nat, ny: nat, w1: nat, ni: nat, x: nat, y: nat, row: nat, col: nat)
    requires nx > 0 && ny > 0
  {
    var t := TileOf(nx, ny, w1, row, col);
    t < ni || (t == ni && (row % nx < x || (row % nx == x && col % ny < y)))
  }

  /** `np.floor(ni / winf[1])` raises ZeroDivisionError when winf[1] is 0
      (there is a slice to place); a slice whose tile row is past the grid
      raises numpy's broadcast ValueError unless its tile has at most one row
      of pixels. */
  predicate Fails(nx: nat, nz: nat, w0: nat, w1: nat) {
    (nz > 0 && w1 == 0) || (w1 > 0 && nz > w0 * w1 && nx >= 2)
  }

  /** get_plot_array. */
  method GetPlotArray(data: seq<real>, nx: nat, ny: nat, nz: nat, w0: nat, w1: nat) returns (r: Result<array2<real>>)
    requires |data| == nx * ny * nz
    ensures r.Err? <==> Fails(nx, nz, w0, w1)
    ensures r.Ok? ==> fresh(r.value) && r.value.Length0 == w0 * nx && r.value.Length1 == w1 * ny
    ensures r.Ok? && nx > 0 && ny > 0 ==> forall row, col :: 0 <= row < w0 * nx && 0 <= col < w1 * ny ==>
      r.value[row, col] == Mosaic(data, nx, ny, nz, w1, row, col)
  {
    var target := new real[w0 * nx, w1 * ny]((i, j) => 0.0);
    if nx == 0 || ny == 0 {
      if nz > 0 && w1 == 0 {
        return Err(ZeroDivisionError("ni / winf[1]"));
      }
      if w1 > 0 && nz > w0 * w1 && nx >= 2 {
        return Err(ValueError("could not broadcast input array"));
      }
      return Ok(target);
    }
    var ni := 0;
    while ni < nz
      invariant ni <= nz
      invariant w1 == 0 ==> ni == 0
      invariant w1 > 0 && nx >= 2 ==> ni <= w0 * w1
      invariant forall row, col :: 0 <= row < w0 * nx && 0 <= col < w1 * ny ==>
        target[row, col] == if Done(nx, ny, w1, ni, 0, 0, row, col) then Mosaic(data, nx, ny, nz, w1, row, col) else 0.0
    {
      if w1 == 0 {
        return Err(ZeroDivisionError("ni / winf[1]"));
      }
      var pi := ni / w1;
      var qi := ni - pi * w1;
      if pi >= w0 {
        if nx >= 2 {
          assert ni >= w0 * w1 by {
            MulLe(w0, pi, w1);
          }
          return Err(ValueError("could not broadcast input array"));
        }
        PastGridUnchanged(nx, ny, w0, w1, ni);
      } else {
        BelowOfDiv(ni, w1, w0);
        FillTile(data, nx, ny, nz, w0, w1, ni, target);
      }
      ni := ni + 1;
    }
    if w1 > 0 && nz > w0 * w1 && nx >= 2 {
      assert false;
    }
    r := Ok(target);
  }

  /** A slice past the last tile row (possible only when X is 1) writes
      nothing inside the target. */
  lemma PastGridUnchanged(nx: nat, ny: nat, w0: nat, w1: nat, ni: nat)
    requires nx > 0 && ny > 0 && w1 > 0 && ni / w1 >= w0
    ensures forall row, col :: 0 <= row < w0 * nx && 0 <= col < w1 * ny ==>
      Done(nx, ny, w1, ni + 1, 0, 0, row, col) == Done(nx, ny, w1, ni, 0, 0, row, col)
  {
    MulLe(w0, ni / w1, w1);
    forall row, col | 0 <= row < w0 * nx && 0 <= col < w1 * ny
      ensures TileOf(nx, ny, w1, row, col) < ni
    {
      TileBelowGrid(nx, ny, w0, w1, row, col);
    }
  }

  /** The two nested loops writing slice ni into its tile. */
  method FillTile(data: seq<real>, nx: nat, ny: nat, nz: nat, w0: nat, w1: nat, ni: nat, target: array2<real>)
    requires |data| == nx * ny * nz && nx > 0 && ny > 0 && w1 > 0 && ni < nz && ni / w1 < w0
    requires target.Length0 == w0 * nx && target.Length1 == w1 * ny
    requires forall row, col :: 0 <= row < w0 * nx && 0 <= col < w1 * ny ==>
      target[row, col] == if Done(nx, ny, w1, ni, 0, 0, row, col) then Mosaic(data, nx, ny, nz, w1, row, col) else 0.0
    modifies target
    ensures forall row, col :: 0 <= row < w0 * nx && 0 <= col < w1 * ny ==>
      target[row, col] == if Done(nx, ny, w1, ni + 1, 0, 0, row, col) then Mosaic(data, nx, ny, nz, w1, row, col) else 0.0
  {
    var pi, qi := ni / w1, ni % w1;
    var x := 0;
    while x < nx
      invariant x <= nx
      invariant forall row, col :: 0 <= row < w0 * nx && 0 <= col < w1 * ny ==>
        target[row, col] == if Done(nx, ny, w1, ni, x, 0, row, col) then Mosaic(data, nx, ny, nz, w1, row, col) else 0.0
    {
      var y := 0;
      while y < ny
        invariant y <= ny
        invariant forall row, col :: 0 <= row < w0 * nx && 0 <= col < w1 * ny ==>
          target[row, col] == if Done(nx, ny, w1, ni, x, y, row, col) then Mosaic(data, nx, ny, nz, w1, row, col) else 0.0
      {
        CellInTarget(nx, ny, w0, w1, pi, qi, x, y);
        VoxelIndexInRange(nx, ny, nz, x, y, ni);
        var r0, c0 := pi * nx + x, qi * ny + y;
        TileCell(nx, ny, w1, ni, x, y, r0, c0);
        target[r0, c0] := data[VoxelIndex(ny, nz, x, y, ni)];
        forall row, col | 0 <= row < w0 * nx && 0 <= col < w1 * ny
          ensures Done(nx, ny, w1, ni, x, y + 1, row, col) ==
            (Done(nx, ny, w1, ni, x, y, row, col) || (row == r0 && col == c0))
        {
          TileCell(nx, ny, w1, ni, x, y, row, col);
        }
        y := y + 1;
      }
      x := x + 1;
    }
  }

  /** When the grid has a tile for every slice, every slice appears whole:
      voxel (x, y) of slice ni sits at row (ni div w1) * X + x, column
      (ni mod w1) * Y + y. */
  lemma SliceInItsTile(data: seq<real>, nx: nat, ny: nat, nz: nat, w0: nat, w1: nat, ni: nat, x: nat, y: nat, row: nat, col: nat)
    requires |data| == nx * ny * nz && w1 > 0 && ni < nz && nz <= w0 * w1 && x < nx && y < ny
    requires row == (ni / w1) * nx + x && col == (ni % w1) * ny + y
    ensures row < w0 * nx && col < w1 * ny
    ensures VoxelIndex(ny, nz, x, y, ni) < |data|
    ensures Mosaic(data, nx, ny, nz, w1, row, col) == data[VoxelIndex(ny, nz, x, y, ni)]
  {
    DivBelow(ni, w1, w0);
    CellInTarget(nx, ny, w0, w1, ni / w1, ni % w1, x, y);
    TileCellOf(nx, ny, w1, ni, x, y);
    MosaicAt(data, nx, ny, nz, w1, ni, x, y, row, col);
  }

  /** A cell of tile ni at offset (x, y) shows voxel (x, y) of slice ni. */
  lemma MosaicAt(data: seq<real>, nx: nat, ny: nat, nz: nat, w1: nat, ni: nat, x: nat, y: nat, row: nat, col: nat)
    requires |data| == nx * ny * nz && x < nx && y < ny && ni < nz && col < w1 * ny
    requires TileOf(nx, ny, w1, row, col) == ni && row % nx == x && col % ny == y
    ensures VoxelIndex(ny, nz, x, y, ni) < |data|
    ensures Mosaic(data, nx, ny, nz, w1, row, col) == data[VoxelIndex(ny, nz, x, y, ni)]
  {
    VoxelIndexInRange(nx, ny, nz, x, y, ni);
  }
}
