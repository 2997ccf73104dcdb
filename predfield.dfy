/**
 * The predictive displacement field of inc/libSTB/PredField.h, restricted
 * to what that header itself computes: the x-major numbering of the
 * grid points, the sizes the three constructors give to the grid and to
 * the field, the parameters of the displacement map (bin index
 * i = m * dx + c) and the shape check on a field loaded from a file.
 * Filling the grid and computing the field are done in a file that is
 * not part of this model; here the grid and a computed field are
 * zero-filled 3 x n_tot matrices of the right shape.
 */
module PredFields {
  import opened LibM
  import opened STBCommons
  import opened Matrices

  // ---------------------------------------------------------------------
  // C++ arithmetic used by the constructors
  // ---------------------------------------------------------------------

  /** Conversion of a double to an int: truncation toward zero. */
  function Trunc(x: real): (n: int)
    ensures 0.0 <= x ==> 0 <= n && n as real <= x < n as real + 1.0
    ensures x < 0.0 ==> n <= 0 && n as real - 1.0 < x <= n as real
  {
    if 0.0 <= x then x.Floor else -((-x).Floor)
  }

  /** Division of two ints: the quotient is truncated toward zero. */
  function TruncDiv(a: int, b: int): (q: int)
    requires 0 < b
    ensures 0 <= a ==> 0 <= a - b * q < b
    ensures a < 0 ==> -b < a - b * q <= 0
  {
    if 0 <= a then a / b else -((-a) / b)
  }

  // ---------------------------------------------------------------------
  // Grid numbering
  // ---------------------------------------------------------------------

  /**
   * MapGridIndexToID: grid point (ix, iy, iz) of an nx x ny x nz grid has
   * number ix*ny*nz + iy*nz + iz, i.e. z runs fastest and x slowest. For
   * indices inside the grid the number lies in [0, nx*ny*nz) and the three
   * indices are recovered from it, so distinct points have distinct numbers.
   */
  function MapGridIndexToID(n_xyz: seq<int>, ix: int, iy: int, iz: int): (id: int)
    requires |n_xyz| == 3
    ensures 0 <= ix < n_xyz[0] && 0 <= iy < n_xyz[1] && 0 <= iz < n_xyz[2] ==>
      0 <= id < n_xyz[0] * n_xyz[1] * n_xyz[2]
      && (id / n_xyz[2]) / n_xyz[1] == ix
      && (id / n_xyz[2]) % n_xyz[1] == iy
      && id % n_xyz[2] == iz
  {
    if 0 <= ix < n_xyz[0] && 0 <= iy < n_xyz[1] && 0 <= iz < n_xyz[2] then
      GridIDFacts(n_xyz[0], n_xyz[1], n_xyz[2], ix, iy, iz);
      ix * n_xyz[1] * n_xyz[2] + iy * n_xyz[2] + iz
    else
      ix * n_xyz[1] * n_xyz[2] + iy * n_xyz[2] + iz
  }

  /** The x-major number is the row-major position of (ix*ny + iy, iz). */
  lemma GridIDFacts(nx: nat, ny: nat, nz: nat, ix: nat, iy: nat, iz: nat)
    requires ix < nx && iy < ny && iz < nz
    ensures 0 <= ix * ny * nz + iy * nz + iz < nx * ny * nz
    ensures ((ix * ny * nz + iy * nz + iz) / nz) / ny == ix
    ensures ((ix * ny * nz + iy * nz + iz) / nz) % ny == iy
    ensures (ix * ny * nz + iy * nz + iz) % nz == iz
  {
    var a := ix * ny + iy;
    FlatIndexFacts(nx, ny, ix, iy);
    FlatIndexFacts(nx * ny, nz, a, iz);
    assert a * nz == ix * ny * nz + iy * nz;
  }

  /** Distinct grid points have distinct numbers. */
  lemma MapGridIndexInjective(n_xyz: seq<int>, ix: int, iy: int, iz: int, jx: int, jy: int, jz: int)
    requires |n_xyz| == 3
    requires 0 <= ix < n_xyz[0] && 0 <= iy < n_xyz[1] && 0 <= iz < n_xyz[2]
    requires 0 <= jx < n_xyz[0] && 0 <= jy < n_xyz[1] && 0 <= jz < n_xyz[2]
    requires MapGridIndexToID(n_xyz, ix, iy, iz) == MapGridIndexToID(n_xyz, jx, jy, jz)
    ensures ix == jx && iy == jy && iz == jz
  {
  }

  /** Every number in [0, nx*ny*nz) is the number of a grid point. */
  lemma MapGridIndexOnto(n_xyz: seq<int>, id: int)
    requires |n_xyz| == 3 && 0 <= n_xyz[0] && 0 <= n_xyz[1] && 0 <= n_xyz[2]
    requires 0 <= id < n_xyz[0] * n_xyz[1] * n_xyz[2]
    ensures 0 < n_xyz[1] && 0 < n_xyz[2]
    ensures var ix, iy, iz := (id / n_xyz[2]) / n_xyz[1], (id / n_xyz[2]) % n_xyz[1], id % n_xyz[2];
      0 <= ix < n_xyz[0] && 0 <= iy < n_xyz[1] && 0 <= iz < n_xyz[2]
      && MapGridIndexToID(n_xyz, ix, iy, iz) == id
  {
    var nx: nat, ny: nat, nz: nat := n_xyz[0], n_xyz[1], n_xyz[2];
    FlatIndexOnto(nx * ny, nz, id);
    var a := id / nz;
    FlatIndexOnto(nx, ny, a);
    var ix, iy, iz := a / ny, a % ny, id % nz;
    assert (ix * ny + iy) * nz == ix * ny * nz + iy * nz;
  }

  // ---------------------------------------------------------------------
  // Displacement map parameters
  // ---------------------------------------------------------------------

  /** _disp_map_res: map bins per unit of displacement over the radius. */
  const DISP_MAP_RES: int := 10

  /** _size = 4 * _disp_map_res * r + 1, the double truncated to an int. */
  function MapSize(r: real): int {
    Trunc(4.0 * (DISP_MAP_RES as real) * r + 1.0)
  }

  /** _m = (_size - 1) / (4 r), a double division. */
  function MapSlope(r: real): real
    requires r != 0.0
  {
    (MapSize(r) - 1) as real / (4.0 * r)
  }

  /** _c = (_size - 1) / 2, an int division stored in a double. */
  function MapCentre(r: real): real {
    TruncDiv(MapSize(r) - 1, 2) as real
  }

  /** The map index of displacement dx: i = m * dx + c. */
  function MapBin(r: real, dx: real): real
    requires r != 0.0
  {
    MapSlope(r) * dx + MapCentre(r)
  }

  /** k / (4 r) * (2 r) = k / 2 for a nonzero r. */
  lemma HalfSpan(k: real, r: real)
    requires r != 0.0
    ensures k / (4.0 * r) * (2.0 * r) == k / 2.0
    ensures k / (4.0 * r) * (-2.0 * r) == -(k / 2.0)
  {
    var q := k / (4.0 * r);
    assert q * (4.0 * r) == k;
    assert q * (2.0 * r) * 2.0 == k;
  }

  /**
   * For a positive radius the map has k + 1 bins, where k = floor(40 r).
   * Displacement -2r falls on bin 0 and +2r on the last bin k when k is
   * even; when k is odd both land half a bin below, because the centre
   * (_size - 1) / 2 is truncated.
   */
  lemma MapSpan(r: real)
    requires 0.0 < r
    ensures MapSize(r) == (40.0 * r).Floor + 1
    ensures var k := MapSize(r) - 1;
      0 <= k
      && MapBin(r, -2.0 * r) == (if k % 2 == 0 then 0.0 else -0.5)
      && MapBin(r, 2.0 * r) == (if k % 2 == 0 then k as real else k as real - 0.5)
  {
    var k := MapSize(r) - 1;
    assert 4.0 * (DISP_MAP_RES as real) * r + 1.0 == 40.0 * r + 1.0;
    assert (40.0 * r + 1.0).Floor == (40.0 * r).Floor + 1;
    HalfSpan(k as real, r);
    var h := TruncDiv(k, 2);
    assert MapCentre(r) == h as real;
    if k % 2 == 0 {
      assert k == 2 * h;
    } else {
      assert k == 2 * h + 1;
    }
  }

  /**
   * With 40 r an even integer 2q the map has 2q + 1 bins, displacement 0
   * is the middle bin q, and -2r and +2r are the first and the last bin.
   */
  lemma EvenMapEnds(r: real, q: nat)
    requires 0 < q && 40.0 * r == (2 * q) as real
    ensures MapSize(r) == 2 * q + 1
    ensures MapBin(r, -2.0 * r) == 0.0
    ensures MapBin(r, 0.0) == q as real
    ensures MapBin(r, 2.0 * r) == (MapSize(r) - 1) as real
  {
    assert 0.0 < r;
    assert (40.0 * r).Floor == 2 * q;
    MapSpan(r);
    assert (2 * q) % 2 == 0;
    assert TruncDiv(2 * q, 2) == q;
  }

  // ---------------------------------------------------------------------
  // The field object
  // ---------------------------------------------------------------------

  /** The sizes every constructor requires of n_xyz (at least 2 grid points per axis). */
  predicate GridCounts(n_xyz: seq<int>) {
    |n_xyz| == 3 && forall k :: 0 <= k < 3 ==> 2 <= n_xyz[k]
  }

  /** n_xyz[0] * n_xyz[1] * n_xyz[2], the number of grid points. */
  function GridTotal(n_xyz: seq<int>): (n: nat)
    requires GridCounts(n_xyz)
    ensures 8 <= n
  {
    var nx, ny, nz := n_xyz[0], n_xyz[1], n_xyz[2];
    MulMonotone(2, nx, ny);
    MulMonotone(4, nx * ny, nz);
    nx * ny * nz
  }

  class PredField<T> {
    /** The viewing volume; a copy of the caller's limits. */
    const limit: AxisLimit
    var n_xyz: seq<int>
    var n_tot: int
    /** Grid point coordinates, one column per grid point. */
    var grid: Matrix
    /** Particles of the previous and current frames. */
    var obj_list_prev: seq<T>
    var obj_list_curr: seq<T>
    var pt_list_prev: seq<Matrix>
    var pt_list_curr: seq<Matrix>
    /** Radius of the interrogation sphere. */
    var r: real
    var size: int
    var m: real
    var c: real
    /** Displacement of every grid point, one column per grid point. */
    var disp_field: Matrix

    /** The shapes and the map parameters every constructor establishes. */
    predicate Valid()
      reads this
    {
      GridCounts(n_xyz) && n_tot == GridTotal(n_xyz)
      && grid.Valid() && grid.rows == 3 && grid.cols == n_tot
      && disp_field.Valid() && disp_field.rows == 3 && disp_field.cols == n_tot
      && r != 0.0 && size == MapSize(r) && m == MapSlope(r) && c == MapCentre(r)
    }

    /** The predictive field of two lists of particles. */
    constructor FromObjects(lim: AxisLimit, n_xyz: seq<int>, obj_list_prev: seq<T>, obj_list_curr: seq<T>, r: real)
      requires GridCounts(n_xyz) && r != 0.0
      ensures Valid() && fresh(limit)
      ensures limit.x_min == lim.x_min && limit.x_max == lim.x_max
      ensures limit.y_min == lim.y_min && limit.y_max == lim.y_max
      ensures limit.z_min == lim.z_min && limit.z_max == lim.z_max
      ensures this.n_xyz == n_xyz && n_tot == n_xyz[0] * n_xyz[1] * n_xyz[2]
      ensures this.obj_list_prev == obj_list_prev && this.obj_list_curr == obj_list_curr
      ensures |pt_list_prev| == |obj_list_prev| && |pt_list_curr| == |obj_list_curr|
      ensures this.r == r
    {
      var l := new AxisLimit();
      l.Assign(lim);
      limit := l;
      this.n_xyz := n_xyz;
      n_tot := GridTotal(n_xyz);
      grid := Filled(3, GridTotal(n_xyz), 0.0);
      this.obj_list_prev := obj_list_prev;
      this.obj_list_curr := obj_list_curr;
      pt_list_prev := seq(|obj_list_prev|, _ => Filled(3, 1, 0.0));
      pt_list_curr := seq(|obj_list_curr|, _ => Filled(3, 1, 0.0));
      this.r := r;
      size := MapSize(r);
      m := MapSlope(r);
      c := MapCentre(r);
      disp_field := Filled(3, GridTotal(n_xyz), 0.0);
    }

    /** The predictive field of two lists of points; the object lists are a placeholder. */
    constructor FromPoints(lim: AxisLimit, n_xyz: seq<int>, pt_list_prev: seq<Matrix>, pt_list_curr: seq<Matrix>, r: real, useless: seq<T>)
      requires GridCounts(n_xyz) && r != 0.0
      ensures Valid() && fresh(limit)
      ensures limit.x_min == lim.x_min && limit.x_max == lim.x_max
      ensures limit.y_min == lim.y_min && limit.y_max == lim.y_max
      ensures limit.z_min == lim.z_min && limit.z_max == lim.z_max
      ensures this.n_xyz == n_xyz && n_tot == n_xyz[0] * n_xyz[1] * n_xyz[2]
      ensures obj_list_prev == useless && obj_list_curr == useless
      ensures this.pt_list_prev == pt_list_prev && this.pt_list_curr == pt_list_curr
      ensures this.r == r
    {
      var l := new AxisLimit();
      l.Assign(lim);
      limit := l;
      this.n_xyz := n_xyz;
      n_tot := GridTotal(n_xyz);
      grid := Filled(3, GridTotal(n_xyz), 0.0);
      obj_list_prev := useless;
      obj_list_curr := useless;
      this.pt_list_prev := pt_list_prev;
      this.pt_list_curr := pt_list_curr;
      this.r := r;
      size := MapSize(r);
      m := MapSlope(r);
      c := MapCentre(r);
      disp_field := Filled(3, GridTotal(n_xyz), 0.0);
    }

    /** The field read from a file, given here as the matrix that was read. */
    constructor FromFile(lim: AxisLimit, n_xyz: seq<int>, loaded: Matrix, r: real, useless: seq<T>)
      requires GridCounts(n_xyz) && r != 0.0
      requires loaded.Valid() && loaded.rows == 3 && loaded.cols == GridTotal(n_xyz)
      ensures Valid() && fresh(limit)
      ensures limit.x_min == lim.x_min && limit.x_max == lim.x_max
      ensures limit.y_min == lim.y_min && limit.y_max == lim.y_max
      ensures limit.z_min == lim.z_min && limit.z_max == lim.z_max
      ensures this.n_xyz == n_xyz && n_tot == n_xyz[0] * n_xyz[1] * n_xyz[2]
      ensures obj_list_prev == useless && obj_list_curr == useless
      ensures pt_list_prev == [] && pt_list_curr == []
      ensures this.r == r && disp_field == loaded
    {
      var l := new AxisLimit();
      l.Assign(lim);
      limit := l;
      this.n_xyz := n_xyz;
      n_tot := GridTotal(n_xyz);
      grid := Filled(3, GridTotal(n_xyz), 0.0);
      obj_list_prev := useless;
      obj_list_curr := useless;
      pt_list_prev := [];
      pt_list_curr := [];
      this.r := r;
      size := MapSize(r);
      m := MapSlope(r);
      c := MapCentre(r);
      disp_field := loaded;
    }

    /** getGrid: 3 x n_tot, one column of coordinates per grid point. */
    function GetGrid(): (g: Matrix)
      reads this
      requires Valid()
      ensures g.Valid() && g.rows == 3 && g.cols == n_xyz[0] * n_xyz[1] * n_xyz[2]
    {
      grid
    }

    /** getField: 3 x n_tot, one displacement per grid point. */
    function GetField(): (f: Matrix)
      reads this
      requires Valid()
      ensures f.Valid() && f.rows == 3 && f.cols == n_xyz[0] * n_xyz[1] * n_xyz[2]
    {
      disp_field
    }

    /** The stored points of the current frame. */
    function GetCurrPos3D(): (pts: seq<Matrix>)
      reads this
      ensures pts == pt_list_curr
    {
      pt_list_curr
    }

    /** The stored points of the previous frame. */
    function GetPrevPos3D(): (pts: seq<Matrix>)
      reads this
      ensures pts == pt_list_prev
    {
      pt_list_prev
    }
  }

  /**
   * The file-loading constructor: the field read from the file must be
   * 3 x n_tot, otherwise construction fails (with the size error here).
   */
  method LoadField<T>(lim: AxisLimit, n_xyz: seq<int>, loaded: Matrix, r: real, useless: seq<T>)
      returns (res: Result<PredField<T>>)
    requires GridCounts(n_xyz) && r != 0.0 && loaded.Valid()
    ensures res.Err? <==> !(loaded.rows == 3 && loaded.cols == n_xyz[0] * n_xyz[1] * n_xyz[2])
    ensures res.Err? ==> res.error == ErrorSize
    ensures res.Ok? ==> fresh(res.value) && res.value.Valid() && res.value.disp_field == loaded
  {
    if loaded.rows != 3 || loaded.cols != GridTotal(n_xyz) {
      return Err(ErrorSize);
    }
    var f := new PredField.FromFile(lim, n_xyz, loaded, r, useless);
    return Ok(f);
  }
}
