/**
 * Shared constants, error codes and the two small records of
 * inc/libMath/STBCommons.h: `PixelRange` (a pixel bounding box that is
 * widened point by point) and `AxisLimit` (an axis-aligned box in world
 * coordinates).
 */
module STBCommons {

  /** Calibration tolerance (inc/libMath/STBCommons.h:8). */
  const SMALLNUMBER: real := 0.00000001

  type PosReal = r: real | 0.0 < r witness 1.0
  type PosNat = n: nat | 0 < n witness 1

  /**
   * Tolerances and an iteration bound that the core uses but whose values
   * live in a header that is not part of this model. Only their positivity
   * is assumed.
   */
  const SQRTSMALLNUMBER: PosReal
  const LOGSMALLNUMBER: PosReal
  const WIENER_MAX_ITER: PosNat

  /** The exception codes thrown throughout the project. */
  datatype ErrorTypeID =
    | ErrorSize
    | ErrorType
    | ErrorRange
    | ErrorSpace
    | ErrorIO
    | ErrorDiv0
    | ErrorParallel
  {
    /** The enumeration value: `error_size` is 1 and the rest follow in order. */
    function Code(): (c: int)
      ensures 1 <= c <= 7
      ensures this == ErrorSize <==> c == 1
      ensures this == ErrorDiv0 <==> c == 6
    {
      match this
      case ErrorSize => 1
      case ErrorType => 2
      case ErrorRange => 3
      case ErrorSpace => 4
      case ErrorIO => 5
      case ErrorDiv0 => 6
      case ErrorParallel => 7
    }
  }

  /** A value or the code of the exception thrown instead. */
  datatype Result<T> = Ok(value: T) | Err(error: ErrorTypeID) {
    predicate IsFailure() { Err? }
  }

  /** The outcome of an operation that works by side effect. */
  datatype Outcome = Pass | Fail(error: ErrorTypeID)

  datatype ObjectTypeID = TypeTracer | TypeBubble | TypeFilament

  /**
   * The interval hull of [lo, hi] and v, as a (min, max) pair: the smallest
   * interval that contains both.
   */
  function Hull(lo: int, hi: int, v: int): (h: (int, int))
    requires lo <= hi
    ensures h.0 <= v <= h.1 && h.0 <= lo && hi <= h.1
    ensures (h.0 == lo || h.0 == v) && (h.1 == hi || h.1 == v)
    ensures lo <= v <= hi ==> h == (lo, hi)
  {
    (if v < lo then v else lo, if v > hi then v else hi)
  }

  /**
   * A pixel bounding box. The source comment calls it half-open, but the
   * widening operations keep every point they are given inside the CLOSED
   * range [min, max].
   */
  class PixelRange {
    var row_min: int
    var row_max: int
    var col_min: int
    var col_max: int

    /** The box has been initialised: both ranges are non-empty. */
    predicate Valid()
      reads this
    {
      row_min <= row_max && col_min <= col_max
    }

    constructor ()
      ensures row_min == 0 && row_max == 0 && col_min == 0 && col_max == 0
      ensures Valid()
    {
      row_min, row_max, col_min, col_max := 0, 0, 0, 0;
    }

    /**
     * Grows the row range to reach `row`. On a valid box this is the hull of
     * the old range and `row`; on an uninitialised box only one end moves.
     */
    method SetRowRange(row: int)
      modifies this
      ensures row_max == (if row > old(row_max) then row else old(row_max))
      ensures row_min == (if row <= old(row_max) && row < old(row_min) then row else old(row_min))
      ensures col_min == old(col_min) && col_max == old(col_max)
      ensures old(Valid()) ==> Valid() && (row_min, row_max) == Hull(old(row_min), old(row_max), row)
      ensures row_min <= old(row_min) && old(row_max) <= row_max
    {
      if row > row_max {
        row_max := row;
      } else if row < row_min {
        row_min := row;
      }
    }

    /** Grows the column range to reach `col`, as `SetRowRange` does for rows. */
    method SetColRange(col: int)
      modifies this
      ensures col_max == (if col > old(col_max) then col else old(col_max))
      ensures col_min == (if col <= old(col_max) && col < old(col_min) then col else old(col_min))
      ensures row_min == old(row_min) && row_max == old(row_max)
      ensures old(Valid()) ==> Valid() && (col_min, col_max) == Hull(old(col_min), old(col_max), col)
      ensures col_min <= old(col_min) && old(col_max) <= col_max
    {
      if col > col_max {
        col_max := col;
      } else if col < col_min {
        col_min := col;
      }
    }

    /** Grows the box to reach pixel (row, col). */
    method SetRange(row: int, col: int)
      modifies this
      ensures old(Valid()) ==> Valid()
      ensures old(Valid()) ==> (row_min, row_max) == Hull(old(row_min), old(row_max), row)
      ensures old(Valid()) ==> (col_min, col_max) == Hull(old(col_min), old(col_max), col)
      ensures row_min <= old(row_min) && old(row_max) <= row_max
      ensures col_min <= old(col_min) && old(col_max) <= col_max
    {
      SetRowRange(row);
      SetColRange(col);
    }

    function GetNumOfRow(): (r: int)
      reads this
      ensures r + row_min == row_max
      ensures Valid() ==> 0 <= r
    {
      row_max - row_min
    }

    function GetNumOfCol(): (r: int)
      reads this
      ensures r + col_min == col_max
      ensures Valid() ==> 0 <= r
    {
      col_max - col_min
    }
  }

  /** An axis-aligned box [x_min, x_max] x [y_min, y_max] x [z_min, z_max]. */
  class AxisLimit {
    var x_min: real
    var x_max: real
    var y_min: real
    var y_max: real
    var z_min: real
    var z_max: real

    constructor ()
      ensures x_min == 0.0 && x_max == 0.0 && y_min == 0.0
      ensures y_max == 0.0 && z_min == 0.0 && z_max == 0.0
    {
      x_min, x_max, y_min, y_max, z_min, z_max := 0.0, 0.0, 0.0, 0.0, 0.0, 0.0;
    }

    /** operator= : copies all six bounds. */
    method Assign(limit: AxisLimit)
      modifies this
      ensures x_min == old(limit.x_min) && x_max == old(limit.x_max)
      ensures y_min == old(limit.y_min) && y_max == old(limit.y_max)
      ensures z_min == old(limit.z_min) && z_max == old(limit.z_max)
    {
      x_min, x_max := limit.x_min, limit.x_max;
      y_min, y_max := limit.y_min, limit.y_max;
      z_min, z_max := limit.z_min, limit.z_max;
    }

    /** The point lies in the closed box. */
    predicate Check(x: real, y: real, z: real)
      reads this
      ensures Check(x, y, z) <==> (x_min <= x <= x_max && y_min <= y <= y_max && z_min <= z <= z_max)
    {
      !(x > x_max || x < x_min || y > y_max || y < y_min || z > z_max || z < z_min)
    }
  }
}
