/** Points, rectangles and ellipses, and the floating-point and AWT computations the
    simulator delegates to the Java platform. Those computations are left uninterpreted:
    they are the fields of an `Oracle` value that every operation needing them receives.
    The only fact assumed of them is that distances and square roots are non-negative. */
module Geometry {

  /** A non-negative length, as returned by every distance computation. */
  type Length = r: real | 0.0 <= r

  /** Width and height of the field rectangle (Simulator.WINDOW_WIDTH, WINDOW_HEIGHT). */
  const WINDOW_WIDTH: int := 700
  const WINDOW_HEIGHT: int := 550

  datatype Point = Point(x: real, y: real)

  /** An axis-aligned rectangle given by its upper-left corner and its extent (Rectangle2D). */
  datatype Rect = Rect(x: real, y: real, width: real, height: real)

  /** The ellipse inscribed in a bounding rectangle (Ellipse2D). */
  datatype Ellipse = Ellipse(x: real, y: real, width: real, height: real)
  {
    function CenterX(): real { x + width / 2.0 }
    function CenterY(): real { y + height / 2.0 }
  }

  /** The rectangle of the field, anchored at the origin. */
  function FieldRect(): Rect
  {
    Rect(0.0, 0.0, WINDOW_WIDTH as real, WINDOW_HEIGHT as real)
  }

  /** The platform computations, uninterpreted. They are applied only through the member
      functions below, which depend on no heap. */
  datatype Oracle = Oracle(
    distanceFn: (Point, Point) -> Length,
    segmentDistanceFn: (Point, Point, Point) -> Length,
    sqrtFn: real -> Length,
    asinFn: real -> real,
    atanOfRatioFn: (real, int) -> real,
    cosFn: real -> real,
    sinFn: real -> real,
    toDegreesFn: real -> real,
    toRadiansFn: real -> real,
    pi: real,                                                   // Math.PI
    polygonIntersectsFn: (seq<Point>, Rect) -> bool,
    polygonContainsFn: (seq<Point>, Point) -> bool,
    rectContainsFn: (Rect, Point) -> bool,
    ellipseContainsFn: (Ellipse, Point) -> bool,
    ellipseContainsRectFn: (Ellipse, Rect) -> bool
  )
  {
    /** Point2D.distance */
    function Distance(a: Point, b: Point): Length { distanceFn(a, b) }
    /** Line2D.ptSegDist: distance from `p` to the segment from `a` to `b`. */
    function SegmentDistance(a: Point, b: Point, p: Point): Length { segmentDistanceFn(a, b, p) }
    /** Math.sqrt */
    function Sqrt(r: real): Length { sqrtFn(r) }
    /** Math.asin */
    function Asin(r: real): real { asinFn(r) }
    /** Math.atan(a / b) for an int divisor b */
    function AtanOfRatio(a: real, b: int): real { atanOfRatioFn(a, b) }
    /** Math.cos */
    function Cos(r: real): real { cosFn(r) }
    /** Math.sin */
    function Sin(r: real): real { sinFn(r) }
    /** Math.toDegrees */
    function ToDegrees(r: real): real { toDegreesFn(r) }
    /** Math.toRadians */
    function ToRadians(r: real): real { toRadiansFn(r) }
    /** Polygon.intersects(Rectangle2D) */
    predicate PolygonIntersects(corners: seq<Point>, r: Rect) { polygonIntersectsFn(corners, r) }
    /** Polygon.contains(Point) */
    predicate PolygonContains(corners: seq<Point>, p: Point) { polygonContainsFn(corners, p) }
    /** Rectangle2D.contains(Point) */
    predicate RectContains(r: Rect, p: Point) { rectContainsFn(r, p) }
    /** Ellipse2D.contains(x, y) */
    predicate EllipseContains(e: Ellipse, p: Point) { ellipseContainsFn(e, p) }
    /** Ellipse2D.contains(Rectangle2D) */
    predicate EllipseContainsRect(e: Ellipse, r: Rect) { ellipseContainsRectFn(e, r) }
  }
}

/** Java's integer and floating-point conversions where they differ from Dafny's. */
module JavaMath {

  const INT_MIN: int := -0x8000_0000
  const INT_MAX: int := 0x7FFF_FFFF

  /** Rounds toward zero. */
  function Truncate(r: real): (n: int)
    ensures 0.0 <= r ==> n as real <= r < n as real + 1.0
    ensures r < 0.0 ==> n as real - 1.0 < r <= n as real
  {
    if 0.0 <= r then r.Floor else -((-r).Floor)
  }

  /** The cast `(int) r` of a double: truncation toward zero, saturating at the int range. */
  function IntCast(r: real): (n: int)
    ensures INT_MIN <= n <= INT_MAX
    ensures INT_MIN as real <= r <= INT_MAX as real ==> n == Truncate(r)
    ensures r <= INT_MIN as real ==> n == INT_MIN
    ensures INT_MAX as real <= r ==> n == INT_MAX
  {
    if r <= INT_MIN as real then INT_MIN
    else if INT_MAX as real <= r then INT_MAX
    else Truncate(r)
  }

  /** Java's `a / b` on ints: the real quotient rounded toward zero. */
  function IntDiv(a: int, b: int): (q: int)
    requires b != 0
    ensures q == Truncate(a as real / b as real)
  {
    IntDivTruncates(a, b);
    if (0 <= a) == (0 < b) then (if 0 <= a then a / b else (-a) / (-b))
    else -((if 0 <= a then a else -a) / (if 0 < b then b else -b))
  }

  /** The quotient of the magnitudes is the floor of the magnitude of the real quotient,
      whose sign then decides the truncation. */
  lemma IntDivTruncates(a: int, b: int)
    requires b != 0
    ensures var n, d := if 0 <= a then a else -a, if 0 < b then b else -b;
            Truncate(a as real / b as real) == (if (0 <= a) == (0 < b) then n / d else -(n / d))
  {
    var n, d := if 0 <= a then a else -a, if 0 < b then b else -b;
    NatDivFloor(n, d);
    QuotientSign(n as real, d as real);
    var u := n as real / d as real;
    SignedQuotient(a as real, b as real);
    if (0 <= a) == (0 < b) {
      assert a as real / b as real == u;
    } else {
      assert a as real / b as real == -u;
      if n == 0 {
        assert u == 0.0;
      }
    }
  }

  /** The real quotient of two signed values is, up to sign, that of their magnitudes. */
  lemma SignedQuotient(x: real, y: real)
    requires y != 0.0
    ensures (0.0 <= x) == (0.0 < y) ==> x / y == (if 0.0 <= x then x else -x) / (if 0.0 < y then y else -y)
    ensures (0.0 <= x) != (0.0 < y) ==> x / y == -((if 0.0 <= x then x else -x) / (if 0.0 < y then y else -y))
  {
    var q := x / y;
    assert q * y == x;
    assert (-q) * (-y) == x;
    assert q * (-y) == -x;
  }

  lemma QuotientSign(x: real, y: real)
    requires 0.0 <= x && 0.0 < y
    ensures 0.0 <= x / y
    ensures x == 0.0 ==> x / y == 0.0
  {
    var q := x / y;
    assert q * y == x;
  }

  /** On non-negative operands Dafny's `/` is the floor of the real quotient. */
  lemma NatDivFloor(n: int, d: int)
    requires 0 <= n && 0 < d
    ensures n / d == (n as real / d as real).Floor
  {
    var k := n / d;
    assert k * d <= n < (k + 1) * d;
    BelowQuotient(k, n, d);
    AboveQuotient(k + 1, n, d);
    FloorIs(n as real / d as real, k);
  }

  lemma BelowQuotient(k: int, n: int, d: int)
    requires 0 < d && k * d <= n
    ensures k as real <= n as real / d as real
  {
    assert (k * d) as real == k as real * d as real;
    assert (n as real / d as real) * d as real == n as real;
    Cancel(k as real, n as real / d as real, d as real);
  }

  lemma AboveQuotient(k: int, n: int, d: int)
    requires 0 < d && n < k * d
    ensures n as real / d as real < k as real
  {
    assert (k * d) as real == k as real * d as real;
    assert (n as real / d as real) * d as real == n as real;
    Cancel(n as real / d as real, k as real, d as real);
  }

  lemma Cancel(x: real, y: real, d: real)
    requires 0.0 < d
    ensures x * d <= y * d ==> x <= y
    ensures x * d < y * d ==> x < y
  {
  }

  lemma FloorIs(t: real, k: int)
    requires k as real <= t < k as real + 1.0
    ensures t.Floor == k
  {
  }

  /** Java's `a % b` on doubles: `a` minus `b` times the quotient rounded toward zero. */
  function Remainder(a: real, b: real): real
    requires b != 0.0
  {
    a - b * Truncate(a / b) as real
  }
}

/** The optional value used for a choice that may be absent (Java's null). */
module Wrappers {
  datatype Option<+T> = None | Some(value: T)
}
