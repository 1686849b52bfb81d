/**
 * The java.awt.geom arithmetic the toolkit relies on: rectangles with a
 * half-open `contains`, unions, segment distance, and Java's truncating `/`
 * and `%`. Coordinates are integers (see README: the halving in the centre
 * computation rounds).
 */
module Geometry {
  /** A Rectangle2D: origin (x, y), width w and height h. */
  datatype Rect = Rect(x: int, y: int, w: int, h: int)

  /** A Line2D from (x1, y1) to (x2, y2). */
  datatype Line = Line(x1: int, y1: int, x2: int, y2: int)

  /** A Point2D. */
  datatype Point = Point(x: int, y: int)

  function Min(a: int, b: int): int { if a <= b then a else b }
  function Max(a: int, b: int): int { if a >= b then a else b }
  function Abs(a: int): (r: int)
    ensures r >= 0 && (r == a || r == -a)
  { if a >= 0 then a else -a }

  /** Rectangle2D.contains(px, py): left and top edges inside, right and bottom edges outside. */
  predicate Contains(r: Rect, px: int, py: int) {
    r.x <= px && r.y <= py && px < r.x + r.w && py < r.y + r.h
  }

  /** RectangularShape.isEmpty(). */
  predicate IsEmpty(r: Rect) { r.w <= 0 || r.h <= 0 }

  /** Rectangle2D.contains(q.x, q.y, q.w, q.h): both rectangles non-empty and q inside r. */
  predicate ContainsRect(r: Rect, q: Rect) {
    !IsEmpty(r) && q.w > 0 && q.h > 0
    && r.x <= q.x && r.y <= q.y && q.x + q.w <= r.x + r.w && q.y + q.h <= r.y + r.h
  }

  /** Rectangle2D.setFrameFromDiagonal(x1, y1, x2, y2). */
  function FromDiagonal(x1: int, y1: int, x2: int, y2: int): Rect {
    Rect(Min(x1, x2), Min(y1, y2), Abs(x2 - x1), Abs(y2 - y1))
  }

  /** Rectangle2D.union(a, b, dest). */
  function Union(a: Rect, b: Rect): Rect {
    FromDiagonal(Min(a.x, b.x), Min(a.y, b.y), Max(a.x + a.w, b.x + b.w), Max(a.y + a.h, b.y + b.h))
  }

  /** The rectangle grown by d on every side. */
  function Grow(r: Rect, d: int): Rect {
    Rect(r.x - d, r.y - d, r.w + 2 * d, r.h + 2 * d)
  }

  /** Line2D.getBounds2D(). */
  function LineBounds(l: Line): Rect {
    FromDiagonal(l.x1, l.y1, l.x2, l.y2)
  }

  /** True when `inner`, as a closed rectangle, lies inside `outer`. */
  predicate Covers(outer: Rect, inner: Rect) {
    outer.x <= inner.x && outer.y <= inner.y
    && inner.x + inner.w <= outer.x + outer.w && inner.y + inner.h <= outer.y + outer.h
  }

  /** Both operands of a union of rectangles with non-negative sizes lie inside it,
      and the union is the least rectangle that covers both. */
  lemma UnionCovers(a: Rect, b: Rect, c: Rect)
    requires a.w >= 0 && a.h >= 0 && b.w >= 0 && b.h >= 0
    ensures Covers(Union(a, b), a) && Covers(Union(a, b), b)
    ensures Covers(c, a) && Covers(c, b) ==> Covers(c, Union(a, b))
  {
  }

  /** Growing by d >= 0 keeps the rectangle inside; growing by 0 changes nothing. */
  lemma GrowCovers(r: Rect, d: int)
    requires d >= 0
    ensures Covers(Grow(r, d), r)
    ensures d == 0 ==> Grow(r, d) == r
  {
  }

  /** Every point of the half-open rectangle lies inside any rectangle covering it. */
  lemma CoversContains(outer: Rect, inner: Rect, px: int, py: int)
    requires Covers(outer, inner) && Contains(inner, px, py)
    ensures Contains(outer, px, py)
  {
  }

  /** Squared distance from (px, py) to the segment, compared against width^2 without
      dividing: d^2 <= w^2 <==> (projection case) as Line2D.ptSegDist decides it. */
  predicate WithinDistance(l: Line, px: int, py: int, width: int) {
    var dx, dy := l.x2 - l.x1, l.y2 - l.y1;
    var ax, ay := px - l.x1, py - l.y1;
    var len2 := dx * dx + dy * dy;
    var dot := ax * dx + ay * dy;
    width >= 0 &&
    if dot <= 0 || len2 == 0 then ax * ax + ay * ay <= width * width
    else if dot >= len2 then (px - l.x2) * (px - l.x2) + (py - l.y2) * (py - l.y2) <= width * width
    else
      // the perpendicular distance: |a x d|^2 / |d|^2 <= w^2
      var cross := ax * dy - ay * dx;
      cross * cross <= width * width * len2
  }

  /** Both end points of a segment lie within any non-negative distance of it. */
  lemma EndPointsOnSegment(l: Line, width: int)
    requires width >= 0
    ensures WithinDistance(l, l.x1, l.y1, width) && WithinDistance(l, l.x2, l.y2, width)
  {
    var dx, dy := l.x2 - l.x1, l.y2 - l.y1;
    var len2 := dx * dx + dy * dy;
    assert dx * dx >= 0 && dy * dy >= 0;
    assert 0 <= width * width;
    if len2 != 0 {
      assert dx * dx + dy * dy == len2;
    }
  }

  /** Java's `a / b` on values that are truncated to int: rounds toward zero. */
  function JavaDiv(a: int, b: int): int
    requires b != 0
  {
    if a >= 0 then a / Abs(b) * (if b > 0 then 1 else -1)
    else -((-a) / Abs(b)) * (if b > 0 then 1 else -1)
  }

  /** Java's `a % b`: the remainder of the truncating division, so its sign follows
      the dividend. (For doubles Java yields NaN when b == 0.) */
  function JavaRem(a: int, b: int): int
    requires b != 0
  {
    if a >= 0 then a % Abs(b) else -((-a) % Abs(b))
  }

  /** `a == (a / b) * b + a % b` in Java, and the remainder has the dividend's sign and
      a smaller magnitude than the divisor. */
  lemma JavaDivRem(a: int, b: int)
    requires b != 0
    ensures a == JavaDiv(a, b) * b + JavaRem(a, b)
    ensures a >= 0 ==> 0 <= JavaRem(a, b) < Abs(b)
    ensures a < 0 ==> -Abs(b) < JavaRem(a, b) <= 0
  {
    var m := Abs(b);
    if a >= 0 {
      assert a == (a / m) * m + a % m;
    } else {
      assert -a == ((-a) / m) * m + (-a) % m;
    }
  }

  /** `a - a % b`: a moved toward zero onto the grid of spacing b. */
  function SnapTowardZero(a: int, b: int): int
    requires b != 0
  {
    a - JavaRem(a, b)
  }

  /** A snapped value is a whole multiple of the spacing, leaves no remainder, and lies
      less than one spacing from the original value, on the side of zero. */
  lemma SnapOnGrid(a: int, b: int)
    requires b != 0
    ensures SnapTowardZero(a, b) == JavaDiv(a, b) * b
    ensures JavaRem(SnapTowardZero(a, b), b) == 0
    ensures a >= 0 ==> a - Abs(b) < SnapTowardZero(a, b) <= a
    ensures a < 0 ==> a <= SnapTowardZero(a, b) < a + Abs(b)
  {
    JavaDivRem(a, b);
    var k := JavaDiv(a, b);
    MultipleHasNoRem(k, b);
  }

  lemma MultipleHasNoRem(k: int, b: int)
    requires b != 0
    ensures JavaRem(k * b, b) == 0
  {
    var m := Abs(b);
    var n := Abs(k);
    assert k * b == n * m || k * b == -(n * m);
    NatMultipleMod(n, m);
  }

  lemma NatMultipleMod(n: int, m: int)
    requires n >= 0 && m > 0
    ensures (n * m) % m == 0
  {
    var q, r := (n * m) / m, (n * m) % m;
    assert n * m == q * m + r;
    assert r == (n - q) * m;
    MulSign(n - q, m);
  }

  lemma MulSign(d: int, m: int)
    requires m > 0
    ensures d >= 1 ==> d * m >= m
    ensures d <= -1 ==> d * m <= -m
  {
  }

  /** A whole multiple of a positive m leaves no Euclidean remainder. */
  lemma MultipleMod(k: int, m: int)
    requires m > 0
    ensures (k * m) % m == 0
  {
    var q, r := (k * m) / m, (k * m) % m;
    assert k * m == q * m + r;
    assert r == (k - q) * m;
    MulSign(k - q, m);
  }

  /** The grid lines of spacing m next to a: a + (m - a % m) is the first one
      strictly above a, and (a - 1) - (a - 1) % m the last one strictly
      below it. */
  lemma GridNeighbours(a: int, m: int)
    requires m > 0
    ensures a < a + (m - a % m) <= a + m && (a + (m - a % m)) % m == 0
    ensures a - m <= (a - 1) - (a - 1) % m < a && ((a - 1) - (a - 1) % m) % m == 0
  {
    var q := a / m;
    assert a == q * m + a % m;
    assert a + (m - a % m) == (q + 1) * m;
    MultipleMod(q + 1, m);
    var q' := (a - 1) / m;
    assert a - 1 == q' * m + (a - 1) % m;
    assert (a - 1) - (a - 1) % m == q' * m;
    MultipleMod(q', m);
  }
}
