/** Canvas geometry: points, the drag clamp and the circular hit region. */
module Canvas {

  /** `sf::Vector2f`, with exact real coordinates. */
  datatype Vec = Vec(x: real, y: real)

  function Sub(a: Vec, b: Vec): Vec
  {
    Vec(a.x - b.x, a.y - b.y)
  }

  function SquaredLength(v: Vec): real
  {
    v.x * v.x + v.y * v.y
  }

  /** Width of the side panel; the canvas lies to its right. */
  const SIDEBAR_W: real := 320.0
  /** Distance an atom keeps from the canvas edges when it is dragged. */
  const EDGE_MARGIN: real := 20.0

  /**
   * `std::clamp(v, lo, hi)`, evaluated as `std::min(std::max(v, lo), hi)`.
   * C++ leaves `hi < lo` undefined; there this evaluation order gives `hi`,
   * and another library may give another value.
   */
  function Clamp(v: real, lo: real, hi: real): (r: real)
    ensures lo <= hi ==> lo <= r <= hi
    ensures lo <= v <= hi ==> r == v
    ensures lo <= hi ==> (v < lo ==> r == lo) && (hi < v ==> r == hi)
    ensures hi < lo ==> r == hi
  {
    var x := if v < lo then lo else v;
    if hi < x then hi else x
  }

  /** The window is wide and tall enough for the canvas bounds to be ordered. */
  predicate CanvasFits(w: nat, h: nat)
  {
    w as real >= SIDEBAR_W + 2.0 * EDGE_MARGIN && h as real >= 2.0 * EDGE_MARGIN
  }

  predicate InCanvas(p: Vec, w: nat, h: nat)
  {
    && SIDEBAR_W + EDGE_MARGIN <= p.x <= w as real - EDGE_MARGIN
    && EDGE_MARGIN <= p.y <= h as real - EDGE_MARGIN
  }

  /** `clampToCanvas(p, winSize)` for a window of `w` by `h` pixels. */
  function ClampToCanvas(p: Vec, w: nat, h: nat): (r: Vec)
    ensures CanvasFits(w, h) ==> InCanvas(r, w, h)
    ensures InCanvas(p, w, h) ==> r == p
  {
    Vec(Clamp(p.x, SIDEBAR_W + EDGE_MARGIN, w as real - EDGE_MARGIN),
        Clamp(p.y, EDGE_MARGIN, h as real - EDGE_MARGIN))
  }

  /** Clamping twice is clamping once, whatever the window size. */
  lemma ClampToCanvasIdempotent(p: Vec, w: nat, h: nat)
    ensures ClampToCanvas(ClampToCanvas(p, w, h), w, h) == ClampToCanvas(p, w, h)
  {
  }

  /**
   * `length(m - c) <= radius`: over the reals, `sqrt(d) <= radius` holds exactly
   * when the radius is not negative and `d <= radius * radius`.
   */
  predicate WithinRadius(m: Vec, c: Vec, radius: real)
  {
    0.0 <= radius && SquaredLength(Sub(m, c)) <= radius * radius
  }

  /** When `len` is `length(m - c)`, `WithinRadius` is the test `len <= radius`. */
  lemma WithinRadiusIsLength(m: Vec, c: Vec, radius: real, len: real)
    requires 0.0 <= len && len * len == SquaredLength(Sub(m, c))
    ensures WithinRadius(m, c, radius) <==> len <= radius
  {
    var d := SquaredLength(Sub(m, c));
    if len <= radius {
      assert len * len <= len * radius;
      assert len * radius <= radius * radius;
      assert d <= radius * radius;
    } else if 0.0 <= radius {
      calc {
        radius * radius;
      <= radius * len;
      < len * len;
      == d;
      }
    }
  }
}
