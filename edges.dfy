// Edge: which side of the grid petals fall from (lib/layeredpetalbit.py:33-73,
// repeated in lib/petalbit.py:33-73). The side is the source's small integer;
// every value other than top (0), bottom (1) and left (2) behaves as right.
module Edges {

  const TOP: int := 0
  const BOTTOM: int := 1
  const LEFT: int := 2
  const RIGHT: int := 3

  datatype Side = Top | Bottom | Left | Right

  /** An inclusive range of integers, as `random.randint(lo, hi)` takes it. */
  datatype Span = Span(lo: int, hi: int) {
    predicate Contains(v: int) { lo <= v <= hi }
  }

  /** The x and y ranges a new petal's position is drawn from. */
  datatype Pen = Pen(xs: Span, ys: Span) {
    predicate Contains(x: int, y: int) { xs.Contains(x) && ys.Contains(y) }
  }

  datatype Edge = Edge(width: int, height: int, side: int) {

    /** The branch of the source's if/elif chain that `side` selects. */
    function Orientation(): (s: Side)
      ensures s == Top <==> side == TOP
      ensures s == Bottom <==> side == BOTTOM
      ensures s == Left <==> side == LEFT
      ensures s == Right <==> side != TOP && side != BOTTOM && side != LEFT
    {
      if side == TOP then Top
      else if side == BOTTOM then Bottom
      else if side == LEFT then Left
      else Right
    }

    /** True when gravity moves petals along y, so a gust moves them along x. */
    predicate FallsAlongY() {
      Orientation() == Top || Orientation() == Bottom
    }

    /** Edge.pixel_pen: exactly one axis is pinned to the edge's boundary value,
        the other spans the whole (inclusive) grid dimension. */
    function PixelPen(): (p: Pen)
      ensures FallsAlongY() ==> p.xs == Span(0, width)
      ensures !FallsAlongY() ==> p.ys == Span(0, height)
      ensures p.ys.lo == p.ys.hi || p.xs.lo == p.xs.hi
      ensures FallsAlongY() ==> p.ys.lo == p.ys.hi == (if Orientation() == Top then 0 else height)
      ensures !FallsAlongY() ==> p.xs.lo == p.xs.hi == (if Orientation() == Left then 0 else width)
    {
      match Orientation()
      case Top => Pen(Span(0, width), Span(0, 0))
      case Bottom => Pen(Span(0, width), Span(height, height))
      case Left => Pen(Span(0, 0), Span(0, height))
      case Right => Pen(Span(width, width), Span(0, height))
    }

    /** Edge.apply_gravity: one unit step away from the edge petals fall from. */
    function ApplyGravity(x: int, y: int): (r: (int, int))
      ensures FallsAlongY() ==> r.0 == x && r.1 == y + (if Orientation() == Top then 1 else -1)
      ensures !FallsAlongY() ==> r.1 == y && r.0 == x + (if Orientation() == Left then 1 else -1)
    {
      match Orientation()
      case Top => (x, y + 1)
      case Bottom => (x, y - 1)
      case Left => (x + 1, y)
      case Right => (x - 1, y)
    }
  }

  /** Gravity moves exactly one coordinate by exactly one. */
  lemma GravityIsUnitStep(e: Edge, x: int, y: int)
    ensures var (nx, ny) := e.ApplyGravity(x, y);
            (nx == x && (ny - y == 1 || y - ny == 1)) || (ny == y && (nx - x == 1 || x - nx == 1))
  {
  }

  /** The coordinate gravity changes is the one the pen pins, and a petal
      spawned anywhere on the pen of a non-degenerate grid is carried off the
      spawn line into the grid: gravity points inward from the spawn edge. */
  lemma GravityLeavesSpawnLine(e: Edge, x: int, y: int)
    requires e.width >= 1 && e.height >= 1
    requires e.PixelPen().Contains(x, y)
    ensures var (nx, ny) := e.ApplyGravity(x, y);
            0 <= nx <= e.width && 0 <= ny <= e.height &&
            !e.PixelPen().Contains(nx, ny)
  {
    match e.Orientation()
    case Top =>
    case Bottom =>
    case Left =>
    case Right =>
  }
}
