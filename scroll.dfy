// The Pico Scroll Pack petals of pico_scroll_petals.py: a petal with a
// real-valued position drawn as a bilinear 2x2 blend (lines 17-113), and one
// pass of the `for step in range(steps_per_interval)` body of the top-level
// loop: buttons A, B, X and Y, the render and the walk (lines 135-200).
// Floats are exact reals here.
module Scroll {
  import opened Sink
  import opened Buttons

  // ---- Float arithmetic, exactly -----------------------------------------

  /** The integer part math.modf returns, as int() keeps it: rounded toward
      zero. */
  function Trunc(v: real): (r: int)
    ensures v >= 0.0 ==> r as real <= v < r as real + 1.0
    ensures v < 0.0 ==> r as real - 1.0 < v <= r as real
  {
    if v >= 0.0 then v.Floor else -((-v).Floor)
  }

  /** The fractional part math.modf returns; it has the sign of `v`. */
  function Frac(v: real): (r: real)
    ensures v >= 0.0 ==> 0.0 <= r < 1.0
    ensures v < 0.0 ==> -1.0 < r <= 0.0
    ensures Trunc(v) as real + r == v
  {
    v - Trunc(v) as real
  }

  /** Python's float `a % w` for a positive modulus: a - w * floor(a / w),
      which lies in [0, w). */
  function RealMod(a: real, w: int): (r: real)
    requires w > 0
    ensures 0.0 <= r < w as real
  {
    FloorQuotient(a, w as real);
    a - (w as real) * ((a / (w as real)).Floor as real)
  }

  /** The remainder is the one value in [0, w) that differs from `x` by a
      whole multiple of `w`. */
  lemma RealModUnique(x: real, w: int, r: real, k: int)
    requires w > 0 && 0.0 <= r < w as real && x == r + (w as real) * (k as real)
    ensures RealMod(x, w) == r
  {
    var W := w as real;
    var t := r / W;
    UnitQuotient(r, W);
    MulAdd(W, t, k as real);
    DivOfMul(x, W, t + k as real);
    assert (x / W).Floor == k;
  }

  /** A value already in [0, w) is left alone. */
  lemma RealModKeeps(a: real, w: int)
    requires w > 0 && 0.0 <= a < w as real
    ensures RealMod(a, w) == a
  {
    RealModUnique(a, w, a, 0);
  }

  lemma FloorQuotient(a: real, W: real)
    requires W > 0.0
    ensures 0.0 <= a - W * ((a / W).Floor as real) < W
  {
    var f := (a / W).Floor;
    assert f as real <= a / W < f as real + 1.0;
    QuotientSplit(a, W, a / W, f as real);
  }

  /** With q the exact quotient and f below it by less than one, a - W * f
      lies in [0, W). */
  lemma QuotientSplit(a: real, W: real, q: real, f: real)
    requires W > 0.0 && a == W * q && f <= q < f + 1.0
    ensures 0.0 <= a - W * f < W
  {
    QuotientAbove(a, W, q, f);
    QuotientBelow(a, W, q, f);
  }

  lemma QuotientAbove(a: real, W: real, q: real, f: real)
    requires W > 0.0 && a == W * q && f <= q
    ensures 0.0 <= a - W * f
  {
    MulNonneg(W, q - f);
    var wq, wf := W * q, W * f;
    assert W * (q - f) == wq - wf;
    assert a == wq;
  }

  lemma QuotientBelow(a: real, W: real, q: real, f: real)
    requires W > 0.0 && a == W * q && q < f + 1.0
    ensures a - W * f < W
  {
    MulPos(W, f + 1.0 - q);
    var wq, wf := W * q, W * f;
    assert W * (f + 1.0 - q) == wf + W - wq;
    assert wq - wf < W;
    assert a == wq;
  }

  lemma UnitQuotient(r: real, W: real)
    requires 0.0 <= r < W
    ensures 0.0 <= r / W < 1.0 && r == W * (r / W)
  {
    assert r == W * (r / W);
  }

  lemma MulNonneg(a: real, b: real)
    requires 0.0 <= a && 0.0 <= b
    ensures 0.0 <= a * b
  {
  }

  lemma MulPos(a: real, b: real)
    requires 0.0 < a && 0.0 < b
    ensures 0.0 < a * b
  {
  }

  // ---- Petal.grid ----------------------------------------------------------

  /** One point of Petal.grid: a cell and the share of the petal it gets. */
  datatype Cell = Cell(x: int, y: int, weight: real)

  /** Petal.grid on values: the petal's cell, its right, lower and
      lower-right neighbours (wrapping round the grid), weighted by how far
      the position lies into the cell. */
  function Grid(x: real, y: real, w: int, h: int): (r: seq<Cell>)
    requires w > 0 && h > 0
    ensures |r| == 4
    ensures forall i :: 0 <= i < 4 ==> 0 <= r[i].x < w && 0 <= r[i].y < h
  {
    var ix, fx := Trunc(x), Frac(x);
    var iy, fy := Trunc(y), Frac(y);
    [Cell(ix % w, iy % h, (1.0 - fx) * (1.0 - fy)),
     Cell((ix + 1) % w, iy % h, fx * (1.0 - fy)),
     Cell(ix % w, (iy + 1) % h, (1.0 - fx) * fy),
     Cell((ix + 1) % w, (iy + 1) % h, fx * fy)]
  }

  /** The four points form a 2x2 block that wraps round the grid edges,
      anchored at the cell holding the truncated position. */
  lemma GridIsBlock(x: real, y: real, w: int, h: int)
    requires w > 0 && h > 0
    ensures var r := Grid(x, y, w, h);
            r[0].x == Trunc(x) % w && r[0].y == Trunc(y) % h &&
            r[1].x == (r[0].x + 1) % w && r[1].y == r[0].y &&
            r[2].x == r[0].x && r[2].y == (r[0].y + 1) % h &&
            r[3].x == r[1].x && r[3].y == r[2].y
  {
    ModSucc(Trunc(x), w);
    ModSucc(Trunc(y), h);
  }

  /** Taking the successor commutes with reducing modulo `w`. */
  lemma ModSucc(i: int, w: int)
    requires w > 0
    ensures (i + 1) % w == (i % w + 1) % w
  {
    var q, r := i / w, i % w;
    assert i == w * q + r;
    if r + 1 < w {
      ModUnique(i + 1, w, q, r + 1);
      ModUnique(r + 1, w, 0, r + 1);
    } else {
      assert i + 1 == w * (q + 1);
      ModUnique(i + 1, w, q + 1, 0);
      ModUnique(r + 1, w, 1, 0);
    }
  }

  /** The remainder is determined by any quotient-remainder split. */
  lemma ModUnique(x: int, w: int, q: int, r: int)
    requires w > 0 && 0 <= r < w && x == w * q + r
    ensures x % w == r
  {
    var q', r' := x / w, x % w;
    assert w * q + r == w * q' + r';
    if q > q' {
      MulAtLeast(w, q - q');
    } else if q < q' {
      MulAtLeast(w, q' - q);
    }
  }

  lemma {:induction false} MulAtLeast(w: int, k: int)
    requires w > 0 && k >= 1
    ensures w * k >= w
    decreases k
  {
    if k > 1 {
      MulAtLeast(w, k - 1);
      assert w * k == w * (k - 1) + w;
    }
  }

  /** The weights always sum to 1, and the right column and the bottom row
      carry the fractional parts of x and y: a bilinear split. */
  lemma GridWeights(x: real, y: real, w: int, h: int)
    requires w > 0 && h > 0
    ensures var r := Grid(x, y, w, h);
            r[0].weight + r[1].weight + r[2].weight + r[3].weight == 1.0 &&
            r[1].weight + r[3].weight == Frac(x) &&
            r[2].weight + r[3].weight == Frac(y)
  {
    var r := Grid(x, y, w, h);
    var fx, fy := Frac(x), Frac(y);
    assert r[0].weight == (1.0 - fx) * (1.0 - fy) && r[1].weight == fx * (1.0 - fy);
    assert r[2].weight == (1.0 - fx) * fy && r[3].weight == fx * fy;
    assert (1.0 - fx) * (1.0 - fy) + fx * (1.0 - fy) == 1.0 - fy;
    assert (1.0 - fx) * fy + fx * fy == fy;
    assert fx * (1.0 - fy) + fx * fy == fx;
  }

  /** For a non-negative position every weight lies in [0, 1]. */
  lemma GridWeightsInUnit(x: real, y: real, w: int, h: int)
    requires w > 0 && h > 0 && x >= 0.0 && y >= 0.0
    ensures var r := Grid(x, y, w, h);
            forall i :: 0 <= i < 4 ==> 0.0 <= r[i].weight <= 1.0
  {
    var r := Grid(x, y, w, h);
    var fx, fy := Frac(x), Frac(y);
    assert r[0].weight == (1.0 - fx) * (1.0 - fy) && r[1].weight == fx * (1.0 - fy);
    assert r[2].weight == (1.0 - fx) * fy && r[3].weight == fx * fy;
    BlendInUnit(fx, fy);
  }

  lemma BlendInUnit(fx: real, fy: real)
    requires 0.0 <= fx < 1.0 && 0.0 <= fy < 1.0
    ensures 0.0 <= (1.0 - fx) * (1.0 - fy) <= 1.0 && 0.0 <= fx * (1.0 - fy) <= 1.0
    ensures 0.0 <= (1.0 - fx) * fy <= 1.0 && 0.0 <= fx * fy <= 1.0
  {
    MulUnit(1.0 - fx, 1.0 - fy);
    MulUnit(fx, 1.0 - fy);
    MulUnit(1.0 - fx, fy);
    MulUnit(fx, fy);
  }

  /** On whole coordinates the petal's own cell takes everything. */
  lemma GridWholeCell(x: real, y: real, w: int, h: int)
    requires w > 0 && h > 0 && Frac(x) == 0.0 && Frac(y) == 0.0
    ensures var r := Grid(x, y, w, h);
            r[0].weight == 1.0 && r[1].weight == 0.0 && r[2].weight == 0.0 && r[3].weight == 0.0
  {
  }

  lemma MulUnit(a: real, b: real)
    requires 0.0 <= a <= 1.0 && 0.0 <= b <= 1.0
    ensures 0.0 <= a * b <= 1.0
  {
    MulUnitBound(b, a);
    assert b * a == a * b;
  }

  /** A negative position breaks the unit range: half a cell left of the
      origin gives its own cell a weight of 1.5. */
  lemma GridWeightNegative(w: int, h: int)
    requires w > 0 && h > 0
    ensures Grid(-0.5, 0.0, w, h)[0].weight == 1.5
  {
  }

  // ---- Petal.step_size and drop_increment ----------------------------------

  /** Petal.step_size with `k` the draw of randrange(-10, 10): a tenth of
      `k`, spread over steps_per_interval steps, so a whole interval of
      steps moves by k / 10, between -1 and 0.9. */
  function StepSize(k: int, spi: int): (r: real)
    requires -10 <= k <= 9 && spi > 0
    ensures r * (spi as real) == k as real / 10.0
    ensures -1.0 <= r * (spi as real) <= 0.9
  {
    (k as real / 10.0) / (spi as real)
  }

  /** The drop increment, with `r` the draw of random.random(). */
  function DropIncrement(r: real, spi: int): (inc: real)
    requires 0.0 <= r < 1.0 && spi > 0
    ensures 0.0 <= inc < 1.0 / (spi as real)
  {
    r / (spi as real)
  }

  // ---- The step queues -----------------------------------------------------

  /** Python's `[v] * n`. */
  function Repeat(v: real, n: int): (r: seq<real>)
    ensures |r| == (if n > 0 then n else 0)
    ensures forall i :: 0 <= i < |r| ==> r[i] == v
  {
    if n <= 0 then [] else seq(n, i => v)
  }

  /** `if not q: q = [v] * n`. */
  function Refill(q: seq<real>, v: real, n: int): seq<real>
  {
    if q == [] then Repeat(v, n) else q
  }

  function Last(q: seq<real>): real
    requires q != []
  {
    q[|q| - 1]
  }

  function Init(q: seq<real>): seq<real>
    requires q != []
  {
    q[..|q| - 1]
  }

  /** All entries of the queue are the same value. */
  predicate Uniform(q: seq<real>)
  {
    forall i :: 0 <= i < |q| ==> q[i] == q[0]
  }

  /** The state of one petal, as values. */
  datatype PetalState = PetalState(x: real, y: real, x_steps: seq<real>, y_steps: seq<real>,
                                   x_drops: seq<real>, y_drops: seq<real>)

  /** Petal.walk on values: `kx` and `ky` are the step_size draws, used only
      when the queue they refill is empty. */
  function Walked(s: PetalState, w: int, h: int, spi: int, kx: int, ky: int): PetalState
    requires w > 0 && h > 0 && spi > 0 && -10 <= kx <= 9 && -10 <= ky <= 9
  {
    var xs := Refill(s.x_steps, StepSize(kx, spi), spi);
    var ys := Refill(s.y_steps, StepSize(ky, spi), spi);
    s.(x := RealMod(s.x + Last(xs), w), y := RealMod(s.y + Last(ys), h), x_steps := Init(xs), y_steps := Init(ys))
  }

  /** walk pops exactly one step per axis from the end of the queue,
      refilling an empty queue with steps_per_interval copies of one fresh
      step; the position stays on the grid; queues of equal length stay of
      equal length and a queue of copies stays a queue of copies. */
  lemma WalkedShape(s: PetalState, w: int, h: int, spi: int, kx: int, ky: int)
    requires w > 0 && h > 0 && spi > 0 && -10 <= kx <= 9 && -10 <= ky <= 9
    ensures var r := Walked(s, w, h, spi, kx, ky);
            0.0 <= r.x < w as real && 0.0 <= r.y < h as real &&
            (s.x_steps == [] ==> r.x == RealMod(s.x + StepSize(kx, spi), w) && r.x_steps == Repeat(StepSize(kx, spi), spi - 1)) &&
            (s.x_steps != [] ==> r.x == RealMod(s.x + Last(s.x_steps), w) && r.x_steps == Init(s.x_steps)) &&
            (s.y_steps == [] ==> r.y == RealMod(s.y + StepSize(ky, spi), h) && r.y_steps == Repeat(StepSize(ky, spi), spi - 1)) &&
            (s.y_steps != [] ==> r.y == RealMod(s.y + Last(s.y_steps), h) && r.y_steps == Init(s.y_steps)) &&
            (|s.x_steps| == |s.y_steps| ==> |r.x_steps| == |r.y_steps|) &&
            (Uniform(s.x_steps) ==> Uniform(r.x_steps)) &&
            r.x_drops == s.x_drops && r.y_drops == s.y_drops
  {
  }

  /** `draws` are the step_size draws of successive walks. */
  predicate WalkDraws(draws: seq<(int, int)>)
  {
    forall i :: 0 <= i < |draws| ==> -10 <= draws[i].0 <= 9 && -10 <= draws[i].1 <= 9
  }

  /** Successive walks, one per draw pair. */
  function WalkSeq(s: PetalState, w: int, h: int, spi: int, draws: seq<(int, int)>): PetalState
    requires w > 0 && h > 0 && spi > 0 && WalkDraws(draws)
  {
    if draws == [] then s
    else
      var last := draws[|draws| - 1];
      Walked(WalkSeq(s, w, h, spi, draws[..|draws| - 1]), w, h, spi, last.0, last.1)
  }

  /** A walk interval: starting from an empty x queue, the first j walks of
      the interval all move x by the one step drawn first, so after
      steps_per_interval walks x has moved by exactly a tenth of that draw
      (modulo the width) and the queue is empty again. */
  lemma {:induction false} WalkIntervalPrefix(s: PetalState, w: int, h: int, spi: int, draws: seq<(int, int)>, j: nat)
    requires w > 0 && h > 0 && spi > 0 && WalkDraws(draws) && |draws| >= 1 && 1 <= j <= spi && j <= |draws|
    requires s.x_steps == []
    ensures var r := WalkSeq(s, w, h, spi, draws[..j]);
            var st := StepSize(draws[0].0, spi);
            r.x_steps == Repeat(st, spi - j) && r.x == RealMod(s.x + Steps(st, j), w)
  {
    var st := StepSize(draws[0].0, spi);
    if j == 1 {
      assert draws[..1][..0] == [];
      assert draws[..1][0] == draws[0];
      WalkFirst(s, w, h, spi, draws[0].0, draws[0].1);
    } else {
      WalkIntervalPrefix(s, w, h, spi, draws, j - 1);
      assert draws[..j][..j - 1] == draws[..j - 1];
      assert draws[..j][j - 1] == draws[j - 1];
      WalkOnQueue(WalkSeq(s, w, h, spi, draws[..j - 1]), w, h, spi, draws[j - 1].0, draws[j - 1].1, s.x, st, j - 1);
    }
  }

  /** `j` steps of `st`, added one at a time. */
  function Steps(st: real, j: nat): real
  {
    if j == 0 then 0.0 else Steps(st, j - 1) + st
  }

  lemma {:induction false} StepsTimes(st: real, j: nat)
    ensures Steps(st, j) == (j as real) * st
  {
    if j > 0 {
      StepsTimes(st, j - 1);
      MulAdd(st, (j - 1) as real, 1.0);
      assert (j as real) * st == st * ((j - 1) as real + 1.0);
    }
  }

  /** The first walk of an interval draws the step and queues the rest. */
  lemma WalkFirst(s: PetalState, w: int, h: int, spi: int, kx: int, ky: int)
    requires w > 0 && h > 0 && spi > 0 && -10 <= kx <= 9 && -10 <= ky <= 9 && s.x_steps == []
    ensures var r := Walked(s, w, h, spi, kx, ky);
            var st := StepSize(kx, spi);
            r.x_steps == Repeat(st, spi - 1) && r.x == RealMod(s.x + Steps(st, 1), w)
  {
    var st := StepSize(kx, spi);
    assert Init(Repeat(st, spi)) == Repeat(st, spi - 1);
    assert Steps(st, 1) == st;
  }

  /** One walk inside an interval takes the queued step. */
  lemma WalkOnQueue(p: PetalState, w: int, h: int, spi: int, kx: int, ky: int, x0: real, st: real, j: nat)
    requires w > 0 && h > 0 && spi > 0 && -10 <= kx <= 9 && -10 <= ky <= 9 && j < spi
    requires p.x_steps == Repeat(st, spi - j) && p.x == RealMod(x0 + Steps(st, j), w)
    ensures var r := Walked(p, w, h, spi, kx, ky);
            r.x_steps == Repeat(st, spi - j - 1) && r.x == RealMod(x0 + Steps(st, j + 1), w)
  {
    assert Init(Repeat(st, spi - j)) == Repeat(st, spi - j - 1);
    assert Last(p.x_steps) == st;
    RealModAdd(x0 + Steps(st, j), st, w);
    var a, b := x0 + Steps(st, j) + st, x0 + Steps(st, j + 1);
    assert a == b;
    assert RealMod(a, w) == RealMod(b, w);
  }

  lemma WalkInterval(s: PetalState, w: int, h: int, spi: int, draws: seq<(int, int)>)
    requires w > 0 && h > 0 && spi > 0 && WalkDraws(draws) && |draws| == spi
    requires s.x_steps == []
    ensures var r := WalkSeq(s, w, h, spi, draws);
            r.x_steps == [] && r.x == RealMod(s.x + draws[0].0 as real / 10.0, w)
  {
    WalkIntervalPrefix(s, w, h, spi, draws, spi);
    assert draws[..spi] == draws;
    IntervalStep(draws[0].0, spi);
    var a, b := s.x + Steps(StepSize(draws[0].0, spi), spi), s.x + draws[0].0 as real / 10.0;
    assert a == b;
    assert RealMod(a, w) == RealMod(b, w);
  }

  /** steps_per_interval steps of step_size add up to a tenth of the draw. */
  lemma IntervalStep(k: int, spi: int)
    requires -10 <= k <= 9 && spi > 0
    ensures Steps(StepSize(k, spi), spi) == k as real / 10.0
  {
    var st := StepSize(k, spi);
    StepsTimes(st, spi);
    assert (spi as real) * st == st * (spi as real);
  }

  /** Reducing modulo `w` before adding changes nothing after a second
      reduction. */
  lemma RealModAdd(a: real, b: real, w: int)
    requires w > 0
    ensures RealMod(RealMod(a, w) + b, w) == RealMod(a + b, w)
  {
    var W := w as real;
    var f := (a / W).Floor;
    var m := RealMod(a, w);
    assert m == a - W * (f as real);
    var g := ((m + b) / W).Floor;
    var r := RealMod(m + b, w);
    assert r == m + b - W * (g as real);
    MulAdd(W, f as real, g as real);
    RealModUnique(a + b, w, r, f + g);
  }

  lemma MulAdd(W: real, x: real, y: real)
    ensures W * (x + y) == W * x + W * y
  {
  }

  lemma DivOfMul(x: real, W: real, y: real)
    requires W != 0.0 && x == W * y
    ensures x / W == y
  {
  }

  /** Drift has a chance of 0.1 per drop. */
  const DRIFT_CHANCE: real := 0.1

  /** The draws of one Petal.drop: the drift draw, randrange(5) and the
      step_size draw of a drift. */
  datatype DropDraws = DropDraws(drift: real, frames: int, k: int)

  /** The drop queues of Petal.drop before the pop: refilled when empty,
      then, on a drift, led by the drift's steps. */
  function Queued(s: PetalState, spi: int, dirX: int, dirY: int, inc: real, d: DropDraws): (r: PetalState)
    requires spi > 0 && -10 <= d.k <= 9
    ensures r.x_drops != [] && r.y_drops != []
  {
    var xd := Refill(s.x_drops, dirX as real * inc, spi);
    var yd := Refill(s.y_drops, dirY as real * inc, spi);
    s.(x_drops := if d.drift < DRIFT_CHANCE then Repeat(StepSize(d.k, spi), d.frames) + xd else xd,
       y_drops := if d.drift < DRIFT_CHANCE then Repeat(0.0, d.frames) + yd else yd)
  }

  /** Petal.drop on values. */
  function Dropped(s: PetalState, w: int, h: int, spi: int, dirX: int, dirY: int, inc: real, d: DropDraws): PetalState
    requires w > 0 && h > 0 && spi > 0 && -10 <= d.k <= 9
  {
    var q := Queued(s, spi, dirX, dirY, inc, d);
    q.(x := RealMod(q.x + Last(q.x_drops), w), y := RealMod(q.y + Last(q.y_drops), h),
       x_drops := Init(q.x_drops), y_drops := Init(q.y_drops))
  }

  /** drop keeps the two drop queues of equal length; a drift prepends its
      steps, so the value popped is always the old last value or, on an
      empty queue, the fall increment, never a drift step; the drift
      reaches only x. The position stays on the grid. */
  lemma DroppedShape(s: PetalState, w: int, h: int, spi: int, dirX: int, dirY: int, inc: real, d: DropDraws)
    requires w > 0 && h > 0 && spi > 0 && -10 <= d.k <= 9
    requires d.drift < DRIFT_CHANCE ==> 0 <= d.frames <= 4
    ensures var r := Dropped(s, w, h, spi, dirX, dirY, inc, d);
            var added := if d.drift < DRIFT_CHANCE then d.frames else 0;
            0.0 <= r.x < w as real && 0.0 <= r.y < h as real &&
            (|s.x_drops| == |s.y_drops| ==> |r.x_drops| == |r.y_drops|) &&
            |r.x_drops| == (if s.x_drops == [] then spi else |s.x_drops|) + added - 1 &&
            r.x == RealMod(s.x + (if s.x_drops == [] then dirX as real * inc else Last(s.x_drops)), w) &&
            r.y == RealMod(s.y + (if s.y_drops == [] then dirY as real * inc else Last(s.y_drops)), h) &&
            r.x_steps == s.x_steps && r.y_steps == s.y_steps
  {
  }

  // ---- The petal -----------------------------------------------------------

  /** pico_scroll_petals.Petal. */
  class Petal {
    var x: real
    var y: real
    const max_width: int
    const max_height: int
    const steps_per_interval: int
    const drop_direction_x: int
    const drop_direction_y: int
    const drop_increment: real
    var x_drops: seq<real>
    var y_drops: seq<real>
    var x_steps: seq<real>
    var y_steps: seq<real>

    function State(): PetalState
      reads this
    {
      PetalState(x, y, x_steps, y_steps, x_drops, y_drops)
    }

    /** The sizes grid's `%`, walk's `%` and the queue refills need: a zero
        modulus or steps_per_interval raises, a negative one empties the
        refilled queue before it is popped. */
    predicate Valid()
    {
      max_width > 0 && max_height > 0 && steps_per_interval > 0
    }

    /** `r` is the random.random() draw behind drop_increment. */
    constructor (x: real, y: real, max_width: int, max_height: int, steps_per_interval: int,
                 drop_direction_x: int, drop_direction_y: int, r: real)
      requires max_width > 0 && max_height > 0 && steps_per_interval > 0 && 0.0 <= r < 1.0
      ensures Valid()
      ensures this.max_width == max_width && this.max_height == max_height
      ensures this.steps_per_interval == steps_per_interval
      ensures this.drop_direction_x == drop_direction_x && this.drop_direction_y == drop_direction_y
      ensures drop_increment == DropIncrement(r, steps_per_interval)
      ensures State() == PetalState(x, y, [], [], [], [])
    {
      this.x := x;
      this.y := y;
      this.max_width := max_width;
      this.max_height := max_height;
      this.steps_per_interval := steps_per_interval;
      this.drop_direction_x := drop_direction_x;
      this.drop_direction_y := drop_direction_y;
      drop_increment := r / (steps_per_interval as real);
      x_drops := [];
      y_drops := [];
      x_steps := [];
      y_steps := [];
    }

    /** Petal.walk. */
    method Walk(kx: int, ky: int) returns (nx: real, ny: real)
      requires Valid() && -10 <= kx <= 9 && -10 <= ky <= 9
      modifies this
      ensures State() == Walked(old(State()), max_width, max_height, steps_per_interval, kx, ky)
      ensures nx == x && ny == y
    {
      if x_steps == [] {
        x_steps := Repeat(StepSize(kx, steps_per_interval), steps_per_interval);
      }
      if y_steps == [] {
        y_steps := Repeat(StepSize(ky, steps_per_interval), steps_per_interval);
      }
      var sx := x_steps[|x_steps| - 1];
      x_steps := x_steps[..|x_steps| - 1];
      x := RealMod(x + sx, max_width);
      var sy := y_steps[|y_steps| - 1];
      y_steps := y_steps[..|y_steps| - 1];
      y := RealMod(y + sy, max_height);
      nx, ny := x, y;
    }

    /** Petal.drop. */
    method Drop(d: DropDraws) returns (nx: real, ny: real)
      requires Valid() && -10 <= d.k <= 9
      modifies this
      ensures State() == Dropped(old(State()), max_width, max_height, steps_per_interval,
                                 drop_direction_x, drop_direction_y, drop_increment, d)
      ensures nx == x && ny == y
    {
      QueueDrops(d);
      var sx := x_drops[|x_drops| - 1];
      x_drops := x_drops[..|x_drops| - 1];
      x := RealMod(x + sx, max_width);
      var sy := y_drops[|y_drops| - 1];
      y_drops := y_drops[..|y_drops| - 1];
      y := RealMod(y + sy, max_height);
      nx, ny := x, y;
    }

    /** The refills and the drift of Petal.drop. */
    method QueueDrops(d: DropDraws)
      requires Valid() && -10 <= d.k <= 9
      modifies this`x_drops, this`y_drops
      ensures State() == Queued(old(State()), steps_per_interval, drop_direction_x, drop_direction_y, drop_increment, d)
    {
      if x_drops == [] {
        x_drops := Repeat(drop_direction_x as real * drop_increment, steps_per_interval);
      }
      if y_drops == [] {
        y_drops := Repeat(drop_direction_y as real * drop_increment, steps_per_interval);
      }
      if d.drift < DRIFT_CHANCE {
        x_drops := Repeat(StepSize(d.k, steps_per_interval), d.frames) + x_drops;
        y_drops := Repeat(0.0, d.frames) + y_drops;
      }
    }
  }

  // ---- Rendering -----------------------------------------------------------

  /** The brightness `math.floor(max_bright * weight)` a point is drawn at. */
  function Level(maxBright: int, weight: real): int
  {
    Scaled(maxBright, weight).Floor
  }

  /** `max_bright * weight`: a weight in [0, 1] scales into [0, max_bright]. */
  function Scaled(maxBright: int, weight: real): (r: real)
    ensures 0 <= maxBright && 0.0 <= weight <= 1.0 ==> 0.0 <= r <= maxBright as real
  {
    MulUnitBound(maxBright as real, weight);
    maxBright as real * weight
  }

  /** The write for one point: none when its weight is zero. */
  function CellWrite(c: Cell, maxBright: int): seq<Event>
  {
    if c.weight == 0.0 then [] else [Pixel(c.x, c.y, Level(maxBright, c.weight))]
  }

  /** The writes for a petal's points, in order. */
  function CellWrites(cells: seq<Cell>, maxBright: int): (r: seq<Event>)
    ensures |r| <= |cells|
  {
    if cells == [] then []
    else CellWrites(cells[..|cells| - 1], maxBright) + CellWrite(cells[|cells| - 1], maxBright)
  }

  /** The writes of the render loop for petals at `positions`, in order. */
  function RenderLog(positions: seq<(real, real)>, w: int, h: int, maxBright: int): seq<Event>
    requires w > 0 && h > 0
  {
    if positions == [] then []
    else RenderLog(positions[..|positions| - 1], w, h, maxBright) +
         CellWrites(Grid(positions[|positions| - 1].0, positions[|positions| - 1].1, w, h), maxBright)
  }

  lemma RenderLogSnoc(ps: seq<(real, real)>, i: int, w: int, h: int, maxBright: int)
    requires w > 0 && h > 0 && 0 <= i < |ps|
    ensures RenderLog(ps[..i + 1], w, h, maxBright) ==
            RenderLog(ps[..i], w, h, maxBright) + CellWrites(Grid(ps[i].0, ps[i].1, w, h), maxBright)
  {
    assert ps[..i + 1][..i] == ps[..i];
  }

  /** Every write drawn for some points is the write of one of them with a
      non-zero weight. */
  lemma {:induction false} CellWritesFacts(cells: seq<Cell>, maxBright: int)
    ensures forall e :: e in CellWrites(cells, maxBright) ==>
              exists c :: c in cells && c.weight != 0.0 && e == Pixel(c.x, c.y, Level(maxBright, c.weight))
  {
    if cells != [] {
      var init, last := cells[..|cells| - 1], cells[|cells| - 1];
      CellWritesFacts(init, maxBright);
      forall e | e in CellWrites(cells, maxBright)
        ensures exists c :: c in cells && c.weight != 0.0 && e == Pixel(c.x, c.y, Level(maxBright, c.weight))
      {
        if e in CellWrites(init, maxBright) {
          var c :| c in init && c.weight != 0.0 && e == Pixel(c.x, c.y, Level(maxBright, c.weight));
          assert c in cells;
        } else {
          assert last in cells;
        }
      }
    }
  }

  lemma FloorInBand(m: int, wt: real)
    requires 0 <= m <= 255 && 0.0 <= wt <= 1.0
    ensures 0 <= Level(m, wt) <= m
  {
    FloorBetween(Scaled(m, wt), m);
  }

  lemma FloorBetween(v: real, m: int)
    requires 0.0 <= v <= m as real
    ensures 0 <= v.Floor <= m
  {
  }

  lemma MulUnitBound(M: real, wt: real)
    ensures 0.0 <= M && 0.0 <= wt <= 1.0 ==> 0.0 <= M * wt <= M
  {
    if 0.0 <= M && 0.0 <= wt <= 1.0 {
      MulNonneg(M, wt);
      MulNonneg(M, 1.0 - wt);
      assert M * wt + M * (1.0 - wt) == M;
    }
  }

  /** Every render write is a pixel on the grid. */
  lemma {:induction false} RenderLogOnGrid(positions: seq<(real, real)>, w: int, h: int, maxBright: int)
    requires w > 0 && h > 0
    ensures forall e :: e in RenderLog(positions, w, h, maxBright) ==> e.Pixel? && 0 <= e.x < w && 0 <= e.y < h
  {
    if positions != [] {
      var p := positions[|positions| - 1];
      RenderLogOnGrid(positions[..|positions| - 1], w, h, maxBright);
      var cells := Grid(p.0, p.1, w, h);
      CellWritesFacts(cells, maxBright);
      forall e | e in CellWrites(cells, maxBright) ensures e.Pixel? && 0 <= e.x < w && 0 <= e.y < h {
        var c :| c in cells && c.weight != 0.0 && e == Pixel(c.x, c.y, Level(maxBright, c.weight));
      }
    }
  }

  /** When no petal has a negative coordinate, every render write carries a
      level in [0, max_bright]: a valid set_pixel brightness, so the
      ValueError the loop guards against cannot arise. */
  lemma {:induction false} RenderLogLevels(positions: seq<(real, real)>, w: int, h: int, maxBright: int)
    requires w > 0 && h > 0 && 0 <= maxBright <= 255
    requires forall i :: 0 <= i < |positions| ==> positions[i].0 >= 0.0 && positions[i].1 >= 0.0
    ensures forall e :: e in RenderLog(positions, w, h, maxBright) ==> e.Pixel? && 0 <= e.level <= maxBright
  {
    if positions != [] {
      var init, p := positions[..|positions| - 1], positions[|positions| - 1];
      assert forall i :: 0 <= i < |init| ==> init[i] == positions[i];
      RenderLogLevels(init, w, h, maxBright);
      var cells := Grid(p.0, p.1, w, h);
      CellWritesFacts(cells, maxBright);
      GridWeightsInUnit(p.0, p.1, w, h);
      forall e | e in CellWrites(cells, maxBright) ensures e.Pixel? && 0 <= e.level <= maxBright {
        var c :| c in cells && c.weight != 0.0 && e == Pixel(c.x, c.y, Level(maxBright, c.weight));
        FloorInBand(maxBright, c.weight);
      }
    }
  }

  /** Rendering petals on the grid writes only pixels on the grid at levels
      in [0, max_bright]. */
  lemma RenderSafe(positions: seq<(real, real)>, w: int, h: int, maxBright: int)
    requires w > 0 && h > 0 && 0 <= maxBright <= 255 && InGrid(positions, w, h)
    ensures forall e :: e in [Clear] + RenderLog(positions, w, h, maxBright) + [Show] && e.Pixel? ==>
              0 <= e.x < w && 0 <= e.y < h && 0 <= e.level <= maxBright
  {
    RenderLogOnGrid(positions, w, h, maxBright);
    RenderLogLevels(positions, w, h, maxBright);
  }

  // ---- Text ----------------------------------------------------------------

  function Digit(d: int): (c: char)
    requires 0 <= d <= 9
    ensures '0' <= c <= '9'
  {
    (48 + d) as char
  }

  /** The decimal digits of `n`, as an f-string formats an int. */
  function Decimal(n: nat): (s: string)
    ensures |s| >= 1 && forall i :: 0 <= i < |s| ==> '0' <= s[i] <= '9'
    ensures n < 10 <==> |s| == 1
    ensures s[0] == '0' ==> n == 0
  {
    if n < 10 then [Digit(n)] else Decimal(n / 10) + [Digit(n % 10)]
  }

  /** The number a string of decimal digits denotes. */
  function DigitsValue(s: string): int
  {
    if s == [] then 0 else 10 * DigitsValue(s[..|s| - 1]) + (s[|s| - 1] as int - 48)
  }

  /** Decimal writes `n` back: reading its digits gives `n`. */
  lemma {:induction false} DecimalValue(n: nat)
    ensures DigitsValue(Decimal(n)) == n
  {
    if n >= 10 {
      DecimalValue(n / 10);
      var s := Decimal(n);
      assert s[..|s| - 1] == Decimal(n / 10);
    }
  }

  /** The petal-count message: clear, show `f"{count}P"`, show. */
  function CountBlock(count: nat, level: int): seq<Event>
  {
    [Clear, Text(Decimal(count) + "P", level, 0), Show]
  }

  /** The messages of `n` presses of A from `count` petals. */
  function AddLog(count: nat, n: nat, level: int): seq<Event>
  {
    if n == 0 then [] else AddLog(count, n - 1, level) + CountBlock(count + n, level)
  }

  /** How many petals are left when `v` is the count minus the removals
      asked for: B on an empty list removes nothing, so never fewer than 0. */
  function Remaining(v: int): nat
  {
    if v < 0 then 0 else v
  }

  /** The messages of `n` presses of B from `count` petals. */
  function RemoveLog(count: nat, n: nat, level: int): seq<Event>
  {
    if n == 0 then [] else RemoveLog(count, n - 1, level) + CountBlock(Remaining(count - n), level)
  }

  /** How many petals `n` presses of B remove from `count`. */
  function Removed(count: nat, n: nat): (k: nat)
    ensures k <= count && k <= n && (k == n || k == count)
  {
    if n < count then n else count
  }

  /** The message that a press of X has reached the cap. */
  function MaxBlock(pressed: bool, level: int): seq<Event>
  {
    if pressed && level >= 255 then [Clear, Text("MAX", 255, 0), Show] else []
  }

  // ---- The top-level loop ---------------------------------------------------

  /** The initial values of the module-level state. */
  const MAX_BRIGHT_START: int := 7

  /** The draws behind one new petal: randrange(WIDTH), randrange(HEIGHT)
      and the drop-increment draw. */
  datatype Spawn = Spawn(x: int, y: int, r: real)

  /** The inputs of one pass of the loop body: the readings of A and B, the
      states of X and Y, the new petals' draws and the walk draws. */
  datatype StepInputs = StepInputs(a: seq<bool>, b: seq<bool>, x: bool, y: bool, spawns: seq<Spawn>, walks: seq<(int, int)>)

  ghost predicate Distinct(ps: seq<Petal>)
  {
    forall i, j :: 0 <= i < j < |ps| ==> ps[i] != ps[j]
  }

  function Positions(ps: seq<Petal>): (r: seq<(real, real)>)
    reads ps
    ensures |r| == |ps|
    ensures forall i :: 0 <= i < |ps| ==> r[i] == (ps[i].x, ps[i].y)
  {
    seq(|ps|, i requires 0 <= i < |ps| reads ps => (ps[i].x, ps[i].y))
  }

  /** Every position lies in [0, w) x [0, h). */
  predicate InGrid(positions: seq<(real, real)>, w: int, h: int)
  {
    forall i :: 0 <= i < |positions| ==> 0.0 <= positions[i].0 < w as real && 0.0 <= positions[i].1 < h as real
  }

  lemma PositionsSuffix(ps: seq<Petal>, k: int)
    requires 0 <= k <= |ps|
    ensures Positions(ps[k..]) == Positions(ps)[k..]
  {
  }

  lemma InGridSuffix(positions: seq<(real, real)>, w: int, h: int, k: int)
    requires InGrid(positions, w, h) && 0 <= k <= |positions|
    ensures InGrid(positions[k..], w, h)
  {
    assert forall i :: 0 <= i < |positions| - k ==> positions[k..][i] == positions[k + i];
  }

  /** The brightness counters after a pass of button X. */
  function Brightened(maxBright: int, held: int, pressed: bool): (r: (int, int))
    ensures 0 <= maxBright <= 255 && 1 <= held <= 255 ==> 0 <= r.0 <= 255 && 1 <= r.1 <= 255
    ensures pressed && maxBright < 255 && held >= 1 ==> r.0 > maxBright
    ensures !pressed ==> r == (maxBright, 1)
  {
    if pressed then (if maxBright + held < 255 then maxBright + held else 255, if held + 1 < 255 then held + 1 else 255)
    else (maxBright, 1)
  }

  /** The brightness counters after a pass of button Y. */
  function Dimmed(maxBright: int, held: int, pressed: bool): (r: (int, int))
    ensures 0 <= maxBright <= 255 && 1 <= held <= 255 ==> 0 <= r.0 <= 255 && 1 <= r.1 <= 255
    ensures pressed && maxBright > 0 && held >= 1 ==> r.0 < maxBright
    ensures !pressed ==> r == (maxBright, 1)
  {
    if pressed then (if maxBright - held > 0 then maxBright - held else 0, if held + 1 < 255 then held + 1 else 255)
    else (maxBright, 1)
  }

  /** The petals `ps` are fresh from the draws `spawns`, in order. */
  ghost predicate Spawned(ps: seq<Petal>, spawns: seq<Spawn>)
    reads ps
  {
    |ps| <= |spawns| &&
    forall k :: 0 <= k < |ps| ==> ps[k].State() == PetalState(spawns[k].x as real, spawns[k].y as real, [], [], [], [])
  }

  lemma SpawnedSnoc(ps: seq<Petal>, p: Petal, spawns: seq<Spawn>)
    requires Spawned(ps, spawns) && |ps| < |spawns|
    requires p.State() == PetalState(spawns[|ps|].x as real, spawns[|ps|].y as real, [], [], [], [])
    ensures Spawned(ps + [p], spawns)
  {
  }

  /** What B leaves of `start + added`: as many petals as it did not remove,
      each from one of the two lists. */
  lemma SuffixMembers(start: seq<Petal>, added: seq<Petal>, n: nat)
    ensures var rest := (start + added)[Removed(|start| + |added|, n)..];
            |rest| == Remaining(|start| + |added| - n) &&
            forall p :: p in rest ==> p in start || p in added
  {
    var all := start + added;
    var k := Removed(|all|, n);
    forall p | p in all[k..]
      ensures p in start || p in added
    {
      var j :| 0 <= j < |all| - k && all[k..][j] == p;
      assert p == all[k + j];
    }
  }

  /** The module-level state the loop updates. */
  class Scene {
    const scroll: Display
    const steps_per_interval: int
    var petals: seq<Petal>
    var max_bright: int
    var button_held_x: int
    var button_held_y: int

    /** Every petal has the grid's size and the shared steps_per_interval. */
    ghost predicate Fits(p: Petal)
    {
      p.Valid() && p.max_width == scroll.width && p.max_height == scroll.height &&
      p.steps_per_interval == steps_per_interval
    }

    /** A petal list of distinct petals that all fit. */
    ghost predicate Members(ps: seq<Petal>)
    {
      Distinct(ps) && forall i :: 0 <= i < |ps| ==> Fits(ps[i])
    }

    ghost predicate Valid()
      reads this
    {
      scroll.width > 0 && scroll.height > 0 && steps_per_interval > 0 &&
      0 <= max_bright <= 255 && 1 <= button_held_x <= 255 && 1 <= button_held_y <= 255 &&
      Members(petals)
    }

    /** Every petal lies on the grid. */
    ghost predicate OnGrid()
      reads this`petals, petals
    {
      InGrid(Positions(petals), scroll.width, scroll.height)
    }

    lemma MembersSnoc(ps: seq<Petal>, p: Petal)
      requires Members(ps) && Fits(p) && p !in ps
      ensures Members(ps + [p])
    {
    }

    /** The petal-count message. */
    method Announce(count: nat)
      modifies scroll
      ensures scroll.log == old(scroll.log) + CountBlock(count, max_bright)
    {
      scroll.ClearAll();
      scroll.ShowText(Decimal(count) + "P", max_bright, 0);
      scroll.ShowBuffer();
    }

    /** The module-level set-up, with the initial petal list given. */
    constructor (scroll: Display, steps_per_interval: int, petals: seq<Petal>)
      requires scroll.width > 0 && scroll.height > 0 && steps_per_interval > 0 && Distinct(petals)
      requires forall i :: 0 <= i < |petals| ==>
                 petals[i].Valid() && petals[i].max_width == scroll.width &&
                 petals[i].max_height == scroll.height && petals[i].steps_per_interval == steps_per_interval
      requires InGrid(Positions(petals), scroll.width, scroll.height)
      ensures Valid() && OnGrid()
      ensures this.scroll == scroll && this.steps_per_interval == steps_per_interval && this.petals == petals
      ensures max_bright == MAX_BRIGHT_START && button_held_x == 1 && button_held_y == 1
    {
      this.scroll := scroll;
      this.steps_per_interval := steps_per_interval;
      this.petals := petals;
      max_bright := MAX_BRIGHT_START;
      button_held_x := 1;
      button_held_y := 1;
    }

    /** The draws a new petal accepts. */
    predicate SpawnOk(s: Spawn)
    {
      0 <= s.x < scroll.width && 0 <= s.y < scroll.height && 0.0 <= s.r < 1.0
    }

    /** Button A: while it is held, one new petal per reading, each
        announced with the petal count. */
    method AddPetals(presses: seq<bool>, spawns: seq<Spawn>)
      requires Valid() && OnGrid() && false in presses && |spawns| >= FirstRelease(presses)
      requires forall i :: 0 <= i < FirstRelease(presses) ==> SpawnOk(spawns[i])
      modifies this`petals, scroll
      ensures Valid() && OnGrid()
      ensures |petals| == |old(petals)| + FirstRelease(presses)
      ensures forall k :: 0 <= k < |old(petals)| ==> petals[k] == old(petals)[k]
      ensures forall k :: |old(petals)| <= k < |petals| ==>
                fresh(petals[k]) &&
                petals[k].State() == PetalState(spawns[k - |old(petals)|].x as real, spawns[k - |old(petals)|].y as real, [], [], [], [])
      ensures scroll.log == old(scroll.log) + AddLog(|old(petals)|, FirstRelease(presses), max_bright)
    {
      ghost var start := petals;
      ghost var added := HoldA(presses, spawns);
      forall k | |start| <= k < |petals|
        ensures fresh(petals[k]) &&
                petals[k].State() == PetalState(spawns[k - |start|].x as real, spawns[k - |start|].y as real, [], [], [], [])
      {
        assert petals[k] == added[k - |start|] && added[k - |start|] in added;
      }
    }

    /** The `while` loop of button A; `added` are the new petals. */
    method HoldA(presses: seq<bool>, spawns: seq<Spawn>) returns (ghost added: seq<Petal>)
      requires Valid() && OnGrid() && false in presses && |spawns| >= FirstRelease(presses)
      requires forall i :: 0 <= i < FirstRelease(presses) ==> SpawnOk(spawns[i])
      modifies this`petals, scroll
      ensures Valid() && OnGrid()
      ensures |added| == FirstRelease(presses) && petals == old(petals) + added
      ensures (forall q :: q in added ==> fresh(q)) && Spawned(added, spawns)
      ensures scroll.log == old(scroll.log) + AddLog(|old(petals)|, FirstRelease(presses), max_bright)
    {
      ghost var n := FirstRelease(presses);
      ghost var start := petals;
      added := [];
      var i := 0;
      while presses[i]
        invariant 0 <= i <= n && |added| == i && petals == start + added && Valid() && OnGrid()
        invariant forall q :: q in added ==> fresh(q)
        invariant Spawned(added, spawns)
        invariant scroll.log == old(scroll.log) + AddLog(|start|, i, max_bright)
        decreases n - i
      {
        ghost var p := PressA(spawns[i]);
        SpawnedSnoc(added, p, spawns);
        AppendAssoc(start, added, [p]);
        added := added + [p];
        AppendAssoc(old(scroll.log), AddLog(|start|, i, max_bright), CountBlock(|petals|, max_bright));
        i := i + 1;
      }
    }

    /** One reading of A while it is held: a new petal `p` at the drawn cell,
        then the petal count. */
    method PressA(s: Spawn) returns (ghost p: Petal)
      requires Valid() && OnGrid() && SpawnOk(s)
      modifies this`petals, scroll
      ensures Valid() && OnGrid()
      ensures petals == old(petals) + [p] && fresh(p)
      ensures p.State() == PetalState(s.x as real, s.y as real, [], [], [], [])
      ensures scroll.log == old(scroll.log) + CountBlock(|petals|, max_bright)
    {
      var petal := new Petal(s.x as real, s.y as real, scroll.width, scroll.height, steps_per_interval, 0, 1, s.r);
      MembersSnoc(petals, petal);
      petals := petals + [petal];
      p := petal;
      Announce(|petals|);
    }

    lemma MembersSuffix(ps: seq<Petal>, k: int)
      requires Members(ps) && 0 <= k <= |ps|
      ensures Members(ps[k..])
    {
      assert forall i :: 0 <= i < |ps| - k ==> ps[k..][i] == ps[k + i];
    }

    /** One reading of B while it is held. */
    method PressB()
      modifies this`petals, scroll
      ensures petals == if old(petals) == [] then [] else old(petals)[1..]
      ensures scroll.log == old(scroll.log) + CountBlock(|petals|, max_bright)
    {
      if petals != [] {
        petals := petals[1..];
      }
      Announce(|petals|);
    }

    /** Button B: while it is held, each reading removes the oldest petal if
        there is one, and announces the petal count. */
    method RemovePetals(presses: seq<bool>)
      requires Valid() && OnGrid() && false in presses
      modifies this`petals, scroll
      ensures Valid() && OnGrid()
      ensures var n := FirstRelease(presses);
              petals == old(petals)[(if n < |old(petals)| then n else |old(petals)|)..]
      ensures scroll.log == old(scroll.log) + RemoveLog(|old(petals)|, FirstRelease(presses), max_bright)
    {
      ghost var start := petals;
      ghost var k := HoldB(presses);
      MembersSuffix(start, k);
      InGridSuffix(Positions(start), scroll.width, scroll.height, k);
      PositionsSuffix(start, k);
    }

    /** The `while` loop of button B; `k` is the number of petals removed. */
    method HoldB(presses: seq<bool>) returns (ghost k: int)
      requires false in presses
      modifies this`petals, scroll
      ensures var n := FirstRelease(presses);
              k == (if n < |old(petals)| then n else |old(petals)|) && petals == old(petals)[k..]
      ensures scroll.log == old(scroll.log) + RemoveLog(|old(petals)|, FirstRelease(presses), max_bright)
    {
      ghost var n := FirstRelease(presses);
      ghost var start := petals;
      k := 0;
      var i := 0;
      while presses[i]
        invariant 0 <= i <= n && k == (if i < |start| then i else |start|)
        invariant petals == start[k..]
        invariant scroll.log == old(scroll.log) + RemoveLog(|start|, i, max_bright)
        decreases n - i
      {
        if petals != [] {
          k := k + 1;
        }
        PressB();
        assert |petals| == Remaining(|start| - (i + 1));
        AppendAssoc(old(scroll.log), RemoveLog(|start|, i, max_bright), CountBlock(|petals|, max_bright));
        i := i + 1;
      }
    }

    /** Button X: pressed, brighten by the held counter (capped at 255) and
        grow the counter, announcing when the cap is reached; released,
        reset the counter. */
    method Brighter(pressed: bool)
      requires Valid()
      modifies this`max_bright, this`button_held_x, scroll
      ensures Valid()
      ensures (max_bright, button_held_x) == Brightened(old(max_bright), old(button_held_x), pressed)
      ensures scroll.log == old(scroll.log) + MaxBlock(pressed, max_bright)
    {
      if pressed {
        max_bright := if max_bright + button_held_x < 255 then max_bright + button_held_x else 255;
        button_held_x := if button_held_x + 1 < 255 then button_held_x + 1 else 255;
        if max_bright >= 255 {
          scroll.ClearAll();
          scroll.ShowText("MAX", 255, 0);
          scroll.ShowBuffer();
        }
      } else {
        button_held_x := 1;
      }
    }

    /** Button Y: pressed, dim by the held counter (floored at 0) and grow
        the counter; released, reset the counter. */
    method Dimmer(pressed: bool)
      requires Valid()
      modifies this`max_bright, this`button_held_y
      ensures Valid()
      ensures (max_bright, button_held_y) == Dimmed(old(max_bright), old(button_held_y), pressed)
    {
      if pressed {
        max_bright := if max_bright - button_held_y > 0 then max_bright - button_held_y else 0;
        button_held_y := if button_held_y + 1 < 255 then button_held_y + 1 else 255;
      } else {
        button_held_y := 1;
      }
    }

    /** The inner render loop: draw one petal's points. */
    method DrawPoints(points: seq<Cell>)
      modifies scroll
      ensures scroll.log == old(scroll.log) + CellWrites(points, max_bright)
    {
      var j := 0;
      while j < |points|
        invariant 0 <= j <= |points|
        invariant scroll.log == old(scroll.log) + CellWrites(points[..j], max_bright)
      {
        assert points[..j + 1][..j] == points[..j];
        if points[j].weight != 0.0 {
          scroll.SetPixel(points[j].x, points[j].y, Level(max_bright, points[j].weight));
        }
        j := j + 1;
      }
      assert points[..j] == points;
    }

    /** The render: clear, the points of every petal, show. */
    method Render()
      requires Valid() && OnGrid()
      modifies scroll
      ensures scroll.log == old(scroll.log) + [Clear] +
                            RenderLog(Positions(petals), scroll.width, scroll.height, max_bright) + [Show]
      ensures forall e :: e in scroll.log[|old(scroll.log)|..] && e.Pixel? ==>
                0 <= e.x < scroll.width && 0 <= e.y < scroll.height && 0 <= e.level <= max_bright
    {
      ghost var ps := Positions(petals);
      scroll.ClearAll();
      DrawAll();
      scroll.ShowBuffer();
      RenderSafe(ps, scroll.width, scroll.height, max_bright);
      assert scroll.log[|old(scroll.log)|..] == [Clear] + RenderLog(ps, scroll.width, scroll.height, max_bright) + [Show];
    }

    /** The outer render loop: draw the points of every petal. */
    method DrawAll()
      requires Valid()
      modifies scroll
      ensures scroll.log == old(scroll.log) + RenderLog(Positions(petals), scroll.width, scroll.height, max_bright)
    {
      ghost var ps := Positions(petals);
      ghost var w, h := scroll.width, scroll.height;
      var i := 0;
      while i < |petals|
        invariant 0 <= i <= |petals|
        invariant scroll.log == old(scroll.log) + RenderLog(ps[..i], w, h, max_bright)
      {
        var petal := petals[i];
        assert Fits(petal) && ps[i] == (petal.x, petal.y);
        RenderLogSnoc(ps, i, w, h, max_bright);
        DrawPoints(Grid(petal.x, petal.y, petal.max_width, petal.max_height));
        AppendAssoc(old(scroll.log), RenderLog(ps[..i], w, h, max_bright), CellWrites(Grid(ps[i].0, ps[i].1, w, h), max_bright));
        i := i + 1;
      }
      assert ps[..i] == ps;
    }

    /** `for petal in petals: petal.walk()`, with `walks[i]` the draws of the
        i-th petal. */
    method WalkAll(walks: seq<(int, int)>)
      requires Valid() && |walks| >= |petals|
      requires forall i :: 0 <= i < |petals| ==> -10 <= walks[i].0 <= 9 && -10 <= walks[i].1 <= 9
      modifies set p | p in petals
      ensures forall k :: 0 <= k < |petals| ==>
                petals[k].State() == Walked(old(petals[k].State()), scroll.width, scroll.height, steps_per_interval,
                                            walks[k].0, walks[k].1)
      ensures OnGrid()
    {
      var i := 0;
      while i < |petals|
        invariant 0 <= i <= |petals|
        invariant forall k :: 0 <= k < i ==>
                    petals[k].State() == Walked(old(petals[k].State()), scroll.width, scroll.height, steps_per_interval,
                                                walks[k].0, walks[k].1)
        invariant forall k :: i <= k < |petals| ==> petals[k].State() == old(petals[k].State())
      {
        var _, _ := petals[i].Walk(walks[i].0, walks[i].1);
        i := i + 1;
      }
      forall k | 0 <= k < |petals|
        ensures 0.0 <= petals[k].x < scroll.width as real && 0.0 <= petals[k].y < scroll.height as real
      {
        WalkedShape(old(petals[k].State()), scroll.width, scroll.height, steps_per_interval, walks[k].0, walks[k].1);
      }
    }

    /** Buttons A and B; `added` are the petals A appends, and B then
        removes from the front of the longer list. */
    method ChangePetals(inp: StepInputs) returns (ghost added: seq<Petal>)
      requires Valid() && OnGrid() && false in inp.a && false in inp.b
      requires |inp.spawns| >= FirstRelease(inp.a)
      requires forall i :: 0 <= i < FirstRelease(inp.a) ==> SpawnOk(inp.spawns[i])
      modifies this`petals, scroll
      ensures Valid() && OnGrid()
      ensures |added| == FirstRelease(inp.a) && (forall q :: q in added ==> fresh(q)) && Spawned(added, inp.spawns)
      ensures petals == (old(petals) + added)[Removed(|old(petals)| + |added|, FirstRelease(inp.b))..]
      ensures |petals| == Remaining(|old(petals)| + FirstRelease(inp.a) - FirstRelease(inp.b))
      ensures forall p :: p in petals ==> p in old(petals) || fresh(p)
      ensures scroll.log == old(scroll.log) + AddLog(|old(petals)|, FirstRelease(inp.a), max_bright) +
                            RemoveLog(|old(petals)| + FirstRelease(inp.a), FirstRelease(inp.b), max_bright)
    {
      added := HoldA(inp.a, inp.spawns);
      RemovePetals(inp.b);
      SuffixMembers(old(petals), added, FirstRelease(inp.b));
      AppendAssoc(old(scroll.log), AddLog(|old(petals)|, |added|, max_bright),
                  RemoveLog(|old(petals)| + |added|, FirstRelease(inp.b), max_bright));
    }

    /** The four button blocks at the head of the loop body: A and B as in
        ChangePetals, then X and then Y on the brightness counters. */
    method ReadButtons(inp: StepInputs) returns (ghost added: seq<Petal>)
      requires Valid() && OnGrid() && false in inp.a && false in inp.b
      requires |inp.spawns| >= FirstRelease(inp.a)
      requires forall i :: 0 <= i < FirstRelease(inp.a) ==> SpawnOk(inp.spawns[i])
      modifies this`petals, this`max_bright, this`button_held_x, this`button_held_y, scroll
      ensures Valid() && OnGrid()
      ensures |added| == FirstRelease(inp.a) && (forall q :: q in added ==> fresh(q)) && Spawned(added, inp.spawns)
      ensures petals == (old(petals) + added)[Removed(|old(petals)| + |added|, FirstRelease(inp.b))..]
      ensures |petals| == Remaining(|old(petals)| + FirstRelease(inp.a) - FirstRelease(inp.b))
      ensures forall p :: p in petals ==> p in old(petals) || fresh(p)
      ensures var bx := Brightened(old(max_bright), old(button_held_x), inp.x);
              var dy := Dimmed(bx.0, old(button_held_y), inp.y);
              max_bright == dy.0 && button_held_x == bx.1 && button_held_y == dy.1
      ensures scroll.log == old(scroll.log) + AddLog(|old(petals)|, FirstRelease(inp.a), old(max_bright)) +
                            RemoveLog(|old(petals)| + FirstRelease(inp.a), FirstRelease(inp.b), old(max_bright)) +
                            MaxBlock(inp.x, Brightened(old(max_bright), old(button_held_x), inp.x).0)
    {
      added := ChangePetals(inp);
      Brighter(inp.x);
      Dimmer(inp.y);
    }

    /** One pass of the `for step in range(steps_per_interval)` body (the
        sleeps are left out). */
    method Step(inp: StepInputs) returns (ghost added: seq<Petal>)
      requires Valid() && OnGrid() && false in inp.a && false in inp.b
      requires |inp.spawns| >= FirstRelease(inp.a)
      requires forall i :: 0 <= i < FirstRelease(inp.a) ==> SpawnOk(inp.spawns[i])
      requires |inp.walks| >= |petals| + FirstRelease(inp.a)
      requires forall i :: 0 <= i < |inp.walks| ==> -10 <= inp.walks[i].0 <= 9 && -10 <= inp.walks[i].1 <= 9
      modifies this, scroll, set p | p in petals
      ensures Valid() && OnGrid()
      ensures |added| == FirstRelease(inp.a) && forall q :: q in added ==> fresh(q)
      ensures petals == (old(petals) + added)[Removed(|old(petals)| + |added|, FirstRelease(inp.b))..]
      ensures |petals| == Remaining(|old(petals)| + FirstRelease(inp.a) - FirstRelease(inp.b))
      ensures var bx := Brightened(old(max_bright), old(button_held_x), inp.x);
              var dy := Dimmed(bx.0, old(button_held_y), inp.y);
              max_bright == dy.0 && button_held_x == bx.1 && button_held_y == dy.1
    {
      added := ReadButtons(inp);
      Render();
      WalkAll(inp.walks);
    }
  }

}
