// The discrete petal of lib/layeredpetalbit.py:10-30 (the same class is
// lib/petalbit.py:10-30): an integer position, a brightness, a decay rate and
// a `dead` flag, drawn as exactly one pixel.
module Petals {
  import opened Sink
  import opened Edges

  /** The state of one petal, as values. */
  datatype PetalValue = PetalValue(x: int, y: int, brightness: int, decay_rate: int, dead: bool)

  function Max0(v: int): int { if v < 0 then 0 else v }

  /** Petal.decay on values. */
  function Decayed(v: PetalValue): (r: PetalValue)
    ensures r.brightness >= 0
    ensures r.dead <==> r.brightness == 0
    ensures r.brightness == (if v.brightness - v.decay_rate <= 0 then 0 else v.brightness - v.decay_rate)
    ensures r.x == v.x && r.y == v.y && r.decay_rate == v.decay_rate
  {
    var b := Max0(v.brightness - v.decay_rate);
    v.(brightness := b, dead := b == 0)
  }

  /** Whether Petal.draw finds the petal off the grid. The test is strict, so a
      petal at x == width or y == height is still drawn. */
  predicate OffGrid(v: PetalValue, width: int, height: int)
  {
    v.x > width || v.y > height
  }

  /** Petal.draw's effect on the petal: off the grid it is marked dead. */
  function Marked(v: PetalValue, width: int, height: int): (r: PetalValue)
    ensures r.dead <==> v.dead || OffGrid(v, width, height)
    ensures r.(dead := v.dead) == v
  {
    if OffGrid(v, width, height) then v.(dead := true) else v
  }

  /** Petal.draw's effect on the display: one write, or none off the grid. */
  function DrawWrites(v: PetalValue, width: int, height: int): (r: seq<Event>)
    ensures OffGrid(v, width, height) ==> r == []
    ensures !OffGrid(v, width, height) ==> r == [Pixel(v.x, v.y, v.brightness)]
  {
    if OffGrid(v, width, height) then [] else [Pixel(v.x, v.y, v.brightness)]
  }

  /** One petal of Layer.drop / PetalDisplay.drop: stays put when the draw is
      below the drift chance, otherwise takes one gravity step. */
  function Dropped(e: Edge, driftChance: real, draw: real, v: PetalValue): (r: PetalValue)
    ensures r == v || (r.x, r.y) == e.ApplyGravity(v.x, v.y)
    ensures r.brightness == v.brightness && r.decay_rate == v.decay_rate && r.dead == v.dead
  {
    if draw < driftChance then v
    else
      var (nx, ny) := e.ApplyGravity(v.x, v.y);
      v.(x := nx, y := ny)
  }

  /** One petal of Wind.blow: skipped when the draw is below the miss chance,
      otherwise moved by the gust along the axis perpendicular to gravity. */
  function Gusted(e: Edge, missChance: real, strength: int, draw: real, v: PetalValue): (r: PetalValue)
    ensures r.brightness == v.brightness && r.decay_rate == v.decay_rate && r.dead == v.dead
    ensures e.FallsAlongY() ==> r.y == v.y && (r.x == v.x || r.x == v.x + strength)
    ensures !e.FallsAlongY() ==> r.x == v.x && (r.y == v.y || r.y == v.y + strength)
  {
    if draw < missChance then v
    else if e.FallsAlongY() then v.(x := v.x + strength)
    else v.(y := v.y + strength)
  }

  /** Brightness never goes below 0 and, for a non-negative decay rate, never
      rises; the position and the rate are untouched. */
  lemma DecayNeverBrightens(v: PetalValue)
    requires v.brightness >= 0 && v.decay_rate >= 0
    ensures 0 <= Decayed(v).brightness <= v.brightness
  {
  }

  /** Decaying recomputes `dead` from the brightness alone, so a petal that
      draw marked dead for leaving the grid is live again unless its
      brightness has reached 0. */
  lemma DecayClearsOffGridMark(v: PetalValue, width: int, height: int)
    ensures Decayed(Marked(v, width, height)).dead <==> Decayed(v).brightness == 0
    ensures Decayed(Marked(v, width, height)) == Decayed(v)
  {
  }

  /** `n` decay events in a row. */
  function DecayedTimes(v: PetalValue, n: nat): PetalValue
  {
    if n == 0 then v else Decayed(DecayedTimes(v, n - 1))
  }

  /** For a petal with brightness b >= 0 and decay rate r >= 0, n decays
      leave brightness max(0, b - n * r); after at least one decay it is
      dead exactly when n * r >= b. The rate is kept. */
  lemma {:induction false} DecayedTimesBrightness(v: PetalValue, n: nat)
    requires v.brightness >= 0 && v.decay_rate >= 0
    ensures DecayedTimes(v, n).brightness == Max0(v.brightness - n * v.decay_rate)
    ensures n > 0 ==> (DecayedTimes(v, n).dead <==> v.brightness <= n * v.decay_rate)
    ensures DecayedTimes(v, n).decay_rate == v.decay_rate
  {
    if n > 0 {
      DecayedTimesBrightness(v, n - 1);
      assert n * v.decay_rate == (n - 1) * v.decay_rate + v.decay_rate;
    }
  }

  /** Concrete case: brightness 10, decay rate 1 is lit after 9 decays and dead
      after exactly 10. */
  lemma TenDecaysOfTen(x: int, y: int)
    ensures !DecayedTimes(PetalValue(x, y, 10, 1, false), 9).dead
    ensures DecayedTimes(PetalValue(x, y, 10, 1, false), 10).dead
    ensures DecayedTimes(PetalValue(x, y, 10, 1, false), 10).brightness == 0
  {
    DecayedTimesBrightness(PetalValue(x, y, 10, 1, false), 9);
    DecayedTimesBrightness(PetalValue(x, y, 10, 1, false), 10);
  }

  class Petal {
    var x: int
    var y: int
    var brightness: int
    var decay_rate: int
    var dead: bool

    function Value(): PetalValue
      reads this
    {
      PetalValue(x, y, brightness, decay_rate, dead)
    }

    constructor (x: int, y: int, brightness: int, decay_rate: int)
      ensures Value() == PetalValue(x, y, brightness, decay_rate, false)
    {
      this.x := x;
      this.y := y;
      this.brightness := brightness;
      this.decay_rate := decay_rate;
      dead := false;
    }

    /** Petal.decay: returns the new brightness. */
    method Decay() returns (b: int)
      modifies this
      ensures Value() == Decayed(old(Value()))
      ensures b == brightness && b >= 0
    {
      brightness := Max0(brightness - decay_rate);
      dead := brightness == 0;
      b := brightness;
    }

    /** Petal.draw: one pixel at the petal's position, or none and marked dead. */
    method Draw(display: Display)
      modifies this, display
      ensures Value() == Marked(old(Value()), display.width, display.height)
      ensures display.log == old(display.log) + DrawWrites(old(Value()), display.width, display.height)
    {
      if x > display.width || y > display.height {
        dead := true;
        return;
      }
      display.SetPixel(x, y, brightness);
    }
  }

  // ---- Lists of petals -------------------------------------------------

  /** No petal object appears twice in the list. */
  ghost predicate Distinct(ps: seq<Petal>)
  {
    forall i, j :: 0 <= i < j < |ps| ==> ps[i] != ps[j]
  }

  /** The states of a list of petals. */
  function Values(ps: seq<Petal>): (r: seq<PetalValue>)
    reads ps
    ensures |r| == |ps|
    ensures forall i :: 0 <= i < |ps| ==> r[i] == ps[i].Value()
  {
    seq(|ps|, i requires 0 <= i < |ps| reads ps => ps[i].Value())
  }

  lemma ValuesAppend(a: seq<Petal>, b: seq<Petal>)
    ensures Values(a + b) == Values(a) + Values(b)
  {
    assert forall i :: 0 <= i < |a + b| ==> Values(a + b)[i] == (Values(a) + Values(b))[i];
  }

  lemma DistinctAppend(a: seq<Petal>, b: seq<Petal>)
    requires Distinct(a) && Distinct(b)
    requires forall i, j :: 0 <= i < |a| && 0 <= j < |b| ==> a[i] != b[j]
    ensures Distinct(a + b)
  {
  }

  /** The petals of `ps` whose `dead` flag is clear, in their order. */
  function LiveObjects(ps: seq<Petal>): (r: seq<Petal>)
    reads ps
    ensures |r| <= |ps|
    ensures forall p :: p in r ==> p in ps && !p.dead
  {
    if ps == [] then []
    else if ps[0].dead then LiveObjects(ps[1..])
    else [ps[0]] + LiveObjects(ps[1..])
  }

  /** The same filter on values. */
  function Live(vs: seq<PetalValue>): (r: seq<PetalValue>)
  {
    if vs == [] then []
    else if vs[0].dead then Live(vs[1..])
    else [vs[0]] + Live(vs[1..])
  }

  lemma {:induction false} LiveObjectsValues(ps: seq<Petal>)
    ensures Values(LiveObjects(ps)) == Live(Values(ps))
  {
    if ps != [] {
      LiveObjectsValues(ps[1..]);
      assert Values(ps)[1..] == Values(ps[1..]);
    }
  }

  lemma {:induction false} LiveObjectsDistinct(ps: seq<Petal>)
    requires Distinct(ps)
    ensures Distinct(LiveObjects(ps))
  {
    if ps != [] {
      LiveObjectsDistinct(ps[1..]);
    }
  }

  /** The filter keeps exactly the live petals: every value occurs in the
      result as often as in the input when it is live, and not at all when
      it is dead. */
  lemma {:induction false} LiveKeepsExactlyLive(vs: seq<PetalValue>)
    ensures forall v :: v in Live(vs) ==> !v.dead
    ensures forall v :: multiset(Live(vs))[v] == if v.dead then 0 else multiset(vs)[v]
  {
    if vs != [] {
      LiveKeepsExactlyLive(vs[1..]);
      assert vs == [vs[0]] + vs[1..];
    }
  }

  lemma {:induction false} LiveLength(vs: seq<PetalValue>)
    ensures |Live(vs)| <= |vs|
  {
    if vs != [] {
      LiveLength(vs[1..]);
    }
  }

  /** The filter keeps the original order: filtering a concatenation is the
      concatenation of the filtered parts. */
  lemma {:induction false} LivePreservesOrder(a: seq<PetalValue>, b: seq<PetalValue>)
    ensures Live(a + b) == Live(a) + Live(b)
  {
    if a == [] {
      assert a + b == b;
    } else {
      assert (a + b)[1..] == a[1..] + b;
      LivePreservesOrder(a[1..], b);
    }
  }

  /** A list with no dead petal passes the filter unchanged. */
  lemma {:induction false} LiveOfAllLive(vs: seq<PetalValue>)
    requires forall i :: 0 <= i < |vs| ==> !vs[i].dead
    ensures Live(vs) == vs
  {
    if vs != [] {
      LiveOfAllLive(vs[1..]);
    }
  }

  /** Petal.draw applied to every petal in turn. */
  function MarkAll(vs: seq<PetalValue>, width: int, height: int): (r: seq<PetalValue>)
    ensures |r| == |vs|
    ensures forall i :: 0 <= i < |vs| ==> r[i] == Marked(vs[i], width, height)
  {
    seq(|vs|, i requires 0 <= i < |vs| => Marked(vs[i], width, height))
  }

  /** The writes of Petal.draw applied to every petal in turn. */
  function DrawLog(vs: seq<PetalValue>, width: int, height: int): (r: seq<Event>)
    ensures |r| <= |vs|
  {
    if vs == [] then []
    else DrawWrites(vs[0], width, height) + DrawLog(vs[1..], width, height)
  }

  lemma {:induction false} DrawLogSnoc(vs: seq<PetalValue>, v: PetalValue, width: int, height: int)
    ensures DrawLog(vs + [v], width, height) == DrawLog(vs, width, height) + DrawWrites(v, width, height)
  {
    if vs != [] {
      assert (vs + [v])[1..] == vs[1..] + [v];
      DrawLogSnoc(vs[1..], v, width, height);
    }
  }

  /** One more petal drawn extends the log of a draw pass by its writes. */
  lemma DrawLogStep(log0: seq<Event>, log: seq<Event>, vs: seq<PetalValue>, i: int, width: int, height: int)
    requires 0 <= i < |vs|
    requires log == log0 + DrawLog(vs[..i], width, height)
    ensures log + DrawWrites(vs[i], width, height) == log0 + DrawLog(vs[..i + 1], width, height)
  {
    assert vs[..i + 1] == vs[..i] + [vs[i]];
    DrawLogSnoc(vs[..i], vs[i], width, height);
  }

  /** Every write of a frame's draw pass lands on the grid — inside
      [0, width] x [0, height] when no coordinate is negative — and carries
      the brightness of a petal drawn at that position. */
  lemma {:induction false} DrawLogOnGrid(vs: seq<PetalValue>, width: int, height: int)
    ensures forall e :: e in DrawLog(vs, width, height) ==>
              e.Pixel? && e.x <= width && e.y <= height &&
              exists v :: v in vs && e == Pixel(v.x, v.y, v.brightness)
  {
    if vs != [] {
      DrawLogOnGrid(vs[1..], width, height);
      forall e | e in DrawLog(vs, width, height)
        ensures e.Pixel? && e.x <= width && e.y <= height &&
                exists v :: v in vs && e == Pixel(v.x, v.y, v.brightness)
      {
        if e in DrawWrites(vs[0], width, height) {
          assert vs[0] in vs;
        } else {
          assert e in DrawLog(vs[1..], width, height);
          var v :| v in vs[1..] && e == Pixel(v.x, v.y, v.brightness);
          assert v in vs;
        }
      }
    }
  }
}
