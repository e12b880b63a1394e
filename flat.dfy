// The single-layer petal animation of lib/petalbit.py: PetalDisplay
// (lines 132-173) and the setup and per-frame loop body of main (lines
// 181-239). Unlike the layered display, every petal is decayed on every
// frame, so the off-grid mark that draw sets is always recomputed by decay.
module Flat {
  import opened Sink
  import opened Edges
  import opened Petals
  import opened Gusts
  import opened Layers

  /** PetalDisplay: spawn, drop and gust settings for one population. */
  class PetalDisplay {
    const edge: Edge
    const wind: Wind
    const petal_brightness_max: int
    const petal_brightness_min: int
    const petal_decay_rate_max: int
    const petal_drift_chance: real

    /** The constructor checks nothing: a band with min > max is accepted and
        only fails when bloom calls randint on it. */
    constructor (edge: Edge, wind: Wind, petal_brightness_max: int, petal_brightness_min: int,
                 petal_decay_rate_max: int, petal_drift_chance: real)
      ensures this.edge == edge && this.wind == wind
      ensures this.petal_brightness_max == petal_brightness_max
      ensures this.petal_brightness_min == petal_brightness_min
      ensures this.petal_decay_rate_max == petal_decay_rate_max
      ensures this.petal_drift_chance == petal_drift_chance
    {
      this.edge := edge;
      this.wind := wind;
      this.petal_brightness_max := petal_brightness_max;
      this.petal_brightness_min := petal_brightness_min;
      this.petal_decay_rate_max := petal_decay_rate_max;
      this.petal_drift_chance := petal_drift_chance;
    }

    /** The draws PetalDisplay.bloom's randint calls can return. */
    predicate Admits(s: Spawn)
    {
      SpawnFits(edge, petal_brightness_min, petal_brightness_max, petal_decay_rate_max, s)
    }

    /** PetalDisplay.bloom: a new live petal built from in-range draws. */
    method Bloom(s: Spawn) returns (p: Petal)
      requires Admits(s)
      ensures fresh(p)
      ensures p.Value() == NewPetal(s)
    {
      p := new Petal(s.x, s.y, s.brightness, s.decay_rate);
    }

    /** PetalDisplay.drop: `draw` is the random draw compared with the drift
        chance. */
    method Drop(petal: Petal, draw: real)
      modifies petal
      ensures petal.Value() == Dropped(edge, petal_drift_chance, draw, old(petal.Value()))
    {
      if draw < petal_drift_chance {
        return;
      }
      var (nx, ny) := edge.ApplyGravity(petal.x, petal.y);
      petal.x, petal.y := nx, ny;
    }

    /** PetalDisplay.gust: the wind blows the given petals. */
    method Gust(petals: seq<Petal>, d: GustDraw, misses: seq<real>)
      requires Distinct(petals) && |misses| >= |petals| && wind.Admits(d)
      modifies wind, petals
      ensures wind.State() == NextGust(old(wind.State()), wind.gust_chance, d)
      ensures !Evaluated(wind.gust_chance, d) ==> Values(petals) == old(Values(petals))
      ensures Evaluated(wind.gust_chance, d) ==>
                Values(petals) == BlowAll(wind.edge, wind.gust_miss_chance, wind.gust_strength, old(Values(petals)), misses)
    {
      wind.Blow(petals, d, misses);
    }
  }

  /** On a grid of non-negative size a spawn fits exactly when the brightness
      band and the decay range are non-empty, where randint would not raise. */
  lemma SpawnFitsNeedsBand(e: Edge, bmin: int, bmax: int, dmax: int)
    requires e.width >= 0 && e.height >= 0
    ensures (exists s :: SpawnFits(e, bmin, bmax, dmax, s)) <==> bmin <= bmax && 0 <= dmax
  {
    if bmin <= bmax && 0 <= dmax {
      var pen := e.PixelPen();
      assert SpawnFits(e, bmin, bmax, dmax, Spawn(pen.xs.lo, pen.ys.lo, bmin, 0));
    }
  }

  // ---- One frame of main's loop, on values ------------------------------

  /** What the loop body does to one petal before the filter: draw, decay,
      then drop. */
  function Moved(e: Edge, driftChance: real, width: int, height: int, v: PetalValue, draw: real): PetalValue
  {
    Dropped(e, driftChance, draw, Decayed(Marked(v, width, height)))
  }

  function MoveAll(e: Edge, driftChance: real, width: int, height: int, vs: seq<PetalValue>, draws: seq<real>): (r: seq<PetalValue>)
    requires |draws| >= |vs|
    ensures |r| == |vs|
    ensures forall i :: 0 <= i < |vs| ==> r[i] == Moved(e, driftChance, width, height, vs[i], draws[i])
  {
    seq(|vs|, i requires 0 <= i < |vs| => Moved(e, driftChance, width, height, vs[i], draws[i]))
  }

  /** A petal leaves the pass dead exactly when its brightness has faded to
      0; being off the grid plays no part, since decay overwrites the mark.
      Brightness follows decay and the decay rate is kept. */
  lemma MovedDiesOnlyFaded(e: Edge, driftChance: real, width: int, height: int, v: PetalValue, draw: real)
    ensures var m := Moved(e, driftChance, width, height, v, draw);
            (m.dead <==> v.brightness <= v.decay_rate) &&
            m.brightness == Max0(v.brightness - v.decay_rate) &&
            m.decay_rate == v.decay_rate
  {
    DecayClearsOffGridMark(v, width, height);
  }

  /** The random values one frame of main's loop consumes: a drift draw per
      petal, the more_blooms draw, the new petals' draws (their number is
      the randint count), the gust draw and a miss draw per petal blown. */
  datatype TickDraws = TickDraws(drop: seq<real>, bloom: real, spawns: seq<Spawn>, gust: GustDraw, misses: seq<real>)

  /** The value display.frame receives: Python's False and True are 0 and 1. */
  function FrameIndex(frame: bool): (r: int)
    ensures 0 <= r <= 1 && (r == 1 <==> frame)
  {
    if frame then 1 else 0
  }

  /** The display calls of one frame: select the hidden frame, clear it, one
      pixel per petal on the grid, show it. */
  function TickLog(frame: bool, vs: seq<PetalValue>, width: int, height: int): seq<Event>
  {
    [Frame(FrameIndex(frame), false), Fill(0)] + DrawLog(vs, width, height) + [Frame(FrameIndex(frame), true)]
  }

  /** The frame log, regrouped as the pass issues it. */
  lemma TickLogSplit(start: seq<Event>, frame: bool, vs: seq<PetalValue>, width: int, height: int)
    ensures start + [Frame(FrameIndex(frame), false)] + [Fill(0)] + DrawLog(vs, width, height) + [Frame(FrameIndex(frame), true)]
            == start + TickLog(frame, vs, width, height)
  {
  }

  /** The filter and the blooms: the petals left alive by the pass, in
      their order, then the new ones when more_blooms holds. */
  function Regrown(bloomChance: real, moved: seq<PetalValue>, d: TickDraws): (r: seq<PetalValue>)
    ensures |r| <= |moved| + |d.spawns|
  {
    LiveLength(moved);
    Live(moved) + if MoreBlooms(d.bloom, bloomChance) then NewPetals(d.spawns) else []
  }

  /** PetalDisplay.gust on values: the list is blown with the strength the
      wind holds after the call, or left alone when the gust draw fails. */
  function GustOutcome(pd: PetalDisplay, g: GustState, vs: seq<PetalValue>, d: TickDraws): (r: seq<PetalValue>)
    requires |d.misses| >= |vs|
    ensures |r| == |vs|
  {
    if Evaluated(pd.wind.gust_chance, d.gust) then
      BlowAll(pd.wind.edge, pd.wind.gust_miss_chance, NextGust(g, pd.wind.gust_chance, d.gust).strength, vs, d.misses)
    else vs
  }

  /** The petal list after one frame of main's loop, from the list before
      it and the wind's state before it. */
  function TickValues(pd: PetalDisplay, bloomChance: real, width: int, height: int, g: GustState,
                      vs: seq<PetalValue>, d: TickDraws): seq<PetalValue>
    requires |d.drop| >= |vs| && |d.misses| >= |vs| + |d.spawns|
  {
    GustOutcome(pd, g, Regrown(bloomChance, MoveAll(pd.edge, pd.petal_drift_chance, width, height, vs, d.drop), d), d)
  }

  /** The draws one frame accepts: at most petals_per_bloom_max new petals
      when more_blooms holds, each in range, and an in-range gust. */
  predicate TickAdmits(pd: PetalDisplay, bloomChance: real, perBloomMax: int, g: GustState, d: TickDraws)
  {
    (MoreBlooms(d.bloom, bloomChance) ==>
       |d.spawns| <= perBloomMax && forall i :: 0 <= i < |d.spawns| ==> pd.Admits(d.spawns[i])) &&
    (Evaluated(pd.wind.gust_chance, d.gust) && g.blowing < 1 ==>
       0 <= d.gust.duration <= pd.wind.gust_duration_max &&
       -pd.wind.gust_strength_max <= d.gust.strength <= pd.wind.gust_strength_max)
  }

  /** The gust moves petals only: flags, brightness and decay rate stay. */
  lemma BlowKeepsPlumage(e: Edge, missChance: real, strength: int, vs: seq<PetalValue>, misses: seq<real>)
    requires |misses| >= |vs|
    ensures var r := BlowAll(e, missChance, strength, vs, misses);
            forall k :: 0 <= k < |vs| ==>
              r[k].dead == vs[k].dead && r[k].brightness == vs[k].brightness && r[k].decay_rate == vs[k].decay_rate
  {
  }

  /** The filter leaves no dead petal, by position. */
  lemma {:induction false} LiveHasNoDead(vs: seq<PetalValue>)
    ensures forall k :: 0 <= k < |Live(vs)| ==> !Live(vs)[k].dead
  {
    if vs != [] {
      LiveHasNoDead(vs[1..]);
    }
  }

  /** Before the gust no petal is dead and the new petals come last. */
  lemma RegrownShape(bloomChance: real, moved: seq<PetalValue>, d: TickDraws)
    ensures var r := Regrown(bloomChance, moved, d);
            var n := if MoreBlooms(d.bloom, bloomChance) then |d.spawns| else 0;
            n <= |r| <= |moved| + n &&
            (forall k :: 0 <= k < |r| ==> !r[k].dead) &&
            forall k :: |r| - n <= k < |r| ==> r[k] == NewPetal(d.spawns[k - (|r| - n)])
  {
    LiveHasNoDead(moved);
    LiveLength(moved);
    var born := if MoreBlooms(d.bloom, bloomChance) then NewPetals(d.spawns) else [];
    assert Regrown(bloomChance, moved, d) == Live(moved) + born;
  }

  /** After a frame no petal is dead, and the last petals are the new ones,
      each inside the band and decay range of PetalDisplay (the gust moves
      them at most along one axis). */
  lemma TickValuesShape(pd: PetalDisplay, bloomChance: real, perBloomMax: int, width: int, height: int,
                        g: GustState, vs: seq<PetalValue>, d: TickDraws)
    requires |d.drop| >= |vs| && |d.misses| >= |vs| + |d.spawns|
    requires TickAdmits(pd, bloomChance, perBloomMax, g, d)
    ensures var r := TickValues(pd, bloomChance, width, height, g, vs, d);
            var n := if MoreBlooms(d.bloom, bloomChance) then |d.spawns| else 0;
            (forall k :: 0 <= k < |r| ==> !r[k].dead) &&
            n <= |r| <= |vs| + n &&
            forall k :: |r| - n <= k < |r| ==>
              pd.petal_brightness_min <= r[k].brightness <= pd.petal_brightness_max &&
              0 <= r[k].decay_rate <= pd.petal_decay_rate_max
  {
    var moved := MoveAll(pd.edge, pd.petal_drift_chance, width, height, vs, d.drop);
    var grown := Regrown(bloomChance, moved, d);
    var n := if MoreBlooms(d.bloom, bloomChance) then |d.spawns| else 0;
    RegrownShape(bloomChance, moved, d);
    BlowKeepsPlumage(pd.wind.edge, pd.wind.gust_miss_chance, NextGust(g, pd.wind.gust_chance, d.gust).strength, grown, d.misses);
    var r := TickValues(pd, bloomChance, width, height, g, vs, d);
    assert r == GustOutcome(pd, g, grown, d);
    forall k | |r| - n <= k < |r|
      ensures pd.petal_brightness_min <= r[k].brightness <= pd.petal_brightness_max &&
              0 <= r[k].decay_rate <= pd.petal_decay_rate_max
    {
      assert pd.Admits(d.spawns[k - (|grown| - n)]);
    }
  }

  /** Which petals the filter keeps: every petal whose brightness outlasts
      its decay rate survives the frame, wherever it is, and every survivor
      is still lit. A petal that draw found off the grid is therefore kept as
      long as it has brightness left (for ever when its decay rate is 0). */
  lemma SurvivorsAreLit(e: Edge, driftChance: real, width: int, height: int, vs: seq<PetalValue>, draws: seq<real>)
    requires |draws| >= |vs|
    requires forall k :: 0 <= k < |vs| ==> vs[k].decay_rate >= 0
    ensures var m := MoveAll(e, driftChance, width, height, vs, draws);
            (forall k :: 0 <= k < |vs| && vs[k].brightness > vs[k].decay_rate ==> m[k] in Live(m)) &&
            (forall v :: v in Live(m) ==> v.brightness >= 1)
  {
    var m := MoveAll(e, driftChance, width, height, vs, draws);
    LiveKeepsExactlyLive(m);
    forall k | 0 <= k < |vs| && vs[k].brightness > vs[k].decay_rate
      ensures m[k] in Live(m)
    {
      MovedDiesOnlyFaded(e, driftChance, width, height, vs[k], draws[k]);
      assert m[k] in multiset(m);
      assert multiset(Live(m))[m[k]] > 0;
    }
    forall v | v in Live(m) ensures v.brightness >= 1 {
      assert multiset(Live(m))[v] > 0;
      assert v in multiset(m);
      var k :| 0 <= k < |m| && m[k] == v;
      MovedDiesOnlyFaded(e, driftChance, width, height, vs[k], draws[k]);
    }
  }

  /** Concrete case: a petal one row below the grid with decay rate 0 is not
      drawn, yet it survives the frame unchanged in brightness. */
  lemma OffGridPetalLingers(e: Edge, driftChance: real, width: int, height: int, draw: real)
    ensures var v := PetalValue(0, height + 1, 50, 0, false);
            OffGrid(v, width, height) && DrawLog([v], width, height) == [] &&
            Live(MoveAll(e, driftChance, width, height, [v], [draw])) ==
              [Moved(e, driftChance, width, height, v, draw)] &&
            Moved(e, driftChance, width, height, v, draw).brightness == 50
  {
    var v := PetalValue(0, height + 1, 50, 0, false);
    var m := MoveAll(e, driftChance, width, height, [v], [draw]);
    MovedDiesOnlyFaded(e, driftChance, width, height, v, draw);
    assert m == [m[0]];
    assert m[1..] == [];
  }

  // ---- main --------------------------------------------------------------

  /** The state main keeps between frames: the petal list and the frame
      flag, with the display, the edge, the wind and the PetalDisplay it
      built at start-up. */
  class Loop {
    const display: Display
    const pd: PetalDisplay
    const bloom_chance: real
    const petals_per_bloom_max: int
    var petals: seq<Petal>
    var frame: bool

    ghost predicate Valid()
      reads this
    {
      Distinct(petals)
    }

    /** main's set-up: a top edge spanning the display, a Wind(0.2, 5, 0.4,
        2), a PetalDisplay(200, 50, 20, 0.8), one bloomed petal, frame False.
        `s` holds the first bloom's draws. */
    constructor (display: Display, bloom_chance: real, petals_per_bloom_max: int, s: Spawn)
      requires SpawnFits(Edge(display.width, display.height, TOP), 50, 200, 20, s)
      ensures Valid()
      ensures this.display == display && this.bloom_chance == bloom_chance
      ensures this.petals_per_bloom_max == petals_per_bloom_max
      ensures pd.edge == Edge(display.width, display.height, TOP) && pd.wind.edge == pd.edge
      ensures pd.wind.gust_chance == 0.2 && pd.wind.gust_duration_max == 5
      ensures pd.wind.gust_miss_chance == 0.4 && pd.wind.gust_strength_max == 2
      ensures pd.wind.State() == GustState(0, 0)
      ensures pd.petal_brightness_max == 200 && pd.petal_brightness_min == 50
      ensures pd.petal_decay_rate_max == 20 && pd.petal_drift_chance == 0.8
      ensures Values(petals) == [NewPetal(s)] && !frame
      ensures fresh(pd) && fresh(pd.wind)
    {
      var edge := Edge(display.width, display.height, TOP);
      var wind := new Wind(edge, 0.2, 5, 0.4, 2);
      var petalDisplay := new PetalDisplay(edge, wind, 200, 50, 20, 0.8);
      var first := petalDisplay.Bloom(s);
      this.display := display;
      this.pd := petalDisplay;
      this.bloom_chance := bloom_chance;
      this.petals_per_bloom_max := petals_per_bloom_max;
      petals := [first];
      frame := false;
    }

    /** The comprehension of the loop body: one bloom per draw. */
    method Blooms(spawns: seq<Spawn>) returns (ps: seq<Petal>)
      requires forall i :: 0 <= i < |spawns| ==> pd.Admits(spawns[i])
      ensures |ps| == |spawns| && Distinct(ps)
      ensures forall k :: 0 <= k < |ps| ==> fresh(ps[k])
      ensures Values(ps) == NewPetals(spawns)
    {
      ps := [];
      var i := 0;
      while i < |spawns|
        invariant 0 <= i <= |spawns| && |ps| == i
        invariant forall k :: 0 <= k < i ==> fresh(ps[k]) && ps[k].Value() == NewPetal(spawns[k])
        invariant Distinct(ps)
      {
        var p := pd.Bloom(spawns[i]);
        ps := ps + [p];
        i := i + 1;
      }
    }

    /** One petal's turn in the pass: draw, decay, drop. */
    method MovePetal(p: Petal, draw: real)
      modifies p, display
      ensures p.Value() == Moved(pd.edge, pd.petal_drift_chance, display.width, display.height, old(p.Value()), draw)
      ensures display.log == old(display.log) + DrawWrites(old(p.Value()), display.width, display.height)
    {
      p.Draw(display);
      var _ := p.Decay();
      pd.Drop(p, draw);
    }

    /** The `for petal in petals` loop: each petal draws, decays and drops
        in turn. */
    method MoveEach(ps: seq<Petal>, drops: seq<real>)
      requires Distinct(ps) && |drops| >= |ps|
      modifies display, (set p | p in ps)
      ensures Values(ps) == MoveAll(pd.edge, pd.petal_drift_chance, display.width, display.height, old(Values(ps)), drops)
      ensures display.log == old(display.log) + DrawLog(old(Values(ps)), display.width, display.height)
    {
      ghost var before := Values(ps);
      ghost var after := MoveAll(pd.edge, pd.petal_drift_chance, display.width, display.height, before, drops);
      ghost var log0 := display.log;
      var i := 0;
      while i < |ps|
        invariant 0 <= i <= |ps|
        invariant forall k :: 0 <= k < i ==> ps[k].Value() == after[k]
        invariant forall k :: i <= k < |ps| ==> ps[k].Value() == before[k]
        invariant display.log == log0 + DrawLog(before[..i], display.width, display.height)
      {
        DrawLogStep(log0, display.log, before, i, display.width, display.height);
        MovePetal(ps[i], drops[i]);
        i := i + 1;
      }
      assert before[..i] == before;
    }

    /** The pass with the frame calls around it: select the hidden frame,
        clear it, move every petal, show the frame. */
    method MovePass(ps: seq<Petal>, drops: seq<real>)
      requires Distinct(ps) && |drops| >= |ps|
      modifies display, (set p | p in ps)
      ensures Values(ps) == MoveAll(pd.edge, pd.petal_drift_chance, display.width, display.height, old(Values(ps)), drops)
      ensures display.log == old(display.log) + TickLog(frame, old(Values(ps)), display.width, display.height)
    {
      ghost var start := display.log;
      ghost var before := Values(ps);
      display.SelectFrame(FrameIndex(frame), false);
      display.FillWith(0);
      assert Values(ps) == before;
      MoveEach(ps, drops);
      display.SelectFrame(FrameIndex(frame), true);
      TickLogSplit(start, frame, old(Values(ps)), display.width, display.height);
    }

    /** The filter and the blooms of the loop body: `ps` is the list after
        the pass. */
    method Regrow(ps: seq<Petal>, d: TickDraws)
      requires Distinct(ps)
      requires MoreBlooms(d.bloom, bloom_chance) ==> forall i :: 0 <= i < |d.spawns| ==> pd.Admits(d.spawns[i])
      modifies this`petals
      ensures Valid()
      ensures Values(petals) == Regrown(bloom_chance, Values(ps), d)
      ensures forall p :: p in petals ==> p in ps || fresh(p)
    {
      LiveObjectsDistinct(ps);
      LiveObjectsValues(ps);
      var kept := LiveObjects(ps);
      if MoreBlooms(d.bloom, bloom_chance) {
        var born := Blooms(d.spawns);
        ValuesAppend(kept, born);
        DistinctAppend(kept, born);
        petals := kept + born;
      } else {
        petals := kept;
      }
    }

    /** One pass of main's `while True` body (the sleep is left out). */
    method Tick(d: TickDraws)
      requires Valid() && |d.drop| >= |petals| && |d.misses| >= |petals| + |d.spawns|
      requires TickAdmits(pd, bloom_chance, petals_per_bloom_max, pd.wind.State(), d)
      modifies this, display, pd.wind, (set p | p in petals)
      ensures Valid() && frame == !old(frame)
      ensures pd.wind.State() == NextGust(old(pd.wind.State()), pd.wind.gust_chance, d.gust)
      ensures display.log == old(display.log) + TickLog(old(frame), old(Values(petals)), display.width, display.height)
      ensures Values(petals) == TickValues(pd, bloom_chance, display.width, display.height, old(pd.wind.State()),
                                           old(Values(petals)), d)
      ensures forall p :: p in petals ==> p in old(petals) || fresh(p)
    {
      var ps := petals;
      ghost var before := Values(ps);
      ghost var g := pd.wind.State();
      MovePass(ps, d.drop);
      ghost var moved := MoveAll(pd.edge, pd.petal_drift_chance, display.width, display.height, before, d.drop);
      Regrow(ps, d);
      ghost var grown := Regrown(bloom_chance, moved, d);
      assert Values(petals) == grown;
      ghost var expected := TickValues(pd, bloom_chance, display.width, display.height, g, before, d);
      assert expected == GustOutcome(pd, g, grown, d);
      pd.Gust(petals, d.gust, d.misses);
      assert pd.wind.gust_strength == NextGust(g, pd.wind.gust_chance, d.gust).strength;
      assert Values(petals) == expected;
      frame := !frame;
    }
  }
}
