// Layer: a population of petals with its own brightness band, spawn and
// movement tuning (lib/layeredpetalbit.py:132-211), and the spawn vote
// more_blooms (lib/layeredpetalbit.py:289-291, lib/petalbit.py:176-178).
module Layers {
  import opened Sink
  import opened Edges
  import opened Petals
  import opened Gusts

  /** Layer.decay skips a petal when its draw is above this value. */
  const DECAY_SKIP: real := 0.9

  /** The random values drawn for one new petal (Layer.bloom,
      PetalDisplay.bloom): its position and brightness and its decay rate. */
  datatype Spawn = Spawn(x: int, y: int, brightness: int, decay_rate: int)

  /** The random values one layer consumes in one frame of
      LayeredPetalDisplay.draw: a skip draw and a drift draw per petal, the
      more_blooms draw and the draws of each new petal. */
  datatype LayerDraws = LayerDraws(decay: seq<real>, drop: seq<real>, bloom: real, spawns: seq<Spawn>)

  /** The draws a bloom's randint calls can return: a position on the edge's
      pen, a brightness in [bmin, bmax], a decay rate in [0, dmax]. randint
      raises ValueError on an empty range, so nothing fits an empty band. */
  predicate SpawnFits(e: Edge, bmin: int, bmax: int, dmax: int, s: Spawn)
  {
    e.PixelPen().Contains(s.x, s.y) && bmin <= s.brightness <= bmax && 0 <= s.decay_rate <= dmax
  }

  function NewPetal(s: Spawn): PetalValue
  {
    PetalValue(s.x, s.y, s.brightness, s.decay_rate, false)
  }

  function NewPetals(spawns: seq<Spawn>): (r: seq<PetalValue>)
    ensures |r| == |spawns|
    ensures forall i :: 0 <= i < |spawns| ==> r[i] == NewPetal(spawns[i])
  {
    seq(|spawns|, i requires 0 <= i < |spawns| => NewPetal(spawns[i]))
  }

  /** more_blooms: despite its name, a higher chance means fewer blooms, since
      it holds when the draw lies ABOVE the chance. */
  function MoreBlooms(draw: real, chance: real): (r: bool)
    ensures 0.0 <= draw < 1.0 && chance >= 1.0 ==> !r
    ensures 0.0 <= draw && chance < 0.0 ==> r
    ensures r && chance >= 0.0 ==> draw > 0.0
  {
    draw > chance
  }

  /** Raising the bloom chance can only turn a bloom into no bloom. */
  lemma MoreBloomsAntitone(draw: real, c1: real, c2: real)
    requires c1 <= c2
    ensures MoreBlooms(draw, c2) ==> MoreBlooms(draw, c1)
  {
  }

  /** Layer.decay on values: petal i is left alone when draws[i] is above
      DECAY_SKIP and decayed otherwise. */
  function DecayAll(vs: seq<PetalValue>, draws: seq<real>): (r: seq<PetalValue>)
    requires |draws| >= |vs|
    ensures |r| == |vs|
    ensures forall i :: 0 <= i < |vs| ==> r[i] == vs[i] || r[i] == Decayed(vs[i])
    ensures forall i :: 0 <= i < |vs| ==> (r[i] == vs[i] <== draws[i] > DECAY_SKIP)
    ensures forall i :: 0 <= i < |vs| ==> (r[i] == Decayed(vs[i]) <== draws[i] <= DECAY_SKIP)
  {
    seq(|vs|, i requires 0 <= i < |vs| => if draws[i] > DECAY_SKIP then vs[i] else Decayed(vs[i]))
  }

  /** Layer.drop on values: one Dropped step per petal. */
  function DropAll(e: Edge, driftChance: real, vs: seq<PetalValue>, draws: seq<real>): (r: seq<PetalValue>)
    requires |draws| >= |vs|
    ensures |r| == |vs|
    ensures forall i :: 0 <= i < |vs| ==> r[i] == Dropped(e, driftChance, draws[i], vs[i])
  {
    seq(|vs|, i requires 0 <= i < |vs| => Dropped(e, driftChance, draws[i], vs[i]))
  }

  /** Decay and drop never touch the `dead` flag of a skipped petal, never
      move a decayed one and never fade a moved one. */
  lemma DecayDropChangeOneThingEach(e: Edge, driftChance: real, vs: seq<PetalValue>, dd: seq<real>, gd: seq<real>, i: int)
    requires |dd| >= |vs| && |gd| >= |vs| && 0 <= i < |vs|
    ensures var d := DecayAll(vs, dd)[i];
            d.x == vs[i].x && d.y == vs[i].y && d.decay_rate == vs[i].decay_rate
    ensures var g := DropAll(e, driftChance, vs, gd)[i];
            g.brightness == vs[i].brightness && g.dead == vs[i].dead
  {
  }

  class Layer {
    const edge: Edge
    const wind: Wind
    const bloom_chance: real
    const petal_brightness_min: int
    const petal_brightness_max: int
    const petal_decay_rate_max: int
    const petal_drift_chance: real
    const petals_per_bloom_max: int

    var petals: seq<Petal>

    ghost predicate Valid()
      reads this
    {
      Distinct(petals)
    }

    /** The Layer constructor asserts 0 <= min <= max <= 255, so the sort that
        follows it keeps the two bounds as given. */
    constructor (edge: Edge, wind: Wind, bloom_chance: real,
                 petal_brightness_max: int, petal_brightness_min: int,
                 petal_decay_rate_max: int, petal_drift_chance: real,
                 petals_per_bloom_max: int, petals: seq<Petal>)
      requires 0 <= petal_brightness_min <= petal_brightness_max <= 255
      requires Distinct(petals)
      ensures Valid()
      ensures this.edge == edge && this.wind == wind && this.bloom_chance == bloom_chance
      ensures this.petal_brightness_min == petal_brightness_min
      ensures this.petal_brightness_max == petal_brightness_max
      ensures this.petal_decay_rate_max == petal_decay_rate_max
      ensures this.petal_drift_chance == petal_drift_chance
      ensures this.petals_per_bloom_max == petals_per_bloom_max
      ensures this.petals == petals
    {
      this.edge := edge;
      this.wind := wind;
      this.bloom_chance := bloom_chance;
      this.petal_brightness_min := petal_brightness_min;
      this.petal_brightness_max := petal_brightness_max;
      this.petal_decay_rate_max := petal_decay_rate_max;
      this.petal_drift_chance := petal_drift_chance;
      this.petals_per_bloom_max := petals_per_bloom_max;
      this.petals := petals;
    }

    /** The draws Layer.bloom may produce: a position on the edge's pen,
        a brightness in the layer's band, a decay rate in [0, max]. */
    predicate Admits(s: Spawn)
    {
      SpawnFits(edge, petal_brightness_min, petal_brightness_max, petal_decay_rate_max, s)
    }

    /** Layer.bloom: a new live petal built from in-range draws. */
    method Bloom(s: Spawn) returns (p: Petal)
      requires Admits(s)
      ensures fresh(p)
      ensures p.Value() == NewPetal(s)
    {
      p := new Petal(s.x, s.y, s.brightness, s.decay_rate);
    }

    /** Layer.clean_petals: keeps exactly the petals not marked dead, in order. */
    method CleanPetals()
      requires Valid()
      modifies this
      ensures Valid()
      ensures petals == LiveObjects(old(petals))
      ensures Values(petals) == Live(old(Values(petals)))
    {
      LiveObjectsDistinct(petals);
      LiveObjectsValues(petals);
      petals := LiveObjects(petals);
    }

    /** Layer.draw: every petal draws itself, in order. */
    method Draw(display: Display)
      requires Valid()
      modifies petals, display
      ensures Values(petals) == MarkAll(old(Values(petals)), display.width, display.height)
      ensures display.log == old(display.log) + DrawLog(old(Values(petals)), display.width, display.height)
    {
      var ps := petals;
      assert Distinct(ps);
      ghost var before := Values(ps);
      ghost var log0 := display.log;
      var i := 0;
      while i < |ps|
        invariant 0 <= i <= |ps|
        invariant forall k :: 0 <= k < i ==> ps[k].Value() == Marked(before[k], display.width, display.height)
        invariant forall k :: i <= k < |ps| ==> ps[k].Value() == before[k]
        invariant display.log == log0 + DrawLog(before[..i], display.width, display.height)
      {
        DrawLogStep(log0, display.log, before, i, display.width, display.height);
        ps[i].Draw(display);
        i := i + 1;
      }
      assert before[..|ps|] == before;
    }

    /** Layer.decay: `draws[i]` is the skip draw for petal i. */
    method Decay(draws: seq<real>)
      requires Valid() && |draws| >= |petals|
      modifies petals
      ensures Values(petals) == DecayAll(old(Values(petals)), draws)
    {
      var ps := petals;
      assert Distinct(ps);
      ghost var before := Values(ps);
      var i := 0;
      while i < |ps|
        invariant 0 <= i <= |ps|
        invariant forall k :: 0 <= k < i ==> ps[k].Value() == DecayAll(before, draws)[k]
        invariant forall k :: i <= k < |ps| ==> ps[k].Value() == before[k]
      {
        if draws[i] <= DECAY_SKIP {
          var _ := ps[i].Decay();
        }
        i := i + 1;
      }
    }

    /** Layer.drop: `draws[i]` is the drift draw for petal i. */
    method Drop(draws: seq<real>)
      requires Valid() && |draws| >= |petals|
      modifies petals
      ensures Values(petals) == DropAll(edge, petal_drift_chance, old(Values(petals)), draws)
    {
      var ps := petals;
      assert Distinct(ps);
      ghost var before := Values(ps);
      var i := 0;
      while i < |ps|
        invariant 0 <= i <= |ps|
        invariant forall k :: 0 <= k < i ==> ps[k].Value() == Dropped(edge, petal_drift_chance, draws[k], before[k])
        invariant forall k :: i <= k < |ps| ==> ps[k].Value() == before[k]
      {
        var petal := ps[i];
        if draws[i] >= petal_drift_chance {
          var (nx, ny) := edge.ApplyGravity(petal.x, petal.y);
          petal.x, petal.y := nx, ny;
        }
        i := i + 1;
      }
    }

    /** The draws generate_blooms accepts: when more_blooms holds, at most
        petals_per_bloom_max new petals, each with in-range draws. */
    predicate AdmitsBlooms(draw: real, spawns: seq<Spawn>)
    {
      MoreBlooms(draw, bloom_chance) ==>
        |spawns| <= petals_per_bloom_max && forall i :: 0 <= i < |spawns| ==> Admits(spawns[i])
    }

    /** Layer.generate_blooms: `draw` is the more_blooms draw and `spawns` the
        new petals' draws (their number is the randint count). */
    method GenerateBlooms(draw: real, spawns: seq<Spawn>)
      requires Valid() && AdmitsBlooms(draw, spawns)
      modifies this
      ensures Valid()
      ensures |petals| == |old(petals)| + if MoreBlooms(draw, bloom_chance) then |spawns| else 0
      ensures petals[..|old(petals)|] == old(petals)
      ensures forall k :: |old(petals)| <= k < |petals| ==> fresh(petals[k])
      ensures Values(petals) == old(Values(petals)) + if MoreBlooms(draw, bloom_chance) then NewPetals(spawns) else []
    {
      if MoreBlooms(draw, bloom_chance) {
        var newPetals := Blooms(spawns);
        ValuesAppend(petals, newPetals);
        DistinctAppend(petals, newPetals);
        petals := petals + newPetals;
      }
    }

    /** The list comprehension of generate_blooms: one Layer.bloom per draw. */
    method Blooms(spawns: seq<Spawn>) returns (ps: seq<Petal>)
      requires forall i :: 0 <= i < |spawns| ==> Admits(spawns[i])
      ensures |ps| == |spawns| && Distinct(ps)
      ensures forall k :: 0 <= k < |ps| ==> fresh(ps[k])
      ensures Values(ps) == NewPetals(spawns)
    {
      ps := [];
      var i := 0;
      while i < |spawns|
        invariant 0 <= i <= |spawns| && |ps| == i
        invariant forall k :: 0 <= k < i ==> fresh(ps[k]) && ps[k].Value() == NewPetal(spawns[k])
        invariant Distinct(ps)
      {
        var p := Bloom(spawns[i]);
        ps := ps + [p];
        i := i + 1;
      }
    }

    /** What one frame of LayeredPetalDisplay.draw does to this layer's
        petals: draw, decay, drop, clean, bloom, in that order. */
    function FrameValues(vs: seq<PetalValue>, width: int, height: int, d: LayerDraws): seq<PetalValue>
      requires |d.decay| >= |vs| && |d.drop| >= |vs|
    {
      var drawn := MarkAll(vs, width, height);
      var decayed := DecayAll(drawn, d.decay);
      var dropped := DropAll(edge, petal_drift_chance, decayed, d.drop);
      Live(dropped) + if MoreBlooms(d.bloom, bloom_chance) then NewPetals(d.spawns) else []
    }

    /** After a frame no petal of the layer is dead, the survivors come
        first and the new petals, each inside the layer's band and pen,
        come last. */
    lemma FrameValuesShape(vs: seq<PetalValue>, width: int, height: int, d: LayerDraws)
      requires |d.decay| >= |vs| && |d.drop| >= |vs| && AdmitsBlooms(d.bloom, d.spawns)
      ensures var r := FrameValues(vs, width, height, d);
              var n := if MoreBlooms(d.bloom, bloom_chance) then |d.spawns| else 0;
              (forall v :: v in r ==> !v.dead) &&
              n <= |r| <= |vs| + n &&
              forall k :: |r| - n <= k < |r| ==>
                edge.PixelPen().Contains(r[k].x, r[k].y) &&
                petal_brightness_min <= r[k].brightness <= petal_brightness_max &&
                0 <= r[k].decay_rate <= petal_decay_rate_max
    {
      var drawn := MarkAll(vs, width, height);
      var decayed := DecayAll(drawn, d.decay);
      var dropped := DropAll(edge, petal_drift_chance, decayed, d.drop);
      LiveKeepsExactlyLive(dropped);
      LiveLength(dropped);
      var r := FrameValues(vs, width, height, d);
      assert r == Live(dropped) + if MoreBlooms(d.bloom, bloom_chance) then NewPetals(d.spawns) else [];
      forall v | v in r ensures !v.dead {
        if v !in Live(dropped) {
          var k :| 0 <= k < |r| && r[k] == v;
        }
      }
    }

    /** The body of LayeredPetalDisplay.draw's loop for this layer, before
        the gust: draw, decay, drop, clean_petals, generate_blooms. */
    method Frame(display: Display, d: LayerDraws)
      requires Valid() && |d.decay| >= |petals| && |d.drop| >= |petals|
      requires AdmitsBlooms(d.bloom, d.spawns)
      modifies this, petals, display
      ensures Valid()
      ensures Values(petals) == FrameValues(old(Values(petals)), display.width, display.height, d)
      ensures display.log == old(display.log) + DrawLog(old(Values(petals)), display.width, display.height)
      ensures forall p :: p in petals ==> p in old(petals) || fresh(p)
    {
      Draw(display);
      Decay(d.decay);
      Drop(d.drop);
      CleanPetals();
      GenerateBlooms(d.bloom, d.spawns);
    }

    /** Layer.gust: the wind blows this layer's petals. */
    method Gust(d: GustDraw, misses: seq<real>)
      requires Valid() && |misses| >= |petals| && wind.Admits(d)
      modifies wind, petals
      ensures wind.State() == NextGust(old(wind.State()), wind.gust_chance, d)
      ensures !Evaluated(wind.gust_chance, d) ==> Values(petals) == old(Values(petals))
      ensures Evaluated(wind.gust_chance, d) ==>
                Values(petals) == BlowAll(wind.edge, wind.gust_miss_chance, wind.gust_strength, old(Values(petals)), misses)
    {
      wind.Blow(petals, d, misses);
    }
  }
}
