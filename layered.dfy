// LayeredPetalDisplay (lib/layeredpetalbit.py:214-286): splits a brightness
// range into brackets, builds one Layer per bracket and runs every layer's
// frame pipeline in a fixed order, gusting only the first layer.
module Layered {
  import opened Sink
  import opened Edges
  import opened Petals
  import opened Gusts
  import opened Layers

  /** The exceptions the bracket computation raises: `//` by a zero layer
      count (ZeroDivisionError) and `range` with a zero step (ValueError). */
  datatype ConfigError = ZeroDivision | ZeroStep

  datatype BracketResult = Ok(value: seq<int>) | Err(error: ConfigError)

  /** Python's floor division `a // b`. */
  function FloorDiv(a: int, b: int): (q: int)
    requires b != 0
    ensures b > 0 ==> q * b <= a < q * b + b
    ensures b < 0 ==> q * b + b < a <= q * b
  {
    if b > 0 then a / b else (-a) / (-b)
  }

  /** Python's `range(start, stop, step)` as a list. */
  function PyRange(start: int, stop: int, step: int): seq<int>
    requires step != 0
    decreases if step > 0 then stop - start else start - stop
  {
    if step > 0 && start < stop then [start] + PyRange(start + step, stop, step)
    else if step < 0 && start > stop then [start] + PyRange(start + step, stop, step)
    else []
  }

  /** An upward range stays in [start, stop). */
  lemma {:induction false} PyRangeBelow(start: int, stop: int, step: int)
    requires step > 0
    ensures forall x :: x in PyRange(start, stop, step) ==> start <= x < stop
    decreases stop - start
  {
    if start < stop {
      PyRangeBelow(start + step, stop, step);
      assert PyRange(start, stop, step) == [start] + PyRange(start + step, stop, step);
    }
  }

  /** An upward range holds exactly start, start + step, ... below stop. */
  lemma {:induction false} PyRangeElements(start: int, stop: int, step: int)
    requires step > 0
    ensures var r := PyRange(start, stop, step);
            (forall k :: 0 <= k < |r| ==> r[k] == start + k * step && r[k] < stop) &&
            (forall k :: 0 <= k && start + k * step < stop ==> k < |r|)
    decreases stop - start
  {
    var r := PyRange(start, stop, step);
    if start < stop {
      PyRangeElements(start + step, stop, step);
      PyRangeBelow(start, stop, step);
      var t := PyRange(start + step, stop, step);
      assert r == [start] + t;
      forall k | 0 <= k < |r| ensures r[k] == start + k * step && r[k] < stop {
        assert r[k] in r;
        if k > 0 {
          var j := k - 1;
          assert 0 <= j < |t| && r[k] == t[j];
          assert t[j] == start + step + j * step;
          MulPred(k, step);
        }
      }
      forall k | 0 <= k && start + k * step < stop ensures k < |r| {
        if k > 0 {
          MulPred(k, step);
          assert (start + step) + (k - 1) * step < stop;
          assert k - 1 < |t|;
        }
      }
    }
  }

  lemma MulPred(k: int, step: int)
    ensures (k - 1) * step + step == k * step
  {
  }

  lemma MulMono(a: int, b: int, c: int)
    requires a <= b && c >= 0
    ensures a * c <= b * c
  {
    assert b * c - a * c == (b - a) * c;
  }

  /** The step between brightness brackets. */
  function BracketStep(brightness_min: int, brightness_max: int, num_of_layers: int): int
    requires num_of_layers != 0
  {
    FloorDiv(brightness_max - brightness_min, num_of_layers)
  }

  /** The brightness_brackets tuple, or the exception computing it raises. */
  function Brackets(brightness_min: int, brightness_max: int, num_of_layers: int): (r: BracketResult)
    ensures r.Err? <==> num_of_layers == 0 || BracketStep(brightness_min, brightness_max, num_of_layers) == 0
    ensures num_of_layers == 0 ==> r == Err(ZeroDivision)
  {
    if num_of_layers == 0 then Err(ZeroDivision)
    else
      var step := BracketStep(brightness_min, brightness_max, num_of_layers);
      if step == 0 then Err(ZeroStep)
      else Ok(PyRange(brightness_min, brightness_max + 1, step))
  }

  /** With n >= 1 layers and a positive step, the brackets start at min, go
      up in equal steps, stay within max, and there are at least n + 1 of
      them, so brackets[num + 1] exists for every layer num < n. */
  lemma BracketsShape(brightness_min: int, brightness_max: int, n: int)
    requires n >= 1 && BracketStep(brightness_min, brightness_max, n) > 0
    ensures var step := BracketStep(brightness_min, brightness_max, n);
            var b := Brackets(brightness_min, brightness_max, n).value;
            |b| >= n + 1 && b[0] == brightness_min && b[n] == brightness_min + n * step &&
            (forall k :: 0 <= k < |b| ==> b[k] == brightness_min + k * step) &&
            (forall k :: 0 <= k < |b| ==> brightness_min <= b[k] <= brightness_max) &&
            (forall k :: 0 <= k < |b| - 1 ==> b[k] < b[k + 1] && b[k + 1] == b[k] + step)
  {
    var step := BracketStep(brightness_min, brightness_max, n);
    PyRangeElements(brightness_min, brightness_max + 1, step);
    assert n * step <= brightness_max - brightness_min;
    var b := Brackets(brightness_min, brightness_max, n).value;
    forall k | 0 <= k < |b| ensures brightness_min <= b[k] {
      assert b[k] == brightness_min + k * step;
    }
    forall k | 0 <= k < |b| - 1 ensures b[k + 1] == b[k] + step {
      assert b[k + 1] == brightness_min + (k + 1) * step == brightness_min + k * step + step;
    }
  }

  /** The configuration of main: three layers over 10..200 become the
      brackets 10, 73, 136, 199, so the layers' bands are [10, 73], [73, 136]
      and [136, 199]: adjacent bands share an endpoint and 200 is never
      reached. */
  lemma MainBrackets()
    ensures Brackets(10, 200, 3) == Ok([10, 73, 136, 199])
  {
    assert BracketStep(10, 200, 3) == 63;
    assert PyRange(199 + 63, 201, 63) == [];
  }

  /** A layer count that does not fit in the range raises ValueError. */
  lemma TooManyLayers()
    ensures Brackets(10, 12, 3) == Err(ZeroStep)
  {
  }

  /** create_layers builds every layer with these two settings. */
  const LAYER_DECAY_RATE_MAX: int := 10
  const LAYER_DRIFT_CHANCE: real := 0.5

  /** The petal lists of the layers, in order. */
  ghost function PetalLists(ls: seq<Layer>): (r: seq<seq<Petal>>)
    reads ls
    ensures |r| == |ls| && forall k :: 0 <= k < |ls| ==> r[k] == ls[k].petals
  {
    seq(|ls|, k requires 0 <= k < |ls| reads ls => ls[k].petals)
  }

  /** No list holds a petal twice and no petal belongs to two lists. */
  ghost predicate ListsValid(pss: seq<seq<Petal>>)
  {
    (forall k :: 0 <= k < |pss| ==> Distinct(pss[k])) &&
    forall a, b :: 0 <= a < |pss| && 0 <= b < |pss| && a != b ==>
      forall p :: p in pss[a] ==> p !in pss[b]
  }

  /** Replacing one list by a list of distinct petals, each either from
      that list or from no list, keeps the lists valid. */
  lemma ListsValidReplace(pss: seq<seq<Petal>>, i: int, q: seq<Petal>)
    requires ListsValid(pss) && 0 <= i < |pss| && Distinct(q)
    requires forall p :: p in q ==> p in pss[i] || forall k :: 0 <= k < |pss| ==> p !in pss[k]
    ensures ListsValid(pss[i := q])
  {
  }

  /** The layers are distinct, share the wind and the edge, and their petal
      lists are valid. */
  ghost predicate LayersValid(ls: seq<Layer>, wind: Wind, edge: Edge)
    reads ls
  {
    (forall i, j :: 0 <= i < j < |ls| ==> ls[i] != ls[j]) &&
    (forall k :: 0 <= k < |ls| ==> ls[k].wind == wind && ls[k].edge == edge) &&
    ListsValid(PetalLists(ls))
  }

  lemma LayersValidSnoc(ls: seq<Layer>, l: Layer, wind: Wind, edge: Edge)
    requires LayersValid(ls, wind, edge)
    requires l !in ls && l.Valid() && l.wind == wind && l.edge == edge
    requires forall k, p :: 0 <= k < |ls| && p in l.petals ==> p !in ls[k].petals
    ensures LayersValid(ls + [l], wind, edge)
  {
  }

  /** The petals of every layer. */
  ghost function AllPetals(ls: seq<Layer>): set<Petal>
    reads ls
  {
    set k, p | 0 <= k < |ls| && p in ls[k].petals :: p
  }

  /** The states of every layer's petals. */
  ghost function LayerValues(ls: seq<Layer>): (r: seq<seq<PetalValue>>)
    reads ls, AllPetals(ls)
    ensures |r| == |ls|
    ensures forall k :: 0 <= k < |ls| ==> r[k] == Values(ls[k].petals)
  {
    seq(|ls|, k requires 0 <= k < |ls| reads ls, AllPetals(ls) =>
      assert forall p :: p in ls[k].petals ==> p in AllPetals(ls);
      Values(ls[k].petals))
  }

  twostate lemma ValuesUnchanged(ps: seq<Petal>)
    requires forall j :: 0 <= j < |ps| ==> unchanged(ps[j])
    ensures Values(ps) == old(Values(ps))
  {
  }

  /** Replacing one layer's states in a snapshot of all of them. */
  lemma LayerValuesUpdate(ls: seq<Layer>, prev: seq<seq<PetalValue>>, i: int, x: seq<PetalValue>)
    requires |prev| == |ls| && 0 <= i < |ls|
    requires forall k :: 0 <= k < |ls| && k != i ==> Values(ls[k].petals) == prev[k]
    requires Values(ls[i].petals) == x
    ensures LayerValues(ls) == prev[i := x]
  {
  }

  lemma FrameValuesLength(l: Layer, vs: seq<PetalValue>, width: int, height: int, d: LayerDraws)
    requires |d.decay| >= |vs| && |d.drop| >= |vs|
    ensures |l.FrameValues(vs, width, height, d)| <= |vs| + |d.spawns|
  {
    LiveLength(DropAll(l.edge, l.petal_drift_chance, DecayAll(MarkAll(vs, width, height), d.decay), d.drop));
  }

  /** The display writes of the draw passes of layers[..n], from their
      states `vs[k]` at the start of the frame. */
  function LayersLog(vs: seq<seq<PetalValue>>, width: int, height: int, n: int): seq<Event>
    requires 0 <= n <= |vs|
  {
    if n == 0 then [] else LayersLog(vs, width, height, n - 1) + DrawLog(vs[n - 1], width, height)
  }

  /** What draw does to the states `vs` of layer k of `ls`: the layer
      pipeline, followed for the first layer by the gust of `wind`, in
      state `g`, with the gust draws `gust` and `misses`. */
  function LayerAfterFrame(ls: seq<Layer>, wind: Wind, k: int, vs: seq<PetalValue>, width: int, height: int,
                           d: LayerDraws, g: GustState, gust: GustDraw, misses: seq<real>): seq<PetalValue>
    requires 0 <= k < |ls| && |d.decay| >= |vs| && |d.drop| >= |vs|
  {
    var framed := ls[k].FrameValues(vs, width, height, d);
    if k == 0 && Evaluated(wind.gust_chance, gust) && |misses| >= |framed| then
      BlowAll(wind.edge, wind.gust_miss_chance, NextGust(g, wind.gust_chance, gust).strength, framed, misses)
    else framed
  }

  /** The draws each layer's frame needs: a decay and a drop draw per petal. */
  predicate DrawsFit(vs: seq<seq<PetalValue>>, draws: seq<LayerDraws>)
  {
    |vs| == |draws| && forall k :: 0 <= k < |vs| ==> |draws[k].decay| >= |vs[k]| && |draws[k].drop| >= |vs[k]|
  }

  /** The layer states after draw has handled ls[..n], from the states `vs`
      at the start: each of those layers is framed (and the first one
      gusted), the rest are as they were. */
  function FramedPrefix(ls: seq<Layer>, wind: Wind, vs: seq<seq<PetalValue>>, n: nat, width: int, height: int,
                        draws: seq<LayerDraws>, g: GustState, gust: GustDraw, misses: seq<real>): (r: seq<seq<PetalValue>>)
    requires |vs| == |ls| && DrawsFit(vs, draws) && n <= |vs|
    ensures |r| == |vs|
  {
    if n == 0 then vs
    else FramedPrefix(ls, wind, vs, n - 1, width, height, draws, g, gust, misses)[n - 1 :=
           LayerAfterFrame(ls, wind, n - 1, vs[n - 1], width, height, draws[n - 1], g, gust, misses)]
  }

  /** FramedPrefix leaves the layers from n on as they were. */
  lemma {:induction false} FramedPrefixRest(ls: seq<Layer>, wind: Wind, vs: seq<seq<PetalValue>>, n: nat, width: int, height: int,
                                            draws: seq<LayerDraws>, g: GustState, gust: GustDraw, misses: seq<real>, k: int)
    requires |vs| == |ls| && DrawsFit(vs, draws) && n <= k < |vs|
    ensures FramedPrefix(ls, wind, vs, n, width, height, draws, g, gust, misses)[k] == vs[k]
  {
    if n > 0 {
      FramedPrefixRest(ls, wind, vs, n - 1, width, height, draws, g, gust, misses, k);
    }
  }

  /** After draw has handled ls[..n], each of them holds its frame. */
  lemma {:induction false} FramedPrefixDone(ls: seq<Layer>, wind: Wind, vs: seq<seq<PetalValue>>, n: nat, width: int, height: int,
                                            draws: seq<LayerDraws>, g: GustState, gust: GustDraw, misses: seq<real>, k: int)
    requires |vs| == |ls| && DrawsFit(vs, draws) && n <= |vs| && 0 <= k < n
    ensures FramedPrefix(ls, wind, vs, n, width, height, draws, g, gust, misses)[k] ==
            LayerAfterFrame(ls, wind, k, vs[k], width, height, draws[k], g, gust, misses)
  {
    if k < n - 1 {
      FramedPrefixDone(ls, wind, vs, n - 1, width, height, draws, g, gust, misses, k);
    }
  }

  /** Whatever the draws, a frame leaves no dead petal in any layer. */
  lemma LayerAfterFrameLive(ls: seq<Layer>, wind: Wind, k: int, vs: seq<PetalValue>, width: int, height: int,
                            d: LayerDraws, g: GustState, gust: GustDraw, misses: seq<real>)
    requires 0 <= k < |ls| && |d.decay| >= |vs| && |d.drop| >= |vs|
    requires ls[k].AdmitsBlooms(d.bloom, d.spawns)
    ensures forall v :: v in LayerAfterFrame(ls, wind, k, vs, width, height, d, g, gust, misses) ==> !v.dead
  {
    ls[k].FrameValuesShape(vs, width, height, d);
  }

  /** The settings a layer is built with. */
  datatype LayerSettings = LayerSettings(edge: Edge, wind: Wind, bloom_chance: real,
                                         petal_brightness_min: int, petal_brightness_max: int,
                                         petal_decay_rate_max: int, petal_drift_chance: real,
                                         petals_per_bloom_max: int)

  function Settings(l: Layer): LayerSettings
  {
    LayerSettings(l.edge, l.wind, l.bloom_chance, l.petal_brightness_min, l.petal_brightness_max,
                  l.petal_decay_rate_max, l.petal_drift_chance, l.petals_per_bloom_max)
  }

  class LayeredPetalDisplay {
    const edge: Edge
    const wind: Wind
    const bloom_chance: real
    const brightness_max: int
    const brightness_min: int
    const num_of_layers: int
    const petals_per_bloom_max: int
    const brightness_brackets: seq<int>

    var layers: seq<Layer>

    ghost predicate Valid()
      reads this, layers
    {
      BracketsComputed() && LayersValid(layers, wind, edge)
    }

    /** The brackets are those the constructor computed. */
    ghost predicate BracketsComputed()
    {
      Brackets(brightness_min, brightness_max, num_of_layers).Ok? &&
      brightness_brackets == Brackets(brightness_min, brightness_max, num_of_layers).value
    }

    /** The source computes the brackets in the constructor, so a zero layer
        count or a zero step raises there. */
    constructor (edge: Edge, wind: Wind, bloom_chance: real, brightness_max: int, brightness_min: int,
                 num_of_layers: int, petals_per_bloom_max: int)
      requires Brackets(brightness_min, brightness_max, num_of_layers).Ok?
      ensures Valid() && layers == []
      ensures this.edge == edge && this.wind == wind && this.bloom_chance == bloom_chance
      ensures this.brightness_max == brightness_max && this.brightness_min == brightness_min
      ensures this.num_of_layers == num_of_layers && this.petals_per_bloom_max == petals_per_bloom_max
      ensures brightness_brackets == Brackets(brightness_min, brightness_max, num_of_layers).value
    {
      this.edge := edge;
      this.wind := wind;
      this.bloom_chance := bloom_chance;
      this.brightness_max := brightness_max;
      this.brightness_min := brightness_min;
      this.num_of_layers := num_of_layers;
      this.petals_per_bloom_max := petals_per_bloom_max;
      brightness_brackets := Brackets(brightness_min, brightness_max, num_of_layers).value;
      layers := [];
    }

    /** The band create_layers gives layer `num`, from its lower bracket
        brightness_brackets[num] to the next, brightness_brackets[num + 1]. */
    function BandLow(num: int): int
      requires num_of_layers != 0
    {
      brightness_min + num * BracketStep(brightness_min, brightness_max, num_of_layers)
    }

    /** The draws the seeding generate_blooms of layer `num` accepts. */
    predicate SeedAdmits(num: int, draw: real, spawns: seq<Spawn>)
      requires num_of_layers != 0
    {
      MoreBlooms(draw, bloom_chance) ==>
        |spawns| <= petals_per_bloom_max &&
        forall i :: 0 <= i < |spawns| ==>
          edge.PixelPen().Contains(spawns[i].x, spawns[i].y) &&
          BandLow(num) <= spawns[i].brightness <= BandLow(num + 1) &&
          0 <= spawns[i].decay_rate <= LAYER_DECAY_RATE_MAX
    }

    /** The settings create_layers gives the layer of bracket `num`. */
    function SettingsFor(num: int): LayerSettings
      requires num_of_layers != 0
    {
      LayerSettings(edge, wind, bloom_chance, BandLow(num), BandLow(num + 1),
                    LAYER_DECAY_RATE_MAX, LAYER_DRIFT_CHANCE, petals_per_bloom_max)
    }

    /** Layer `l` is the one create_layers builds for bracket `num` from
        the seeding draws `seed`. */
    ghost predicate BuiltFor(l: Layer, num: int, seed: (real, seq<Spawn>))
      reads l, l.petals
      requires num_of_layers != 0
    {
      Settings(l) == SettingsFor(num) &&
      Values(l.petals) == if MoreBlooms(seed.0, bloom_chance) then NewPetals(seed.1) else []
    }

    /** The layer create_layers builds for bracket `num`, seeded by one
        generate_blooms call (the body of its loop). */
    method NewLayer(num: int, draw: real, spawns: seq<Spawn>) returns (layer: Layer)
      requires BracketsComputed()
      requires num_of_layers >= 1 && BracketStep(brightness_min, brightness_max, num_of_layers) > 0
      requires 0 <= brightness_min && BandLow(num_of_layers) <= 255
      requires 0 <= num < num_of_layers && SeedAdmits(num, draw, spawns)
      ensures fresh(layer) && layer.Valid()
      ensures forall p :: p in layer.petals ==> fresh(p)
      ensures BuiltFor(layer, num, (draw, spawns))
    {
      var step := BracketStep(brightness_min, brightness_max, num_of_layers);
      BracketsShape(brightness_min, brightness_max, num_of_layers);
      var petal_brightness_min := brightness_brackets[num];
      var petal_brightness_max := brightness_brackets[num + 1];
      assert petal_brightness_min == BandLow(num) && petal_brightness_max == BandLow(num + 1);
      MulMono(num + 1, num_of_layers, step);
      assert 0 <= petal_brightness_min <= petal_brightness_max <= 255;
      layer := new Layer(edge, wind, bloom_chance, petal_brightness_max, petal_brightness_min,
                         LAYER_DECAY_RATE_MAX, LAYER_DRIFT_CHANCE, petals_per_bloom_max, []);
      layer.GenerateBlooms(draw, spawns);
    }

    /** One iteration of create_layers: build the layer and append it. */
    method AddLayer(num: int, draw: real, spawns: seq<Spawn>) returns (layer: Layer)
      requires Valid()
      requires num_of_layers >= 1 && BracketStep(brightness_min, brightness_max, num_of_layers) > 0
      requires 0 <= brightness_min && BandLow(num_of_layers) <= 255
      requires 0 <= num < num_of_layers && SeedAdmits(num, draw, spawns)
      modifies this
      ensures Valid() && layers == old(layers) + [layer]
      ensures fresh(layer) && BuiltFor(layer, num, (draw, spawns))
    {
      layer := NewLayer(num, draw, spawns);
      LayersValidSnoc(layers, layer, wind, edge);
      layers := layers + [layer];
    }

    /** LayeredPetalDisplay.create_layers: one new layer per bracket, each
        seeded by one generate_blooms call; `seeds[num]` are its draws.
        Layers are appended, so they add to those of an earlier call. */
    method CreateLayers(seeds: seq<(real, seq<Spawn>)>) returns (r: seq<Layer>)
      requires Valid()
      requires num_of_layers >= 1 && BracketStep(brightness_min, brightness_max, num_of_layers) > 0
      requires 0 <= brightness_min && BandLow(num_of_layers) <= 255
      requires |seeds| == num_of_layers
      requires forall num :: 0 <= num < num_of_layers ==> SeedAdmits(num, seeds[num].0, seeds[num].1)
      modifies this
      ensures Valid() && r == layers && |layers| == |old(layers)| + num_of_layers
      ensures layers[..|old(layers)|] == old(layers)
      ensures forall l :: l in layers[|old(layers)|..] ==> fresh(l)
      ensures AllBuilt(layers[|old(layers)|..], seeds)
    {
      ghost var created := BuildLayers(seeds);
      assert layers[|old(layers)|..] == created;
      r := layers;
    }

    /** The loop of create_layers; `created` are the new layers. */
    method BuildLayers(seeds: seq<(real, seq<Spawn>)>) returns (ghost created: seq<Layer>)
      requires Valid()
      requires num_of_layers >= 1 && BracketStep(brightness_min, brightness_max, num_of_layers) > 0
      requires 0 <= brightness_min && BandLow(num_of_layers) <= 255
      requires |seeds| == num_of_layers
      requires forall num :: 0 <= num < num_of_layers ==> SeedAdmits(num, seeds[num].0, seeds[num].1)
      modifies this
      ensures Valid() && |created| == num_of_layers && layers == old(layers) + created
      ensures (forall l :: l in created ==> fresh(l)) && AllBuilt(created, seeds)
    {
      created := [];
      var num := 0;
      while num < num_of_layers
        invariant 0 <= num <= num_of_layers && |created| == num
        invariant layers == old(layers) + created
        invariant Valid()
        invariant forall k :: 0 <= k < num ==> fresh(created[k])
        invariant AllBuilt(created, seeds)
      {
        var layer := AddLayer(num, seeds[num].0, seeds[num].1);
        AppendAssoc(old(layers), created, [layer]);
        AllBuiltSnoc(created, layer, seeds);
        created := created + [layer];
        num := num + 1;
      }
    }

    /** Each of `created` is the layer create_layers builds for its bracket
        (the k-th for bracket k) from that bracket's seeding draws. */
    ghost predicate AllBuilt(created: seq<Layer>, seeds: seq<(real, seq<Spawn>)>)
      reads created, AllPetals(created)
      requires num_of_layers != 0
    {
      assert forall k, p :: 0 <= k < |created| && p in created[k].petals ==> p in AllPetals(created);
      |created| <= |seeds| && forall k :: 0 <= k < |created| ==> BuiltFor(created[k], k, seeds[k])
    }

    lemma AllBuiltSnoc(created: seq<Layer>, l: Layer, seeds: seq<(real, seq<Spawn>)>)
      requires num_of_layers != 0 && AllBuilt(created, seeds) && |created| < |seeds|
      requires BuiltFor(l, |created|, seeds[|created|])
      ensures AllBuilt(created + [l], seeds)
    {
    }

    /** The frame of layer i in draw (the calls before the gust). No other
        layer changes. */
    method FrameOf(i: int, display: Display, d: LayerDraws, ghost ls: seq<Layer>, ghost prev: seq<seq<PetalValue>>)
      requires Valid() && layers == ls && 0 <= i < |ls| && LayerValues(ls) == prev
      requires |d.decay| >= |prev[i]| && |d.drop| >= |prev[i]| && ls[i].AdmitsBlooms(d.bloom, d.spawns)
      modifies display, ls[i], ls[i].petals
      ensures Valid()
      ensures forall k :: 0 <= k < |ls| && k != i ==> ls[k].petals == old(ls[k].petals)
      ensures forall p :: p in ls[i].petals ==> p in old(ls[i].petals) || fresh(p)
      ensures LayerValues(ls) == prev[i := ls[i].FrameValues(prev[i], display.width, display.height, d)]
      ensures display.log == old(display.log) + DrawLog(prev[i], display.width, display.height)
    {
      var layer := layers[i];
      ghost var olds := PetalLists(ls);
      layer.Frame(display, d);
      assert PetalLists(ls) == olds[i := layer.petals];
      forall p | p in layer.petals
        ensures p in olds[i] || forall k :: 0 <= k < |olds| ==> p !in olds[k]
      {
      }
      ListsValidReplace(olds, i, layer.petals);
      forall k | 0 <= k < |ls| && k != i
        ensures Values(ls[k].petals) == prev[k]
      {
        var ps := ls[k].petals;
        assert forall j :: 0 <= j < |ps| ==> ps[j] !in olds[i];
        ValuesUnchanged(ps);
      }
      LayerValuesUpdate(ls, prev, i, Values(layer.petals));
    }

    /** The gust draw gives the first layer. No other layer changes. */
    method GustFirst(gust: GustDraw, misses: seq<real>, ghost ls: seq<Layer>, ghost prev: seq<seq<PetalValue>>)
      requires Valid() && layers == ls && |ls| >= 1 && LayerValues(ls) == prev
      requires wind.Admits(gust) && |misses| >= |prev[0]|
      modifies wind, ls[0].petals
      ensures Valid()
      ensures wind.State() == NextGust(old(wind.State()), wind.gust_chance, gust)
      ensures LayerValues(ls) ==
              prev[0 := if Evaluated(wind.gust_chance, gust)
                        then BlowAll(wind.edge, wind.gust_miss_chance, wind.gust_strength, prev[0], misses)
                        else prev[0]]
    {
      var layer := layers[0];
      assert layer.wind == wind;
      layer.Gust(gust, misses);
      forall k | 0 <= k < |ls| && k != 0
        ensures Values(ls[k].petals) == prev[k]
      {
        var ps := ls[k].petals;
        assert forall j :: 0 <= j < |ps| ==> ps[j] !in ls[0].petals;
        ValuesUnchanged(ps);
      }
      LayerValuesUpdate(ls, prev, 0, Values(layer.petals));
    }

    /** The frame of layer i within draw, in terms of the states `before`
        all layers had when draw started. */
    method FrameStep(i: int, display: Display, draws: seq<LayerDraws>, gust: GustDraw, misses: seq<real>,
                     ghost ls: seq<Layer>, ghost before: seq<seq<PetalValue>>, ghost g: GustState, ghost log0: seq<Event>)
      requires Valid() && layers == ls && 0 <= i < |ls| == |before| && DrawsFit(before, draws)
      requires forall k :: 0 <= k < |ls| ==> ls[k].AdmitsBlooms(draws[k].bloom, draws[k].spawns)
      requires LayerValues(ls) == FramedPrefix(ls, wind, before, i, display.width, display.height, draws, g, gust, misses)
      requires display.log == log0 + LayersLog(before, display.width, display.height, i)
      modifies display, ls[i], ls[i].petals
      ensures Valid()
      ensures forall k :: 0 <= k < |ls| && k != i ==> ls[k].petals == old(ls[k].petals)
      ensures forall p :: p in ls[i].petals ==> p in old(ls[i].petals) || fresh(p)
      ensures i != 0 ==> LayerValues(ls) == FramedPrefix(ls, wind, before, i + 1, display.width, display.height, draws, g, gust, misses)
      ensures i == 0 ==> LayerValues(ls) == before[0 := ls[0].FrameValues(before[0], display.width, display.height, draws[0])]
      ensures display.log == log0 + LayersLog(before, display.width, display.height, i + 1)
    {
      ghost var prev := FramedPrefix(ls, wind, before, i, display.width, display.height, draws, g, gust, misses);
      FramedPrefixRest(ls, wind, before, i, display.width, display.height, draws, g, gust, misses, i);
      assert i == 0 ==> prev == before;
      ghost var x := ls[i].FrameValues(before[i], display.width, display.height, draws[i]);
      assert i != 0 ==> FramedPrefix(ls, wind, before, i + 1, display.width, display.height, draws, g, gust, misses) == prev[i := x];
      ghost var drawn := DrawLog(before[i], display.width, display.height);
      assert LayersLog(before, display.width, display.height, i + 1) ==
             LayersLog(before, display.width, display.height, i) + drawn;
      AppendAssoc(log0, LayersLog(before, display.width, display.height, i), drawn);
      FrameOf(i, display, draws[i], ls, prev);
    }

    /** The gust of the first layer within draw. */
    method GustStep(display: Display, draws: seq<LayerDraws>, gust: GustDraw, misses: seq<real>,
                    ghost ls: seq<Layer>, ghost before: seq<seq<PetalValue>>, ghost g: GustState)
      requires Valid() && layers == ls && 1 <= |ls| == |before| && DrawsFit(before, draws)
      requires |misses| >= |before[0]| + |draws[0].spawns|
      requires wind.State() == g && wind.Admits(gust)
      requires LayerValues(ls) == before[0 := ls[0].FrameValues(before[0], display.width, display.height, draws[0])]
      modifies wind, ls[0].petals
      ensures Valid()
      ensures wind.State() == NextGust(g, wind.gust_chance, gust)
      ensures LayerValues(ls) == FramedPrefix(ls, wind, before, 1, display.width, display.height, draws, g, gust, misses)
    {
      ghost var x := ls[0].FrameValues(before[0], display.width, display.height, draws[0]);
      FrameValuesLength(ls[0], before[0], display.width, display.height, draws[0]);
      ghost var blown := if Evaluated(wind.gust_chance, gust)
                         then BlowAll(wind.edge, wind.gust_miss_chance, NextGust(g, wind.gust_chance, gust).strength, x, misses)
                         else x;
      assert FramedPrefix(ls, wind, before, 1, display.width, display.height, draws, g, gust, misses) == before[0 := blown];
      GustFirst(gust, misses, ls, before[0 := x]);
    }

    /** ms[j] are the layer states draw reaches once it has handled
        ls[..j], and logs[j] the writes it has made by then. The triggers
        keep the frames out of sight until a caller names the prefix it
        needs. */
    ghost predicate Milestones(ms: seq<seq<seq<PetalValue>>>, logs: seq<seq<Event>>, ls: seq<Layer>,
                               before: seq<seq<PetalValue>>, width: int, height: int, draws: seq<LayerDraws>,
                               g: GustState, gust: GustDraw, misses: seq<real>)
      requires |before| == |ls| && DrawsFit(before, draws)
    {
      |ms| == |ls| + 1 && |logs| == |ls| + 1 &&
      (forall j {:trigger FramedPrefix(ls, wind, before, j, width, height, draws, g, gust, misses)} ::
         0 <= j <= |ls| ==> ms[j] == FramedPrefix(ls, wind, before, j, width, height, draws, g, gust, misses)) &&
      (forall j {:trigger LayersLog(before, width, height, j)} ::
         0 <= j <= |ls| ==> logs[j] == LayersLog(before, width, height, j))
    }

    /** One pass of the loop of draw: layer i is framed, and gusted when
        it is the first layer. */
    method DrawLayer(i: int, display: Display, draws: seq<LayerDraws>, gust: GustDraw, misses: seq<real>,
                     ghost ls: seq<Layer>, ghost before: seq<seq<PetalValue>>, ghost g: GustState, ghost log0: seq<Event>,
                     ghost ms: seq<seq<seq<PetalValue>>>, ghost logs: seq<seq<Event>>)
      requires Valid() && layers == ls && 0 <= i < |ls| == |before| && DrawsFit(before, draws)
      requires forall k :: 0 <= k < |ls| ==> ls[k].AdmitsBlooms(draws[k].bloom, draws[k].spawns)
      requires |misses| >= |before[0]| + |draws[0].spawns| && (i == 0 ==> wind.Admits(gust))
      requires Milestones(ms, logs, ls, before, display.width, display.height, draws, g, gust, misses)
      requires display.log == log0 + logs[i]
      requires wind.State() == if i == 0 then g else NextGust(g, wind.gust_chance, gust)
      requires LayerValues(ls) == ms[i]
      modifies display, wind, ls[i], set p | p in ls[i].petals
      ensures Valid()
      ensures display.log == log0 + logs[i + 1]
      ensures wind.State() == NextGust(g, wind.gust_chance, gust)
      ensures LayerValues(ls) == ms[i + 1]
      ensures forall k :: 0 <= k < |ls| && k != i ==> ls[k].petals == old(ls[k].petals)
    {
      var layer := layers[i];
      FrameStep(i, display, draws, gust, misses, ls, before, g, log0);
      if layer == layers[0] {
        assert i == 0;
        GustStep(display, draws, gust, misses, ls, before, g);
      }
    }

    /** The loop of draw, over every layer in turn. */
    method DrawLayers(display: Display, draws: seq<LayerDraws>, gust: GustDraw, misses: seq<real>,
                      ghost ls: seq<Layer>, ghost before: seq<seq<PetalValue>>, ghost g: GustState,
                      ghost ms: seq<seq<seq<PetalValue>>>, ghost logs: seq<seq<Event>>)
      requires Valid() && layers == ls && 1 <= |ls| == |before| && DrawsFit(before, draws)
      requires forall k :: 0 <= k < |ls| ==> ls[k].AdmitsBlooms(draws[k].bloom, draws[k].spawns)
      requires |misses| >= |before[0]| + |draws[0].spawns| && wind.Admits(gust) && wind.State() == g
      requires Milestones(ms, logs, ls, before, display.width, display.height, draws, g, gust, misses)
      requires LayerValues(ls) == ms[0] && logs[0] == []
      modifies display, wind, ls, AllPetals(ls)
      ensures Valid()
      ensures display.log == old(display.log) + logs[|ls|]
      ensures wind.State() == NextGust(g, wind.gust_chance, gust)
      ensures LayerValues(ls) == ms[|ls|]
    {
      ghost var lists := PetalLists(ls);
      var i := 0;
      while i < |layers|
        invariant 0 <= i <= |ls| && layers == ls && Valid() && (i == 0 ==> wind.Admits(gust))
        invariant display.log == old(display.log) + logs[i]
        invariant wind.State() == if i == 0 then g else NextGust(g, wind.gust_chance, gust)
        invariant LayerValues(ls) == ms[i]
        invariant forall k :: i <= k < |ls| ==> ls[k].petals == lists[k]
      {
        DrawLayer(i, display, draws, gust, misses, ls, before, g, old(display.log), ms, logs);
        i := i + 1;
      }
    }

    /** LayeredPetalDisplay.draw: every layer in turn draws, decays, drops,
        cleans and blooms; the first layer is then gusted. `draws[k]` are
        the draws of layer k, `gust` and `misses` those of the wind. */
    method Draw(display: Display, draws: seq<LayerDraws>, gust: GustDraw, misses: seq<real>)
      requires Valid() && |layers| >= 1 && |draws| == |layers|
      requires forall k :: 0 <= k < |layers| ==>
                 |draws[k].decay| >= |layers[k].petals| && |draws[k].drop| >= |layers[k].petals| &&
                 layers[k].AdmitsBlooms(draws[k].bloom, draws[k].spawns)
      requires wind.Admits(gust) && |misses| >= |layers[0].petals| + |draws[0].spawns|
      modifies display, wind, layers, AllPetals(layers)
      ensures Valid()
      ensures wind.State() == NextGust(old(wind.State()), wind.gust_chance, gust)
      ensures display.log == old(display.log) + LayersLog(old(LayerValues(layers)), display.width, display.height, |layers|)
      ensures LayerValues(layers) ==
              FramedPrefix(layers, wind, old(LayerValues(layers)), |layers|, display.width, display.height, draws,
                           old(wind.State()), gust, misses)
    {
      ghost var ls := layers;
      ghost var before := LayerValues(layers);
      ghost var g := wind.State();
      assert DrawsFit(before, draws) && |misses| >= |before[0]| + |draws[0].spawns|;
      ghost var ms := seq(|ls| + 1, j requires 0 <= j <= |ls| =>
                          FramedPrefix(ls, wind, before, j, display.width, display.height, draws, g, gust, misses));
      ghost var logs := seq(|ls| + 1, j requires 0 <= j <= |ls| => LayersLog(before, display.width, display.height, j));
      assert ms[0] == before && logs[0] == [];
      DrawLayers(display, draws, gust, misses, ls, before, g, ms, logs);
    }
  }
}
