// Wind: the two-state gust process of lib/layeredpetalbit.py:76-129 (the same
// class is lib/petalbit.py:76-129). `gust_blowing` counts down the current
// gust and `gust_strength` is held while it lasts.
module Gusts {
  import opened Edges
  import opened Petals

  /** The process's mutable state: the countdown and the held strength. */
  datatype GustState = GustState(blowing: int, strength: int)

  /** The random values one call of Wind.blow may draw: the gust check, and
      the duration and strength of a new gust (used only when one starts). */
  datatype GustDraw = GustDraw(check: real, duration: int, strength: int)

  /** The gust check passes when the draw is not above the gust chance. */
  predicate Evaluated(gustChance: real, d: GustDraw)
  {
    d.check <= gustChance
  }

  /** Wind.blow's effect on the gust state. */
  function NextGust(g: GustState, gustChance: real, d: GustDraw): (r: GustState)
    ensures !Evaluated(gustChance, d) ==> r == g
    ensures Evaluated(gustChance, d) ==> r.blowing == (if g.blowing < 1 then d.duration else g.blowing) - 1
    ensures r.strength != g.strength ==> Evaluated(gustChance, d) && g.blowing < 1 && r.strength == d.strength
    ensures Evaluated(gustChance, d) && g.blowing < 1 ==> r.strength == d.strength
  {
    if !Evaluated(gustChance, d) then g
    else if g.blowing < 1 then GustState(d.duration - 1, d.strength)
    else GustState(g.blowing - 1, g.strength)
  }

  /** Wind.blow's effect on the petals it is given. */
  function BlowAll(e: Edge, missChance: real, strength: int, vs: seq<PetalValue>, misses: seq<real>): (r: seq<PetalValue>)
    requires |misses| >= |vs|
    ensures |r| == |vs|
    ensures forall i :: 0 <= i < |vs| ==> r[i] == Gusted(e, missChance, strength, misses[i], vs[i])
  {
    seq(|vs|, i requires 0 <= i < |vs| => Gusted(e, missChance, strength, misses[i], vs[i]))
  }

  /** Wind.blow called once per draw, in order. */
  function Run(g: GustState, gustChance: real, ds: seq<GustDraw>): GustState
    decreases |ds|
  {
    if ds == [] then g else Run(NextGust(g, gustChance, ds[0]), gustChance, ds[1..])
  }

  /** How many of the draws pass the gust check. */
  function EvaluatedCount(gustChance: real, ds: seq<GustDraw>): (n: nat)
    ensures n <= |ds|
  {
    if ds == [] then 0
    else (if Evaluated(gustChance, ds[0]) then 1 else 0) + EvaluatedCount(gustChance, ds[1..])
  }

  /** A gust holds its strength for its whole duration: from a countdown of d,
      any run of calls of which at most d pass the gust check leaves the
      strength unchanged and lowers the countdown by exactly the number of
      calls that passed. */
  lemma {:induction false} GustHeld(g: GustState, gustChance: real, ds: seq<GustDraw>)
    requires EvaluatedCount(gustChance, ds) <= g.blowing
    ensures Run(g, gustChance, ds).strength == g.strength
    ensures Run(g, gustChance, ds).blowing == g.blowing - EvaluatedCount(gustChance, ds)
    decreases |ds|
  {
    if ds != [] {
      GustHeld(NextGust(g, gustChance, ds[0]), gustChance, ds[1..]);
    }
  }

  /** The strength stays within [-m, m] when it starts there and every new
      gust's strength is drawn from that range. */
  lemma {:induction false} StrengthStaysInRange(g: GustState, gustChance: real, m: int, ds: seq<GustDraw>)
    requires -m <= g.strength <= m
    requires forall i :: 0 <= i < |ds| ==> -m <= ds[i].strength <= m
    ensures -m <= Run(g, gustChance, ds).strength <= m
    decreases |ds|
  {
    if ds != [] {
      StrengthStaysInRange(NextGust(g, gustChance, ds[0]), gustChance, m, ds[1..]);
    }
  }

  class Wind {
    const edge: Edge
    const gust_chance: real
    const gust_duration_max: int
    const gust_miss_chance: real
    const gust_strength_max: int

    var gust_blowing: int
    var gust_strength: int

    function State(): GustState
      reads this
    {
      GustState(gust_blowing, gust_strength)
    }

    constructor (edge: Edge, gust_chance: real, gust_duration_max: int, gust_miss_chance: real, gust_strength_max: int)
      ensures this.edge == edge && this.gust_chance == gust_chance
      ensures this.gust_duration_max == gust_duration_max && this.gust_miss_chance == gust_miss_chance
      ensures this.gust_strength_max == gust_strength_max
      ensures State() == GustState(0, 0)
    {
      this.edge := edge;
      this.gust_chance := gust_chance;
      this.gust_duration_max := gust_duration_max;
      this.gust_miss_chance := gust_miss_chance;
      this.gust_strength_max := gust_strength_max;
      gust_blowing := 0;
      gust_strength := 0;
    }

    /** The draws a call of blow accepts: when a gust starts, its duration
        lies in [0, gust_duration_max] and its strength in
        [-gust_strength_max, gust_strength_max]. */
    predicate Admits(d: GustDraw)
      reads this
    {
      Evaluated(gust_chance, d) && gust_blowing < 1 ==>
        0 <= d.duration <= gust_duration_max && -gust_strength_max <= d.strength <= gust_strength_max
    }

    /** Wind.blow: `misses[i]` is the miss draw for `petals[i]`. */
    method Blow(petals: seq<Petal>, d: GustDraw, misses: seq<real>)
      requires Distinct(petals) && |misses| >= |petals|
      requires Admits(d)
      modifies this, petals
      ensures State() == NextGust(old(State()), gust_chance, d)
      ensures !Evaluated(gust_chance, d) ==> Values(petals) == old(Values(petals))
      ensures Evaluated(gust_chance, d) ==>
                Values(petals) == BlowAll(edge, gust_miss_chance, gust_strength, old(Values(petals)), misses)
      ensures old(gust_blowing) < 1 && Evaluated(gust_chance, d) ==>
                -gust_strength_max <= gust_strength <= gust_strength_max
    {
      if d.check > gust_chance {
        return;
      }
      if gust_blowing < 1 {
        gust_blowing := d.duration;
        gust_strength := d.strength;
      }
      var i := 0;
      while i < |petals|
        invariant 0 <= i <= |petals|
        invariant gust_blowing == (if old(gust_blowing) < 1 then d.duration else old(gust_blowing))
        invariant gust_strength == NextGust(old(State()), gust_chance, d).strength
        invariant forall k :: 0 <= k < i ==>
                    petals[k].Value() == Gusted(edge, gust_miss_chance, gust_strength, misses[k], old(petals[k].Value()))
        invariant forall k :: i <= k < |petals| ==> petals[k].Value() == old(petals[k].Value())
      {
        var petal := petals[i];
        if misses[i] < gust_miss_chance {
          i := i + 1;
          continue;
        }
        if edge.FallsAlongY() {
          petal.x := petal.x + gust_strength;
        } else {
          petal.y := petal.y + gust_strength;
        }
        i := i + 1;
      }
      gust_blowing := gust_blowing - 1;
    }
  }
}
