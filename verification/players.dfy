/** The per-player metrics of `demonstrate_player_transformations`. Each is a
    `map` over the player list that yields one named record per player, in
    input order. Fractional multipliers are exact rationals here. */
module PlayerMetrics {
  import opened Wrappers
  import opened Records
  import opened Sequences
  import opened Fixtures

  /** `health + level*10`: never below health at level 0 or above, and
      strictly above it from level 1 on. */
  function EffectiveHealth(p: Player): (r: int)
    ensures p.level >= 0 ==> r >= p.health
    ensures p.level >= 1 ==> r > p.health
    ensures p.level == 0 ==> r == p.health
  {
    p.health + p.level * 10
  }

  /** `mana * 0.1 * level`: non-negative for non-negative mana and level,
      and zero exactly when one of the two is zero. */
  function ManaRegen(p: Player): (r: real)
    ensures p.mana >= 0 && p.level >= 0 ==> r >= 0.0
    ensures r == 0.0 <==> p.mana == 0 || p.level == 0
  {
    p.mana as real * 0.1 * p.level as real
  }

  /** `score / level` with true division, or `None` where it raises
      `ZeroDivisionError`. The quotient times the level gives back the score. */
  function NormalizedScore(p: Player): (r: Option<real>)
    ensures r.Some? <==> p.level != 0
    ensures r.Some? ==> r.value * p.level as real == p.score as real
  {
    if p.level == 0 then None else Some(p.score as real / p.level as real)
  }

  /** `(health*0.5 + mana*0.3) * level`. */
  function PowerIndex(p: Player): (r: real)
    ensures p.health >= 0 && p.mana >= 0 && p.level >= 0 ==> r >= 0.0
  {
    (p.health as real * 0.5 + p.mana as real * 0.3) * p.level as real
  }

  /** The power index grows linearly with level: it is the level times the
      power index the same player would have at level 1. */
  lemma PowerIndexLinearInLevel(p: Player)
    ensures PowerIndex(p) == p.level as real * PowerIndex(p.(level := 1))
  {
  }

  /** Raising the level never lowers effective health, and each level adds
      exactly 10. */
  lemma EffectiveHealthPerLevel(p: Player, levels: nat)
    ensures EffectiveHealth(p.(level := p.level + levels)) == EffectiveHealth(p) + 10 * levels
  {
  }

  /** The effective-health list: one entry per player, in input order. */
  function EffectiveHealths(ps: seq<Player>): (r: seq<Named<int>>)
    ensures |r| == |ps|
    ensures forall i :: 0 <= i < |ps| ==>
      r[i].name == ps[i].name && r[i].value == EffectiveHealth(ps[i])
    ensures forall i :: 0 <= i < |ps| && ps[i].level >= 1 ==> r[i].value > ps[i].health
  {
    Map(ps, (p: Player) => Named(p.name, EffectiveHealth(p)))
  }

  /** The mana-regeneration list: one entry per player, in input order. */
  function ManaRegens(ps: seq<Player>): (r: seq<Named<real>>)
    ensures |r| == |ps|
    ensures forall i :: 0 <= i < |ps| ==> r[i].name == ps[i].name && r[i].value == ManaRegen(ps[i])
  {
    Map(ps, (p: Player) => Named(p.name, ManaRegen(p)))
  }

  /** The normalised-score list. `list(map(...))` raises as soon as one
      player has level 0, so the whole list is `None` then. */
  function NormalizedScores(ps: seq<Player>): (r: Option<seq<Named<real>>>)
    ensures r.Some? <==> forall i :: 0 <= i < |ps| ==> ps[i].level != 0
    ensures r.Some? ==> |r.value| == |ps|
    ensures r.Some? ==> forall i :: 0 <= i < |ps| ==>
      r.value[i].name == ps[i].name && r.value[i].value * ps[i].level as real == ps[i].score as real
  {
    if forall i :: 0 <= i < |ps| ==> ps[i].level != 0 then
      Some(Map(ps, (p: Player) => Named(p.name, NormalizedScore(p).GetOr(0.0))))
    else
      None
  }

  /** The power-index list: one entry per player, in input order. */
  function PowerIndices(ps: seq<Player>): (r: seq<Named<real>>)
    ensures |r| == |ps|
    ensures forall i :: 0 <= i < |ps| ==> r[i].name == ps[i].name && r[i].value == PowerIndex(ps[i])
  {
    Map(ps, (p: Player) => Named(p.name, PowerIndex(p)))
  }

  /** Every sample player has a level, so all four lists are defined; the
      first, "Wizard1" at level 5 with 80 health, has effective health 130
      and normalised score 500. */
  lemma SampleTransformations()
    ensures NormalizedScores(SamplePlayers()).Some?
    ensures EffectiveHealths(SamplePlayers())[0] == Named("Wizard1", 130)
    ensures NormalizedScores(SamplePlayers()).value[0] == Named("Wizard1", 500.0)
  {
  }
}
