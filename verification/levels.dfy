/** The level system of `demonstrate_level_system`: a player's base stats
    are its current stats with the per-level growth taken off, and stats at
    any level are the base stats with that growth put back on. */
module Levels {
  import opened Records
  import opened Sequences
  import opened Fixtures

  /** Health and mana, as the `{"health": ..., "mana": ...}` dictionaries. */
  datatype Stats = Stats(health: int, mana: int)

  /** Stats gained per level. */
  const HealthPerLevel := 10
  const ManaPerLevel := 5

  /** `calculate_stats_at_level(base_stats, level)`. Health grows twice as
      fast as mana, neither falls at a non-negative level, and the stats are
      the base stats exactly at level 0. */
  function StatsAtLevel(base: Stats, level: int): (r: Stats)
    ensures r.health - base.health == 2 * (r.mana - base.mana)
    ensures level >= 0 ==> r.health >= base.health && r.mana >= base.mana
    ensures r == base <==> level == 0
  {
    Stats(base.health + level * HealthPerLevel, base.mana + level * ManaPerLevel)
  }

  /** `base_stats`: the player's stats with its levels' growth removed.
      Putting the growth back at the player's own level gives the player's
      current stats. */
  function BaseStats(p: Player): (r: Stats)
    ensures StatsAtLevel(r, p.level) == Stats(p.health, p.mana)
  {
    Stats(p.health - p.level * HealthPerLevel, p.mana - p.level * ManaPerLevel)
  }

  /** The other direction: the base stats of a player whose stats were
      grown from `base` to its level are `base`. */
  lemma BaseStatsOfGrown(base: Stats, p: Player)
    requires Stats(p.health, p.mana) == StatsAtLevel(base, p.level)
    ensures BaseStats(p) == base
  {
  }

  /** Growth is additive: going up `k` levels adds `k` times the per-level
      gain, whatever the starting level. */
  lemma StatsAtLevelAdditive(base: Stats, level: int, k: int)
    ensures StatsAtLevel(base, level + k) ==
      Stats(StatsAtLevel(base, level).health + k * HealthPerLevel, StatsAtLevel(base, level).mana + k * ManaPerLevel)
  {
  }

  /** One projected level: the level and the stats at it. */
  datatype Projection = Projection(level: int, stats: Stats)

  /** The projection loop `range(level + 1, level + 4)`: the next three
      levels, each adding exactly 10 health and 5 mana to the current stats
      per level gained. */
  function Progression(p: Player): (r: seq<Projection>)
    ensures |r| == 3
    ensures forall k :: 0 <= k < 3 ==>
      r[k].level == p.level + k + 1 &&
      r[k].stats == Stats(p.health + (k + 1) * HealthPerLevel, p.mana + (k + 1) * ManaPerLevel)
  {
    var base := BaseStats(p);
    [ Projection(p.level + 1, StatsAtLevel(base, p.level + 1)),
      Projection(p.level + 2, StatsAtLevel(base, p.level + 2)),
      Projection(p.level + 3, StatsAtLevel(base, p.level + 3)) ]
  }

  /** Consecutive projected levels differ by exactly 10 health and 5 mana. */
  lemma ProgressionSteps(p: Player)
    ensures forall k :: 0 < k < |Progression(p)| ==>
      Progression(p)[k].stats.health == Progression(p)[k - 1].stats.health + HealthPerLevel &&
      Progression(p)[k].stats.mana == Progression(p)[k - 1].stats.mana + ManaPerLevel
  {
  }

  /** The progression of every player, in input order. */
  function Progressions(ps: seq<Player>): (r: seq<Named<seq<Projection>>>)
    ensures |r| == |ps|
    ensures forall i :: 0 <= i < |ps| ==> r[i].name == ps[i].name && r[i].value == Progression(ps[i])
  {
    Map(ps, (p: Player) => Named(p.name, Progression(p)))
  }

  /** "Warrior2" (level 8, 120 health, 40 mana) has base stats 40 health
      and 0 mana, and reaches 150 health and 55 mana at level 11. */
  lemma SampleProgression()
    ensures BaseStats(SamplePlayers()[1]) == Stats(40, 0)
    ensures Progression(SamplePlayers()[1])[2] == Projection(11, Stats(150, 55))
  {
  }
}
