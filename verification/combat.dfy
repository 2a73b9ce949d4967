/** The combat simulation of `demonstrate_combat_system`: the first player
    attacks, from a fixed position, every active enemy within attack range;
    each attack has a hit chance, a damage and an experience reward that
    depend on the distance to the enemy. Distances are square roots, which
    the model does not compute: the range test compares squared distances,
    and the per-attack formulas take the distance as a non-negative real. */
module Combat {
  import opened Wrappers
  import opened Records
  import opened Sequences
  import opened Fixtures
  import EntityFilters

  /** `attack_range`, and the fixed `player_position`. */
  const AttackRange := 150
  const CombatPosition := Point(100, 100)

  /** An active enemy no farther than `AttackRange` from the combat
      position; the bound is inclusive. */
  predicate InAttackRange(e: Entity) {
    e.kind == "enemy" && e.active && SqDist(e.pos, CombatPosition) <= AttackRange * AttackRange
  }

  /** `enemies_in_range`, in entity order. */
  function EnemiesInRange(es: seq<Entity>): (r: seq<Entity>)
    ensures forall i :: 0 <= i < |r| ==>
      r[i].kind == "enemy" && r[i].active && SqDist(r[i].pos, CombatPosition) <= AttackRange * AttackRange
    ensures forall i :: 0 <= i < |es| && InAttackRange(es[i]) ==> es[i] in r
    ensures KeepsCounts(r, es, InAttackRange)
    ensures IsSubsequence(r, es)
  {
    FilterIsSubsequence(es, InAttackRange);
    FilterSelects(es, InAttackRange);
    Filter(es, InAttackRange)
  }

  /** Enemies in range are among the active enemies. */
  lemma EnemiesInRangeAreActiveEnemies(es: seq<Entity>)
    ensures IsSubsequence(EnemiesInRange(es), EntityFilters.ActiveEnemies(es))
    ensures |EnemiesInRange(es)| <= |EntityFilters.ActiveEnemies(es)|
  {
    var inRange := (e: Entity) => SqDist(e.pos, CombatPosition) <= AttackRange * AttackRange;
    FilterFilter(es, EntityFilters.IsActiveEnemy, inRange, InAttackRange);
    FilterIsSubsequence(EntityFilters.ActiveEnemies(es), inRange);
    SubsequenceLength(EnemiesInRange(es), EntityFilters.ActiveEnemies(es));
  }

  /** The attacker is `players[0]`: `None` for an empty list, where the
      index raises `IndexError`. */
  function Attacker(players: seq<Player>): (r: Option<Player>)
    ensures r.Some? <==> |players| > 0
    ensures r.Some? ==> r.value == players[0]
  {
    if |players| == 0 then None else Some(players[0])
  }

  /** `calculate_hit_chance`: `100 - distance*0.5` clamped to [0, 100]. */
  function HitChance(distance: real): (r: real)
    ensures 0.0 <= r <= 100.0
    ensures 0.0 <= distance <= 200.0 ==> r == 100.0 - distance * 0.5
    ensures distance >= 200.0 ==> r == 0.0
  {
    var raw := 100.0 - distance * 0.5;
    if raw < 0.0 then 0.0 else if raw > 100.0 then 100.0 else raw
  }

  /** `calculate_damage`: the attacker's strength scaled down linearly with
      distance, never below 1. */
  function StrikeDamage(p: Player, distance: real): (r: real)
    ensures r >= 1.0
    ensures r >= (p.level as real * 5.0 + p.mana as real * 0.2) * (1.0 - distance / AttackRange as real)
    ensures r == 1.0 || r == (p.level as real * 5.0 + p.mana as real * 0.2) * (1.0 - distance / AttackRange as real)
  {
    var raw := (p.level as real * 5.0 + p.mana as real * 0.2) * (1.0 - distance / AttackRange as real);
    if raw > 1.0 then raw else 1.0
  }

  /** `calculate_xp_reward`: `50 - distance*0.2`. */
  function XpReward(distance: real): (r: real)
    ensures distance >= 0.0 ==> r <= 50.0
    ensures distance <= AttackRange as real ==> r >= 20.0
  {
    50.0 - distance * 0.2
  }

  /** For an enemy within attack range, at distance `d` (the non-negative
      root of its squared distance), the attack has at least a 25% hit
      chance and a reward between 20 and 50 experience. */
  lemma InRangeAttackBounds(e: Entity, d: real)
    requires InAttackRange(e)
    requires d >= 0.0 && d * d == SqDist(e.pos, CombatPosition) as real
    ensures 25.0 <= HitChance(d) <= 100.0
    ensures 20.0 <= XpReward(d) <= 50.0
  {
    RootBoundBySquares(d, SqDist(e.pos, CombatPosition), AttackRange);
  }

  /** Of eight entities of which only the first and fifth are in attack
      range, the selection keeps exactly those two. */
  lemma InRangeOfEight(es: seq<Entity>)
    requires |es| == 8
    requires InAttackRange(es[0]) && !InAttackRange(es[1]) && !InAttackRange(es[2]) && !InAttackRange(es[3])
    requires InAttackRange(es[4]) && !InAttackRange(es[5]) && !InAttackRange(es[6]) && !InAttackRange(es[7])
    ensures EnemiesInRange(es) == [es[0], es[4]]
  {
    EntityFilters.FilterOfEight(es, InAttackRange);
    assert Keep(es[6], InAttackRange) + Keep(es[7], InAttackRange) == [];
    assert Keep(es[5], InAttackRange) + [] == [];
    assert Keep(es[4], InAttackRange) + [] == [es[4]];
    assert Keep(es[3], InAttackRange) + [es[4]] == [es[4]];
    assert Keep(es[2], InAttackRange) + [es[4]] == [es[4]];
    assert Keep(es[1], InAttackRange) + [es[4]] == [es[4]];
    assert Keep(es[0], InAttackRange) + [es[4]] == [es[0], es[4]];
  }

  /** On the sample entities E001 and E005 are in attack range; E008 is an
      active enemy at squared distance 23200, beyond 150 * 150 = 22500. */
  lemma SampleEnemiesInRange()
    ensures var es := SampleEntities(); EnemiesInRange(es) == [es[0], es[4]]
    ensures SqDist(SampleEntities()[7].pos, CombatPosition) == 23200
  {
    SampleInRangePattern();
    InRangeOfEight(SampleEntities());
  }

  /** Which of the sample entities are in attack range, one by one. */
  lemma SampleInRangePattern()
    ensures var es := SampleEntities();
      && InAttackRange(es[0]) && !InAttackRange(es[1]) && !InAttackRange(es[2]) && !InAttackRange(es[3])
      && InAttackRange(es[4]) && !InAttackRange(es[5]) && !InAttackRange(es[6]) && !InAttackRange(es[7])
  {
  }
}
