/** The entity selections of `demonstrate_entity_filtering`: active enemies,
    collectible items, entities near the player and enemy targets in the
    north-east quadrant. Each is a `filter` with a conjunction of field tests,
    so each keeps input order. */
module EntityFilters {
  import opened Records
  import opened Sequences
  import opened Fixtures

  /** The default `player_position`. */
  const PlayerPosition := Point(100, 100)

  /** The "nearby" radius; the test is strict: distance `< 100`. */
  const NearbyRadius := 100

  predicate IsEnemy(e: Entity) {
    e.kind == "enemy"
  }

  predicate IsActiveEnemy(e: Entity) {
    e.kind == "enemy" && e.active
  }

  predicate IsActiveItem(e: Entity) {
    e.kind == "item" && e.active
  }

  /** Active and strictly closer than `NearbyRadius` to `origin`. */
  predicate IsNearby(origin: Point, e: Entity) {
    SqDist(e.pos, origin) < NearbyRadius * NearbyRadius && e.active
  }

  /** North-east of the point (150, 200), both bounds strict. */
  predicate IsNortheast(e: Entity) {
    e.pos.x > 150 && e.pos.y > 200
  }

  predicate IsTarget(e: Entity) {
    e.kind == "enemy" && e.active && e.pos.x > 150 && e.pos.y > 200
  }

  /** All enemies, active or not. */
  function Enemies(es: seq<Entity>): (r: seq<Entity>)
    ensures forall i :: 0 <= i < |r| ==> r[i].kind == "enemy"
    ensures forall i :: 0 <= i < |es| && es[i].kind == "enemy" ==> es[i] in r
    ensures KeepsCounts(r, es, IsEnemy)
    ensures IsSubsequence(r, es)
  {
    FilterIsSubsequence(es, IsEnemy);
    FilterSelects(es, IsEnemy);
    Filter(es, IsEnemy)
  }

  /** `filter(lambda e: e["type"] == "enemy" and e["active"], entities)`. */
  function ActiveEnemies(es: seq<Entity>): (r: seq<Entity>)
    ensures forall i :: 0 <= i < |r| ==> r[i].kind == "enemy" && r[i].active
    ensures forall i :: 0 <= i < |es| && es[i].kind == "enemy" && es[i].active ==> es[i] in r
    ensures KeepsCounts(r, es, IsActiveEnemy)
    ensures IsSubsequence(r, es)
  {
    FilterIsSubsequence(es, IsActiveEnemy);
    FilterSelects(es, IsActiveEnemy);
    Filter(es, IsActiveEnemy)
  }

  /** `filter(lambda e: e["type"] == "item" and e["active"], entities)`. */
  function ActiveItems(es: seq<Entity>): (r: seq<Entity>)
    ensures forall i :: 0 <= i < |r| ==> r[i].kind == "item" && r[i].active
    ensures forall i :: 0 <= i < |es| && es[i].kind == "item" && es[i].active ==> es[i] in r
    ensures KeepsCounts(r, es, IsActiveItem)
    ensures IsSubsequence(r, es)
  {
    FilterIsSubsequence(es, IsActiveItem);
    FilterSelects(es, IsActiveItem);
    Filter(es, IsActiveItem)
  }

  /** The active entities strictly within `NearbyRadius` of `origin`,
      decided on squared distances. */
  function NearbyEntities(es: seq<Entity>, origin: Point): (r: seq<Entity>)
    ensures forall i :: 0 <= i < |r| ==>
      r[i].active && SqDist(r[i].pos, origin) < NearbyRadius * NearbyRadius
    ensures forall i :: 0 <= i < |es| && es[i].active && SqDist(es[i].pos, origin) < NearbyRadius * NearbyRadius ==>
      es[i] in r
    ensures KeepsCounts(r, es, (e: Entity) => IsNearby(origin, e))
    ensures IsSubsequence(r, es)
  {
    var near := (e: Entity) => IsNearby(origin, e);
    FilterIsSubsequence(es, near);
    FilterSelects(es, near);
    Filter(es, near)
  }

  /** Active enemies with `position_x > 150` and `position_y > 200`. */
  function Targets(es: seq<Entity>): (r: seq<Entity>)
    ensures forall i :: 0 <= i < |r| ==>
      r[i].kind == "enemy" && r[i].active && r[i].pos.x > 150 && r[i].pos.y > 200
    ensures forall i :: 0 <= i < |es| && IsTarget(es[i]) ==> es[i] in r
    ensures KeepsCounts(r, es, IsTarget)
    ensures IsSubsequence(r, es)
  {
    FilterIsSubsequence(es, IsTarget);
    FilterSelects(es, IsTarget);
    Filter(es, IsTarget)
  }

  /** Targets are selected from the active enemies, and those from the
      enemies: each selection is an order-preserving part of the next, so
      the counts are ordered the same way. */
  lemma TargetsWithinActiveEnemies(es: seq<Entity>)
    ensures IsSubsequence(Targets(es), ActiveEnemies(es))
    ensures IsSubsequence(ActiveEnemies(es), Enemies(es))
    ensures |Targets(es)| <= |ActiveEnemies(es)| <= |Enemies(es)|
  {
    FilterFilter(es, IsActiveEnemy, IsNortheast, IsTarget);
    FilterIsSubsequence(ActiveEnemies(es), IsNortheast);
    FilterFilter(es, IsEnemy, (e: Entity) => e.active, IsActiveEnemy);
    FilterIsSubsequence(Enemies(es), (e: Entity) => e.active);
    SubsequenceLength(Targets(es), ActiveEnemies(es));
    SubsequenceLength(ActiveEnemies(es), Enemies(es));
  }

  /** Filtering eight entities is testing each of them in turn. */
  lemma FilterOfEight(es: seq<Entity>, p: Entity -> bool)
    requires |es| == 8
    ensures Filter(es, p) == Keep(es[0], p) + (Keep(es[1], p) + (Keep(es[2], p) + (Keep(es[3], p)
      + (Keep(es[4], p) + (Keep(es[5], p) + (Keep(es[6], p) + Keep(es[7], p)))))))
  {
    FilterConsTwo(es, p);
    FilterConsTwo(es[2..], p);
    assert es[2..][2..] == es[4..];
    FilterConsTwo(es[4..], p);
    assert es[4..][2..] == es[6..];
    FilterConsTwo(es[6..], p);
    assert es[6..][2..] == [];
    assert Keep(es[7], p) + [] == Keep(es[7], p);
  }

  /** Of eight entities of which only the first, fifth and last are active
      enemies, the selection keeps exactly those. */
  lemma ActiveEnemiesOfEight(es: seq<Entity>)
    requires |es| == 8
    requires IsActiveEnemy(es[0]) && !IsActiveEnemy(es[1]) && !IsActiveEnemy(es[2]) && !IsActiveEnemy(es[3])
    requires IsActiveEnemy(es[4]) && !IsActiveEnemy(es[5]) && !IsActiveEnemy(es[6]) && IsActiveEnemy(es[7])
    ensures ActiveEnemies(es) == [es[0], es[4], es[7]]
  {
    FilterOfEight(es, IsActiveEnemy);
    assert Keep(es[6], IsActiveEnemy) + [es[7]] == [es[7]];
    assert Keep(es[5], IsActiveEnemy) + [es[7]] == [es[7]];
    assert Keep(es[4], IsActiveEnemy) + [es[7]] == [es[4], es[7]];
    assert Keep(es[3], IsActiveEnemy) + [es[4], es[7]] == [es[4], es[7]];
    assert Keep(es[2], IsActiveEnemy) + [es[4], es[7]] == [es[4], es[7]];
    assert Keep(es[1], IsActiveEnemy) + [es[4], es[7]] == [es[4], es[7]];
    assert Keep(es[0], IsActiveEnemy) + [es[4], es[7]] == [es[0], es[4], es[7]];
  }

  /** The active enemies of the sample are E001, E005 and E008. */
  lemma SampleActiveEnemies(es: seq<Entity>)
    requires es == SampleEntities()
    ensures ActiveEnemies(es) == [es[0], es[4], es[7]]
  {
    ActiveEnemiesOfEight(es);
  }

  /** Of eight entities of which only the fourth and seventh are active
      items, the selection keeps exactly those. */
  lemma ActiveItemsOfEight(es: seq<Entity>)
    requires |es| == 8
    requires !IsActiveItem(es[0]) && !IsActiveItem(es[1]) && !IsActiveItem(es[2]) && IsActiveItem(es[3])
    requires !IsActiveItem(es[4]) && !IsActiveItem(es[5]) && IsActiveItem(es[6]) && !IsActiveItem(es[7])
    ensures ActiveItems(es) == [es[3], es[6]]
  {
    FilterOfEight(es, IsActiveItem);
    assert Keep(es[6], IsActiveItem) + [] == [es[6]];
    assert Keep(es[5], IsActiveItem) + [es[6]] == [es[6]];
    assert Keep(es[4], IsActiveItem) + [es[6]] == [es[6]];
    assert Keep(es[3], IsActiveItem) + [es[6]] == [es[3], es[6]];
    assert Keep(es[2], IsActiveItem) + [es[3], es[6]] == [es[3], es[6]];
    assert Keep(es[1], IsActiveItem) + [es[3], es[6]] == [es[3], es[6]];
    assert Keep(es[0], IsActiveItem) + [es[3], es[6]] == [es[3], es[6]];
  }

  /** The active items of the sample are E004 and E007. */
  lemma SampleActiveItems(es: seq<Entity>)
    requires es == SampleEntities()
    ensures ActiveItems(es) == [es[3], es[6]]
  {
    ActiveItemsOfEight(es);
  }

  /** Of eight entities of which only the last is a target, the selection
      keeps exactly that one. */
  lemma TargetsOfEight(es: seq<Entity>)
    requires |es| == 8
    requires !IsTarget(es[0]) && !IsTarget(es[1]) && !IsTarget(es[2]) && !IsTarget(es[3])
    requires !IsTarget(es[4]) && !IsTarget(es[5]) && !IsTarget(es[6]) && IsTarget(es[7])
    ensures Targets(es) == [es[7]]
  {
    FilterOfEight(es, IsTarget);
    assert Keep(es[6], IsTarget) + [es[7]] == [es[7]];
    assert Keep(es[5], IsTarget) + [es[7]] == [es[7]];
    assert Keep(es[4], IsTarget) + [es[7]] == [es[7]];
    assert Keep(es[3], IsTarget) + [es[7]] == [es[7]];
    assert Keep(es[2], IsTarget) + [es[7]] == [es[7]];
    assert Keep(es[1], IsTarget) + [es[7]] == [es[7]];
    assert Keep(es[0], IsTarget) + [es[7]] == [es[7]];
  }

  /** The only target of the sample is E008. */
  lemma SampleTargets(es: seq<Entity>)
    requires es == SampleEntities()
    ensures Targets(es) == [es[7]]
  {
    TargetsOfEight(es);
  }

  /** Of eight entities of which only the fifth satisfies `p`, a filter by
      `p` keeps exactly that one. */
  lemma OnlyFifthOfEight(es: seq<Entity>, p: Entity -> bool)
    requires |es| == 8
    requires !p(es[0]) && !p(es[1]) && !p(es[2]) && !p(es[3])
    requires p(es[4]) && !p(es[5]) && !p(es[6]) && !p(es[7])
    ensures Filter(es, p) == [es[4]]
  {
    FilterOfEight(es, p);
    assert Keep(es[6], p) + Keep(es[7], p) == [];
    assert Keep(es[5], p) + [] == [];
    assert Keep(es[4], p) + [] == [es[4]];
    assert Keep(es[3], p) + [es[4]] == [es[4]];
    assert Keep(es[2], p) + [es[4]] == [es[4]];
    assert Keep(es[1], p) + [es[4]] == [es[4]];
    assert Keep(es[0], p) + [es[4]] == [es[4]];
  }

  /** Only E005 is near the default position. */
  lemma SampleNearby(es: seq<Entity>)
    requires es == SampleEntities()
    ensures NearbyEntities(es, PlayerPosition) == [es[4]]
  {
    OnlyFifthOfEight(es, (e: Entity) => IsNearby(PlayerPosition, e));
  }

  /** On the sample entities there are three active enemies (E001, E005,
      E008), two active items (E004, E007) and one target (E008); only E005
      is near the default position, because E001 lies at exactly distance
      100 and the bound is strict. */
  lemma SampleSelections()
    ensures var es := SampleEntities();
      && ActiveEnemies(es) == [es[0], es[4], es[7]]
      && ActiveItems(es) == [es[3], es[6]]
      && Targets(es) == [es[7]]
      && NearbyEntities(es, PlayerPosition) == [es[4]]
    ensures SqDist(SampleEntities()[0].pos, PlayerPosition) == NearbyRadius * NearbyRadius
  {
    var es := SampleEntities();
    SampleActiveEnemies(es);
    SampleActiveItems(es);
    SampleTargets(es);
    SampleNearby(es);
  }
}
