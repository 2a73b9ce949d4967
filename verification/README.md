# Game development utility system: a Dafny model

The game development utility system is a Python module of lambda functions
over small game records. It has four fixture builders: players, entities,
inventory items and map coordinates. Seven demonstrations run `map`, `filter`,
`sorted` and small formulas over those fixtures:

- player transformations (effective health, mana regeneration, normalised
  score, power index);
- entity filtering (active enemies, collectible items, entities near the
  player, north-east targets);
- item sorting (by value, by rarity rank, by type then descending value, and
  equipped items by value);
- game calculations (segment lengths of a path, pairwise damage, movement
  speed);
- the ability system (four level-parameterised abilities and a usability
  test);
- combat (enemies in attack range, hit chance, damage, experience reward);
- the level system (base stats and the next three levels' stats).

This project models the fixtures and every lambda of those seven
demonstrations as pure Dafny functions, and proves what each one guarantees.

Modules:

- `Records`: the four record shapes and squared distance.
- `Fixtures`: the sample data.
- `Sequences`: `map` and `filter`, with order-preserving selection.
- `TextOrder`: Python's ordering of strings.
- `Sorting`: Python's stable `sorted`, modelled as insertion sort. Its lemmas
  prove the result is a permutation, ordered, stable and unique.
- One module per demonstration: `PlayerMetrics`, `EntityFilters`,
  `InventorySorts`, `GameCalculations`, `Abilities`, `Combat`, `Levels`.

The source's dictionaries become datatypes with one field per key, and its
`type` keys become fields named `kind`. Where the source raises, the model
returns `None`:

- `ZeroDivisionError` for a level-0 player;
- `KeyError` for an unknown rarity or ability name, or for the shield's
  missing `mana_cost`;
- `IndexError` for an empty player list.

Fractional multipliers (`0.1`, `0.2`, `0.5`, `0.01`) are exact rationals
(`real`). Square-root distance tests (`sqrt(d2) < 100`, `sqrt(d2) <= 150`)
are decided on integer squared distances (`d2 < 100*100`,
`d2 <= 150*150`). `Records.RootBoundBySquares` proves the two forms agree.

Three behaviours of the code shape the model:

- Entity and item types, and rarities, are plain strings that the code
  compares and sorts as strings. An unknown rarity is a failed dictionary
  lookup.
- In the ability usage loop, `abilities["shield"](3)["mana_cost"]` raises
  `KeyError`, because the shield's stats have no `mana_cost`. The loop
  reports fireball and heal, then stops at the shield, and lightning is
  never checked. Nothing in `demonstrate_ability_system` or in `main`
  catches that exception, so it escapes the demonstration.
  `Abilities.UsageFor` models the loop up to that point.
- The code has no guard clauses for malformed records. Records here are
  always well-formed, and the only failures modelled are the ones listed
  above.

## Model

| member | source | states |
|---|---|---|
| Fixtures.SamplePlayers | game_development_utility_system.py:8-21 | Five sample players, every one of level at least 1, so every per-player metric is defined on them |
| Fixtures.SampleEntities | game_development_utility_system.py:23-39 | Eight sample entities |
| Fixtures.SampleInventory | game_development_utility_system.py:41-55 | Six sample inventory items |
| Fixtures.SampleCoordinates | game_development_utility_system.py:57-64 | Five path coordinates; no two consecutive ones coincide, so every path segment has positive length |
| Records.SqDist | game_development_utility_system.py:123-124 | The squared distance is never negative, and is zero exactly when the two points coincide |
| Records.SqDistSymmetric | game_development_utility_system.py:195-196 | Distance does not depend on which point is subtracted from which |
| Records.RootBoundBySquares | game_development_utility_system.py:122-125 | For the non-negative root r of d2 and a bound b >= 0: r < b iff d2 < b*b, and r <= b iff d2 <= b*b, so the squared tests decide the source's square-root tests |
| Sequences.Map | game_development_utility_system.py:76 | `list(map(f, s))` has one result per input, and the i-th result is f of the i-th input |
| Sequences.FilterSelects | game_development_utility_system.py:110 | `list(filter(p, s))` is never longer than s; every kept element satisfies p and comes from s; every element of s that satisfies p is kept, as many times as it occurs in s, and no other element is kept |
| Sequences.FilterCounts | game_development_utility_system.py:110 | Occurrence counts of a filter: the result holds each element of s that satisfies p exactly as often as s does, and nothing else |
| Sequences.FilterIsSubsequence | game_development_utility_system.py:110 | A filter keeps its input's order: the result is a subsequence of the input |
| Sequences.FilterFilter | game_development_utility_system.py:135-141 | Filtering by p and then by q selects exactly what one filter by `p and q` selects |
| Sequences.SubsequenceLength | game_development_utility_system.py:110 | A subsequence is never longer than the sequence it comes from |
| TextOrder.StrLeTotal | game_development_utility_system.py:169 | Python's string `<=` compares any two strings |
| TextOrder.StrLeTransitive | game_development_utility_system.py:169 | Python's string `<=` is transitive |
| TextOrder.StrLeAntisymmetric | game_development_utility_system.py:169 | Strings that compare `<=` both ways are equal |
| Sorting.SortByPermutes | game_development_utility_system.py:156 | `sorted` returns a permutation of its input, of the same length |
| Sorting.SortBySorted | game_development_utility_system.py:156 | Under a total preorder on keys, the result of `sorted` is ordered by key |
| Sorting.SortByStable | game_development_utility_system.py:156 | `sorted` is stable: the elements of every key class appear in their input order |
| Sorting.SortByOfSorted | game_development_utility_system.py:156 | Sorting a sequence that is already ordered by key returns it unchanged |
| Sorting.SortByIdempotent | game_development_utility_system.py:156 | Sorting twice by the same key is sorting once |
| Sorting.SortedStableUnique | game_development_utility_system.py:156 | Two sequences ordered by an antisymmetric key order that agree on every key class are equal |
| Sorting.SortByCharacterised | game_development_utility_system.py:156 | Any key-ordered, stable arrangement of the input is exactly the result of `sorted` |
| PlayerMetrics.EffectiveHealth | game_development_utility_system.py:76 | Effective health is at least health from level 0, equals it at level 0, and strictly exceeds it from level 1 |
| PlayerMetrics.EffectiveHealthPerLevel | game_development_utility_system.py:76 | Each added level adds exactly 10 effective health |
| PlayerMetrics.ManaRegen | game_development_utility_system.py:82 | Mana regeneration is non-negative for non-negative mana and level, and zero exactly when mana or level is zero |
| PlayerMetrics.NormalizedScore | game_development_utility_system.py:88 | The normalised score is defined exactly when the level is non-zero, and times the level it gives back the score |
| PlayerMetrics.PowerIndex | game_development_utility_system.py:94 | The power index is non-negative for non-negative health, mana and level |
| PlayerMetrics.PowerIndexLinearInLevel | game_development_utility_system.py:94 | The power index is the level times the same player's power index at level 1 |
| PlayerMetrics.EffectiveHealths | game_development_utility_system.py:76 | One named entry per player, in input order, carrying that player's effective health, which exceeds health when level >= 1 |
| PlayerMetrics.ManaRegens | game_development_utility_system.py:82 | One named entry per player, in input order, carrying that player's mana regeneration |
| PlayerMetrics.NormalizedScores | game_development_utility_system.py:88 | The list exists exactly when no player has level 0; then it has one entry per player, in order, whose value times the level is the score |
| PlayerMetrics.PowerIndices | game_development_utility_system.py:94 | One named entry per player, in input order, carrying that player's power index |
| PlayerMetrics.SampleTransformations | game_development_utility_system.py:76-91 | On the sample, all normalised scores are defined; Wizard1 has effective health 130 and normalised score 500 |
| EntityFilters.Enemies | test/test_functional.py:357-359 | Exactly the enemies, active or not, each as often as it occurs, as a subsequence of the entities |
| EntityFilters.ActiveEnemies | game_development_utility_system.py:110 | Exactly the active enemies, each as often as it occurs, as a subsequence of the entities |
| EntityFilters.ActiveItems | game_development_utility_system.py:116 | Exactly the active items, each as often as it occurs, as a subsequence of the entities |
| EntityFilters.NearbyEntities | game_development_utility_system.py:122-127 | Exactly the active entities whose squared distance to the given player position (default (100, 100)) is below 100*100, each as often as it occurs, as a subsequence of the entities |
| EntityFilters.Targets | game_development_utility_system.py:135-141 | Exactly the active enemies with x > 150 and y > 200, each as often as it occurs, as a subsequence of the entities |
| EntityFilters.TargetsWithinActiveEnemies | test/test_functional.py:357-362 | Targets are a subsequence of the active enemies, and active enemies a subsequence of all enemies; so the counts are ordered |
| EntityFilters.SampleActiveEnemies | game_development_utility_system.py:110 | On the sample, the active enemies are E001, E005 and E008 |
| EntityFilters.SampleActiveItems | game_development_utility_system.py:116 | On the sample, the active items are E004 and E007 |
| EntityFilters.SampleTargets | game_development_utility_system.py:135-141 | On the sample, the only target is E008 |
| EntityFilters.SampleNearby | game_development_utility_system.py:122-127 | On the sample, only E005 is near (100, 100) |
| EntityFilters.SampleSelections | game_development_utility_system.py:109-141 | All four sample selections together; E001 is excluded from "nearby" because it lies at exactly distance 100 and the bound is strict |
| InventorySorts.ByValue | game_development_utility_system.py:156 | The value sort is a permutation of the inventory, ascending by value, and stable |
| InventorySorts.ByValueUnique | game_development_utility_system.py:156 | Any value-ordered arrangement that keeps equal values in inventory order is the value sort |
| InventorySorts.ByValueIdempotent | game_development_utility_system.py:156 | Value-sorting a value-sorted inventory changes nothing |
| InventorySorts.SampleByValue | game_development_utility_system.py:155-159 | On the sample, the value sort is Health Potion, Mana Crystal, Mystic Robe, Magic Sword, Ancient Bow, Dragon Shield |
| InventorySorts.RarityRank | game_development_utility_system.py:162 | A rarity has a rank exactly when it is in the table common, uncommon, rare, epic, legendary, and its rank is its position there |
| InventorySorts.RarityRankOfLadder | game_development_utility_system.py:162 | Each position of the table is the rank of the name at that position (ranks 0 to 4) |
| InventorySorts.ByRarity | game_development_utility_system.py:162-163 | The rarity sort fails exactly when some rarity is not in the table; otherwise it is a permutation, ascending by rank, and stable |
| InventorySorts.ByRarityUnique | game_development_utility_system.py:163 | Any rank-ordered arrangement that keeps equal rarities in inventory order is the rarity sort's result |
| InventorySorts.TupleLeTotalOrder | game_development_utility_system.py:169 | Python's `<=` on (type, -value) tuples is a total, transitive, antisymmetric order |
| InventorySorts.ByTypeThenValue | game_development_utility_system.py:169 | A permutation, with types ascending and, within a type, values descending; stable for equal (type, value) |
| InventorySorts.ByTypeThenValueUnique | game_development_utility_system.py:169 | Any arrangement ordered by type ascending then value descending, and stable, is the type-then-value sort |
| InventorySorts.EquippedByValue | game_development_utility_system.py:175-178 | Exactly the equipped items, taken from the inventory, ascending by value, with equal values in inventory order |
| InventorySorts.SampleEquippedByValue | game_development_utility_system.py:175-178 | On the sample, the equipped sort is Ancient Bow then Dragon Shield |
| GameCalculations.SegmentSquares | game_development_utility_system.py:194-198 | n-1 segments for n points (none for fewer than two), the i-th being the squared distance from point i to point i+1 |
| GameCalculations.SegmentSquaresReversed | game_development_utility_system.py:194-198 | The reversed path has the same segment lengths in reverse order |
| GameCalculations.SampleSegments | game_development_utility_system.py:193-201 | The sample path has four segments; the first has squared length 3200 |
| GameCalculations.RawDamage | game_development_utility_system.py:208-210 | The unclamped damage is positive exactly when 25*attacker level + attacker mana exceeds 10*defender level, and zero exactly when they are equal |
| GameCalculations.Damage | game_development_utility_system.py:208-210 | Damage is never negative; it is the raw formula when that is positive and 0 otherwise |
| GameCalculations.DamageAntitoneInDefenderLevel | game_development_utility_system.py:208-210 | A higher-level defender never takes more damage from the same attacker |
| GameCalculations.PairwiseDamage | game_development_utility_system.py:214-217 | n*(n-1) evaluations, each between two different players with the damage the first deals the second, in strictly increasing (i, j) row-major order |
| GameCalculations.DamageRow | game_development_utility_system.py:215-217 | For attacker i: n-1 evaluations against every other player, in increasing defender order |
| GameCalculations.Speed | game_development_utility_system.py:221 | A player is at least as fast as the base speed 5 exactly when its health is at most 50 per level, and exactly that fast when it is 50 per level |
| GameCalculations.SpeedMonotone | game_development_utility_system.py:221 | A player of no lower level and no higher health is at least as fast |
| GameCalculations.SpeedTradeOff | game_development_utility_system.py:221 | One level is worth exactly 50 health in speed |
| Abilities.AbilityNamed | game_development_utility_system.py:235-240 | A name finds an ability exactly when it is one of the four keys, and the ability found has that name |
| Abilities.AbilityNamedOfName | game_development_utility_system.py:235-240 | Every ability is found under its own name |
| Abilities.StatsAt | game_development_utility_system.py:236-239 | Only the shield's stats are defense stats (defense and duration, no mana cost), and only heal's are healing stats |
| Abilities.ManaCost | game_development_utility_system.py:236-239 | Stats have a mana cost exactly when they are not the shield's defense stats |
| Abilities.ManaCostIncreases | game_development_utility_system.py:236-239 | Except for the shield, the mana cost is defined and strictly increasing in the ability level |
| Abilities.EffectGrowsWithLevel | game_development_utility_system.py:236-239 | Damage grows with level; healing gains 5 per level; shield defense gains 3 per level and duration 1 every two levels |
| Abilities.CanUse | game_development_utility_system.py:252-254 | Usability is decided exactly for known non-shield abilities, and is then true iff the player's mana covers the cost |
| Abilities.CanUseMonotone | game_development_utility_system.py:252-254 | More mana or a lower ability level never turns a usable ability unusable |
| Abilities.UsageFor | game_development_utility_system.py:259-263 | The report lists the names in order, each with its verdict and its mana cost at that level, and stops exactly at the first name whose check fails, which it reports |
| Abilities.SampleUsage | game_development_utility_system.py:256-263 | For the test wizard (50 mana) at level 3: fireball usable at cost 16, heal usable at cost 24, then the check fails at the shield |
| Combat.EnemiesInRange | game_development_utility_system.py:280-287 | Exactly the active enemies within squared distance 150*150 of (100, 100), each as often as it occurs, as a subsequence of the entities |
| Combat.EnemiesInRangeAreActiveEnemies | game_development_utility_system.py:281-287 | The enemies in range are a subsequence of the active enemies, so no more numerous |
| Combat.SampleEnemiesInRange | game_development_utility_system.py:279-287 | On the sample, E001 and E005 are in range; E008 lies at squared distance 23200, beyond 22500 |
| Combat.SampleInRangePattern | game_development_utility_system.py:281-287 | Of the eight sample entities, exactly the first and the fifth pass the attack-range test |
| Combat.Attacker | game_development_utility_system.py:276 | The attacker exists exactly when the player list is non-empty, and is then its first player |
| Combat.HitChance | game_development_utility_system.py:296 | The hit chance lies in [0, 100]; it is 100 - d/2 for d in [0, 200] and 0 from 200 on |
| Combat.StrikeDamage | game_development_utility_system.py:297 | Combat damage is the larger of 1 and the distance-scaled strength: at least both, and equal to one of them |
| Combat.XpReward | game_development_utility_system.py:298 | The reward is at most 50 for a non-negative distance and at least 20 within attack range |
| Combat.InRangeAttackBounds | game_development_utility_system.py:296-308 | For an enemy in range at its root distance d, the hit chance is in [25, 100] and the reward in [20, 50] |
| Levels.BaseStats | game_development_utility_system.py:341-342 | Growing the base stats back to the player's level gives the player's current health and mana |
| Levels.BaseStatsOfGrown | game_development_utility_system.py:341-342 | A player grown from some base stats has exactly those base stats |
| Levels.StatsAtLevel | game_development_utility_system.py:327-330 | Health gained is twice the mana gained; neither stat falls at a non-negative level; the stats equal the base stats exactly at level 0 |
| Levels.StatsAtLevelAdditive | game_development_utility_system.py:327-330 | Going up k levels adds k*10 health and k*5 mana |
| Levels.Progression | game_development_utility_system.py:348-350 | Three projections at levels +1, +2, +3, with 10 health and 5 mana more than the current stats per level gained |
| Levels.ProgressionSteps | game_development_utility_system.py:348-350 | Consecutive projections differ by exactly 10 health and 5 mana |
| Levels.Progressions | game_development_utility_system.py:340-350 | One named progression per player, in input order |
| Levels.SampleProgression | game_development_utility_system.py:340-350 | Warrior2 has base stats (40, 0) and reaches (150, 55) at level 11 |

## Left out

- Printing: every `print` and f-string, and number formatting (`:.1f`, `:.2f`). These only format values.
- `main`: it runs the seven demonstrations in sequence. The shield's `KeyError` escapes `demonstrate_ability_system` and is not caught in `main`, so as written the program ends there. `demonstrate_combat_system` and `demonstrate_level_system` never run from `main`. Their lambdas are modelled on their own, as if called directly.
- The printed segment lengths and total path length (`**0.5`, `sum`). Square roots of integers are not modelled; `SegmentSquares` gives each segment's squared length.
- The per-enemy square-root distances in the combat loop. The combat formulas take the distance as a parameter, and `Combat.InRangeAttackBounds` ties it to the squared distance.
- `calculate_xp_required` (`100 * level ** 1.5`). It is a fractional power of floats.
- Floating-point rounding. Every fractional formula is computed in exact rationals.
- The ability stats table printed for levels 1, 3 and 5. It only prints `StatsAt`.
- Records with missing keys or wrong value types (`TypeError`, `KeyError` from duck-typed dictionaries). Records here always have every field.
- Non-integer positions. The fixtures use whole numbers, and positions are integers here.
- `skeleton.py` and the test suite are not part of this model. One test expectation is cited as the source of `TargetsWithinActiveEnemies` and `Enemies`.
- Fixtures.SampleEntities: its contract states only the length. The sample lemmas in `EntityFilters` and `Combat` pin down the selections made from it.
- Fixtures.SampleInventory: its contract states only the length. `SampleByValue` and `SampleEquippedByValue` pin down its sorts.
