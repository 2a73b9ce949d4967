/** The ability system of `demonstrate_ability_system`: four abilities whose
    stats are linear in the ability level, looked up by name, and a
    usability test comparing a player's mana with the ability's mana cost.
    The shield ability has no mana cost, so the usability test fails on it
    the way the dictionary lookup `["mana_cost"]` raises `KeyError`. */
module Abilities {
  import opened Wrappers
  import opened Records

  datatype Ability = Fireball | Heal | Shield | Lightning

  /** The keys of the `abilities` dictionary, in insertion order. */
  const AbilityNames: seq<string> := ["fireball", "heal", "shield", "lightning"]

  function Name(a: Ability): string {
    match a
    case Fireball => "fireball"
    case Heal => "heal"
    case Shield => "shield"
    case Lightning => "lightning"
  }

  /** `abilities[name]`: `None` where the lookup raises `KeyError`. */
  function AbilityNamed(name: string): (r: Option<Ability>)
    ensures r.Some? <==> name in AbilityNames
    ensures r.Some? ==> Name(r.value) == name
  {
    if name == "fireball" then Some(Fireball)
    else if name == "heal" then Some(Heal)
    else if name == "shield" then Some(Shield)
    else if name == "lightning" then Some(Lightning)
    else None
  }

  /** Every ability is found under its own name. */
  lemma AbilityNamedOfName(a: Ability)
    ensures AbilityNamed(Name(a)) == Some(a)
  {
  }

  /** The stats dictionary an ability returns for a level: damage and mana
      cost, healing and mana cost, or defense and duration. */
  datatype AbilityStats =
    | Offense(damage: int, manaCost: int)
    | Healing(healing: int, manaCost: int)
    | Defense(defense: int, duration: int)

  /** The four ability lambdas. `level // 2` is floor division, which for
      the divisor 2 is what Dafny's `/` computes on every integer. Only the
      shield returns defense stats, and only heal returns healing stats. */
  function StatsAt(a: Ability, level: int): (r: AbilityStats)
    ensures r.Defense? <==> a == Shield
    ensures r.Healing? <==> a == Heal
  {
    match a
    case Fireball => Offense(20 + level * 5, 10 + level * 2)
    case Heal => Healing(15 + level * 5, 15 + level * 3)
    case Shield => Defense(10 + level * 3, 2 + level / 2)
    case Lightning => Offense(15 + level * 7, 20 + level * 4)
  }

  /** `stats["mana_cost"]`: `None` for the shield's stats, which have no
      such key. */
  function ManaCost(st: AbilityStats): (r: Option<int>)
    ensures r.Some? <==> !st.Defense?
  {
    match st
    case Offense(_, cost) => Some(cost)
    case Healing(_, cost) => Some(cost)
    case Defense(_, _) => None
  }

  /** Every ability but the shield has a mana cost, and it strictly grows
      with the ability level. */
  lemma ManaCostIncreases(a: Ability, l1: int, l2: int)
    requires a != Shield && l1 < l2
    ensures ManaCost(StatsAt(a, l1)).Some? && ManaCost(StatsAt(a, l2)).Some?
    ensures ManaCost(StatsAt(a, l1)).value < ManaCost(StatsAt(a, l2)).value
  {
  }

  /** Damage, healing and defense grow with level too, and the shield lasts
      one turn longer every two levels. */
  lemma EffectGrowsWithLevel(a: Ability, level: int)
    ensures a == Shield ==> StatsAt(a, level + 2).duration == StatsAt(a, level).duration + 1
    ensures a == Shield ==> StatsAt(a, level + 1).defense == StatsAt(a, level).defense + 3
    ensures a == Heal ==> StatsAt(a, level + 1).healing == StatsAt(a, level).healing + 5
    ensures a != Shield && a != Heal ==> StatsAt(a, level + 1).damage > StatsAt(a, level).damage
  {
  }

  /** `can_use_ability(player, name, level)`: whether the player's mana
      covers the mana cost; `None` when the name is unknown or the ability
      has no mana cost. */
  function CanUse(p: Player, name: string, level: int): (r: Option<bool>)
    ensures r.Some? <==> AbilityNamed(name).Some? && AbilityNamed(name).value != Shield
    ensures r.Some? ==> (r.value <==> p.mana >= ManaCost(StatsAt(AbilityNamed(name).value, level)).value)
  {
    match AbilityNamed(name)
    case None => None
    case Some(a) =>
      match ManaCost(StatsAt(a, level))
      case None => None
      case Some(cost) => Some(p.mana >= cost)
  }

  /** Usability is monotone: more mana never makes an ability unusable,
      and a higher ability level never makes it usable. */
  lemma CanUseMonotone(p: Player, q: Player, name: string, l1: int, l2: int)
    requires CanUse(p, name, l2).Some? && p.mana <= q.mana && l1 <= l2
    ensures CanUse(p, name, l2).value ==> CanUse(q, name, l1).value
  {
  }

  /** One line of the usability report: ability name, verdict and cost. */
  datatype Usage = Usage(name: string, usable: bool, cost: int)

  /** The usability report loop over ability names at one level. It stops
      at the first name for which the check raises, and reports that name. */
  datatype UsageReport = UsageReport(lines: seq<Usage>, failedAt: Option<string>)

  function UsageFor(p: Player, names: seq<string>, level: int): (r: UsageReport)
    ensures |r.lines| <= |names|
    ensures forall i :: 0 <= i < |r.lines| ==>
      r.lines[i].name == names[i] && CanUse(p, names[i], level) == Some(r.lines[i].usable)
      && ManaCost(StatsAt(AbilityNamed(names[i]).value, level)) == Some(r.lines[i].cost)
    ensures r.failedAt.None? <==> |r.lines| == |names|
    ensures r.failedAt.Some? ==>
      r.failedAt.value == names[|r.lines|] && CanUse(p, names[|r.lines|], level).None?
  {
    if names == [] then UsageReport([], None)
    else
      match CanUse(p, names[0], level)
      case None => UsageReport([], Some(names[0]))
      case Some(ok) =>
        var a := AbilityNamed(names[0]).value;
        var rest := UsageFor(p, names[1..], level);
        UsageReport([Usage(names[0], ok, ManaCost(StatsAt(a, level)).value)] + rest.lines, rest.failedAt)
  }

  /** The demonstration's test player: 50 mana. */
  const TestWizard := Player("TestWizard", 4, 70, 50, 0)

  /** At level 3 the test wizard can cast a fireball (cost 16) and heal
      (cost 24); the report then stops at the shield, which has no mana
      cost, and never reaches lightning. */
  lemma SampleUsage()
    ensures UsageFor(TestWizard, AbilityNames, 3) ==
      UsageReport([Usage("fireball", true, 16), Usage("heal", true, 24)], Some("shield"))
  {
  }
}
