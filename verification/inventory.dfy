/** The inventory sorts of `demonstrate_item_sorting`: by value, by rarity
    rank, by type then descending value, and the equipped items by value.
    Each is Python's stable `sorted` with a different key. */
module InventorySorts {
  import opened Wrappers
  import opened Records
  import opened Sequences
  import opened Sorting
  import opened TextOrder
  import opened Fixtures

  /** Integer keys compare with `<=`. */
  predicate IntLe(a: int, b: int) {
    a <= b
  }

  lemma IntLeTotalOrder()
    ensures TotalPreorder(IntLe) && Antisymmetric(IntLe)
  {
  }

  /** A permutation has the same members as the sequence it permutes. */
  lemma SameMembers(a: seq<Item>, b: seq<Item>)
    requires multiset(a) == multiset(b)
    ensures forall i :: 0 <= i < |a| ==> a[i] in b
    ensures forall i :: 0 <= i < |b| ==> b[i] in a
  {
    forall i | 0 <= i < |a|
      ensures a[i] in b
    {
      assert a[i] in multiset(a);
    }
    forall i | 0 <= i < |b|
      ensures b[i] in a
    {
      assert b[i] in multiset(b);
    }
  }

  // ---------------------------------------------------------------- by value

  /** The sort key `item["value"]`. */
  function ItemValue(i: Item): int {
    i.value
  }

  /** `sorted(inventory, key=lambda item: item["value"])`. */
  function ByValue(items: seq<Item>): (r: seq<Item>)
    ensures multiset(r) == multiset(items)
    ensures forall i, j :: 0 <= i < j < |r| ==> r[i].value <= r[j].value
    ensures Stable(r, items, ItemValue)
  {
    IntLeTotalOrder();
    SortBySorted(items, ItemValue, IntLe);
    SortByStable(items, ItemValue, IntLe);
    SortByPermutes(items, ItemValue, IntLe);
    SortBy(items, ItemValue, IntLe)
  }

  /** Any arrangement of the items that is ordered by value and keeps items
      of equal value in inventory order is the value sort. */
  lemma ByValueUnique(r: seq<Item>, items: seq<Item>)
    requires forall i, j :: 0 <= i < j < |r| ==> r[i].value <= r[j].value
    requires Stable(r, items, ItemValue)
    ensures r == ByValue(items)
  {
    IntLeTotalOrder();
    assert Sorted(r, ItemValue, IntLe);
    SortByCharacterised(r, items, ItemValue, IntLe);
  }

  /** Sorting by value twice is sorting once. */
  lemma ByValueIdempotent(items: seq<Item>)
    ensures ByValue(ByValue(items)) == ByValue(items)
  {
    IntLeTotalOrder();
    SortByIdempotent(items, ItemValue, IntLe);
  }

  // --------------------------------------------------------------- by rarity

  /** The `rarity_order` table: rarity names from least to most rare. */
  const RarityLadder: seq<string> := ["common", "uncommon", "rare", "epic", "legendary"]

  /** `rarity_order[name]`: the rank of a rarity name, or `None` where the
      dictionary lookup raises `KeyError`. */
  function RarityRank(name: string): (r: Option<int>)
    ensures r.Some? <==> name in RarityLadder
    ensures r.Some? ==> 0 <= r.value < |RarityLadder| && RarityLadder[r.value] == name
  {
    if name == "common" then Some(0)
    else if name == "uncommon" then Some(1)
    else if name == "rare" then Some(2)
    else if name == "epic" then Some(3)
    else if name == "legendary" then Some(4)
    else None
  }

  /** Every rank in the table belongs to exactly one rarity name, in ladder
      order. */
  lemma RarityRankOfLadder(i: int)
    requires 0 <= i < |RarityLadder|
    ensures RarityRank(RarityLadder[i]) == Some(i)
  {
  }

  /** Every item's rarity is in the table, so the rarity sort can run. */
  predicate RaritiesKnown(items: seq<Item>) {
    forall i :: 0 <= i < |items| ==> RarityRank(items[i].rarity).Some?
  }

  /** The sort key `rarity_order[item["rarity"]]`, for an item whose rarity
      is in the table. */
  function RarityKey(i: Item): int {
    RarityRank(i.rarity).GetOr(0)
  }

  /** `sorted(inventory, key=lambda item: rarity_order[item["rarity"]])`:
      `None` when some rarity is not in the table. */
  function ByRarity(items: seq<Item>): (r: Option<seq<Item>>)
    ensures r.Some? <==> RaritiesKnown(items)
    ensures r.Some? ==> multiset(r.value) == multiset(items)
    ensures r.Some? ==> RaritiesKnown(r.value)
    ensures r.Some? ==> forall i, j :: 0 <= i < j < |r.value| ==>
      RarityRank(r.value[i].rarity).value <= RarityRank(r.value[j].rarity).value
    ensures r.Some? ==> Stable(r.value, items, RarityKey)
  {
    if RaritiesKnown(items) then
      IntLeTotalOrder();
      SortBySorted(items, RarityKey, IntLe);
      SortByStable(items, RarityKey, IntLe);
      SortByPermutes(items, RarityKey, IntLe);
      var s := SortBy(items, RarityKey, IntLe);
      assert RaritiesKnown(s) by {
        forall i | 0 <= i < |s|
          ensures RarityRank(s[i].rarity).Some?
        {
          assert s[i] in multiset(items);
        }
      }
      Some(s)
    else
      None
  }

  /** Any arrangement of the items that is ordered by rarity rank and keeps
      items of equal rarity in inventory order is the rarity sort. */
  lemma ByRarityUnique(r: seq<Item>, items: seq<Item>)
    requires RaritiesKnown(items) && RaritiesKnown(r)
    requires forall i, j :: 0 <= i < j < |r| ==>
      RarityRank(r[i].rarity).value <= RarityRank(r[j].rarity).value
    requires Stable(r, items, RarityKey)
    ensures ByRarity(items) == Some(r)
  {
    IntLeTotalOrder();
    assert Sorted(r, RarityKey, IntLe);
    SortByCharacterised(r, items, RarityKey, IntLe);
  }

  // ----------------------------------------------------- by type, then value

  /** The sort key `(item["type"], -item["value"])`. */
  function TypeValueKey(i: Item): (string, int) {
    (i.kind, -i.value)
  }

  /** Python's `<=` on a `(str, int)` tuple: lexicographic. */
  predicate TupleLe(a: (string, int), b: (string, int)) {
    StrLt(a.0, b.0) || (a.0 == b.0 && a.1 <= b.1)
  }

  lemma TupleLeTotalOrder()
    ensures TotalPreorder(TupleLe) && Antisymmetric(TupleLe)
  {
    forall a: (string, int), b: (string, int)
      ensures TupleLe(a, b) || TupleLe(b, a)
    {
      StrLeTotal(a.0, b.0);
    }
    forall a: (string, int), b: (string, int), c: (string, int) | TupleLe(a, b) && TupleLe(b, c)
      ensures TupleLe(a, c)
    {
      if a.0 != b.0 && b.0 != c.0 {
        StrLeTransitive(a.0, b.0, c.0);
        if a.0 == c.0 {
          StrLeAntisymmetric(a.0, b.0);
        }
      }
    }
    forall a: (string, int), b: (string, int) | TupleLe(a, b) && TupleLe(b, a)
      ensures a == b
    {
      if a.0 != b.0 {
        StrLeAntisymmetric(a.0, b.0);
      }
    }
  }

  /** `sorted(inventory, key=lambda item: (item["type"], -item["value"]))`. */
  function ByTypeThenValue(items: seq<Item>): (r: seq<Item>)
    ensures multiset(r) == multiset(items)
    ensures forall i, j :: 0 <= i < j < |r| ==>
      StrLt(r[i].kind, r[j].kind) || (r[i].kind == r[j].kind && r[i].value >= r[j].value)
    ensures Stable(r, items, TypeValueKey)
  {
    TupleLeTotalOrder();
    SortBySorted(items, TypeValueKey, TupleLe);
    SortByStable(items, TypeValueKey, TupleLe);
    SortByPermutes(items, TypeValueKey, TupleLe);
    SortBy(items, TypeValueKey, TupleLe)
  }

  /** Any arrangement of the items grouped by type in ascending order,
      dearest first within a type, and keeping items of equal type and
      value in inventory order is the type-then-value sort. */
  lemma ByTypeThenValueUnique(r: seq<Item>, items: seq<Item>)
    requires forall i, j :: 0 <= i < j < |r| ==>
      StrLt(r[i].kind, r[j].kind) || (r[i].kind == r[j].kind && r[i].value >= r[j].value)
    requires Stable(r, items, TypeValueKey)
    ensures r == ByTypeThenValue(items)
  {
    TupleLeTotalOrder();
    assert Sorted(r, TypeValueKey, TupleLe);
    SortByCharacterised(r, items, TypeValueKey, TupleLe);
  }

  // ------------------------------------------------------- equipped by value

  predicate IsEquipped(i: Item) {
    i.equipped
  }

  /** `sorted(filter(lambda item: item["equipped"], inventory),
      key=lambda item: item["value"])`. */
  function EquippedByValue(items: seq<Item>): (r: seq<Item>)
    ensures |r| <= |items|
    ensures forall i :: 0 <= i < |r| ==> r[i].equipped
    ensures forall i :: 0 <= i < |items| && items[i].equipped ==> items[i] in r
    ensures multiset(r) <= multiset(items)
    ensures forall i, j :: 0 <= i < j < |r| ==> r[i].value <= r[j].value
    ensures Stable(r, Filter(items, IsEquipped), ItemValue)
  {
    var equipped := Filter(items, IsEquipped);
    var r := ByValue(equipped);
    FilterSelects(items, IsEquipped);
    FilterSubMultiset(items, IsEquipped);
    SameMembers(r, equipped);
    r
  }

  // ------------------------------------------------------------ sample data

  /** The value sort of the last three sample items. */
  lemma ThreeByValue(mc: Item, ab: Item, mr: Item)
    requires mc.value == 100 && ab.value == 600 && mr.value == 400
    ensures SortBy([mc, ab, mr], ItemValue, IntLe) == [mc, mr, ab]
  {
    assert SortBy([mr], ItemValue, IntLe) == [] + [mr];
    SortByStep(ab, [mr], [mr], [], ItemValue, IntLe);
    assert [ab] + [mr] == [ab, mr] && [mr] + [ab] + [] == [] + [mr, ab];
    SortByStep(mc, [ab, mr], [], [mr, ab], ItemValue, IntLe);
    assert [mc] + [ab, mr] == [mc, ab, mr];
  }

  /** The value sort of the last four sample items. */
  lemma FourByValue(ds: Item, mc: Item, ab: Item, mr: Item)
    requires ds.value == 800 && mc.value == 100 && ab.value == 600 && mr.value == 400
    ensures SortBy([ds, mc, ab, mr], ItemValue, IntLe) == [mc, mr, ab, ds]
  {
    ThreeByValue(mc, ab, mr);
    assert [mc, mr, ab] == [mc, mr, ab] + [];
    SortByStep(ds, [mc, ab, mr], [mc, mr, ab], [], ItemValue, IntLe);
    assert [ds] + [mc, ab, mr] == [ds, mc, ab, mr];
  }

  /** The value sort of the last five sample items. */
  lemma FiveByValue(hp: Item, ds: Item, mc: Item, ab: Item, mr: Item)
    requires hp.value == 50 && ds.value == 800
    requires mc.value == 100 && ab.value == 600 && mr.value == 400
    ensures SortBy([hp, ds, mc, ab, mr], ItemValue, IntLe) == [hp, mc, mr, ab, ds]
  {
    FourByValue(ds, mc, ab, mr);
    assert [mc, mr, ab, ds] == [] + [mc, mr, ab, ds];
    SortByStep(hp, [ds, mc, ab, mr], [], [mc, mr, ab, ds], ItemValue, IntLe);
    assert [hp] + [ds, mc, ab, mr] == [hp, ds, mc, ab, mr];
  }

  /** The value sort of six items whose values are those of the sample
      inventory, in the sample's order. */
  lemma SixByValue(ms: Item, hp: Item, ds: Item, mc: Item, ab: Item, mr: Item)
    requires ms.value == 500 && hp.value == 50 && ds.value == 800
    requires mc.value == 100 && ab.value == 600 && mr.value == 400
    ensures ByValue([ms, hp, ds, mc, ab, mr]) == [hp, mc, mr, ms, ab, ds]
  {
    FiveByValue(hp, ds, mc, ab, mr);
    assert [hp, mc, mr, ab, ds] == [hp, mc, mr] + [ab, ds];
    SortByStep(ms, [hp, ds, mc, ab, mr], [hp, mc, mr], [ab, ds], ItemValue, IntLe);
    assert [ms] + [hp, ds, mc, ab, mr] == [ms, hp, ds, mc, ab, mr];
    assert [hp, mc, mr] + [ms] + [ab, ds] == [hp, mc, mr, ms, ab, ds];
  }

  /** On the sample inventory the value sort runs from "Health Potion" (50)
      to "Dragon Shield" (800). */
  lemma SampleByValue()
    ensures ByValue(SampleInventory()) == [
      Item("Health Potion", "consumable", 50, "common", false),
      Item("Mana Crystal", "consumable", 100, "uncommon", false),
      Item("Mystic Robe", "armor", 400, "uncommon", false),
      Item("Magic Sword", "weapon", 500, "rare", false),
      Item("Ancient Bow", "weapon", 600, "rare", true),
      Item("Dragon Shield", "armor", 800, "epic", true)]
  {
    var s := SampleInventory();
    SixByValue(s[0], s[1], s[2], s[3], s[4], s[5]);
    assert s == [s[0], s[1], s[2], s[3], s[4], s[5]];
  }

  /** Of six items of which only the third and fifth are equipped, the
      equipped filter keeps those two, in that order. */
  lemma SixEquipped(a: Item, b: Item, c: Item, d: Item, e: Item, f: Item)
    requires !a.equipped && !b.equipped && c.equipped && !d.equipped && e.equipped && !f.equipped
    ensures Filter([a, b, c, d, e, f], IsEquipped) == [c, e]
  {
    assert Filter([f], IsEquipped) == [];
    assert [e, f] == [e] + [f] && [e, f][1..] == [f];
    assert Filter([e, f], IsEquipped) == [e];
    assert [d, e, f][1..] == [e, f];
    assert Filter([d, e, f], IsEquipped) == [e];
    assert [c, d, e, f][1..] == [d, e, f];
    assert Filter([c, d, e, f], IsEquipped) == [c, e];
    assert [b, c, d, e, f][1..] == [c, d, e, f];
    assert Filter([b, c, d, e, f], IsEquipped) == [c, e];
    assert [a, b, c, d, e, f][1..] == [b, c, d, e, f];
  }

  /** Two items out of value order are swapped by the value sort. */
  lemma TwoByValue(a: Item, b: Item)
    requires a.value > b.value
    ensures SortBy([a, b], ItemValue, IntLe) == [b, a]
  {
    assert SortBy([b], ItemValue, IntLe) == [b] + [];
    SortByStep(a, [b], [b], [], ItemValue, IntLe);
    assert [a] + [b] == [a, b] && [b] + [a] + [] == [b, a];
  }

  /** On the sample inventory exactly "Ancient Bow" (600) and "Dragon
      Shield" (800) are equipped, and the equipped sort lists them in that
      order. */
  lemma SampleEquippedByValue()
    ensures EquippedByValue(SampleInventory()) == [
      Item("Ancient Bow", "weapon", 600, "rare", true),
      Item("Dragon Shield", "armor", 800, "epic", true)]
  {
    var s := SampleInventory();
    SixEquipped(s[0], s[1], s[2], s[3], s[4], s[5]);
    assert s == [s[0], s[1], s[2], s[3], s[4], s[5]];
    TwoByValue(s[2], s[4]);
  }
}
