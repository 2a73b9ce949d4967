/** The four sample collections the demonstrations run on, as pure
    constructors returning fresh immutable values. */
module Fixtures {
  import opened Records

  /** The five sample players (`prepare_player_data`). */
  function SamplePlayers(): (r: seq<Player>)
    ensures |r| == 5
    ensures forall i :: 0 <= i < |r| ==> r[i].level >= 1
  {
    [ Player("Wizard1", 5, 80, 100, 2500),
      Player("Warrior2", 8, 120, 40, 3200),
      Player("Archer3", 6, 90, 60, 2800),
      Player("Healer4", 4, 70, 120, 2100),
      Player("Tank5", 7, 150, 30, 2700) ]
  }

  /** The eight sample entities (`prepare_entity_data`). */
  function SampleEntities(): (r: seq<Entity>)
    ensures |r| == 8
  {
    [ Entity("E001", "enemy", Point(100, 200), true),
      Entity("E002", "npc", Point(150, 250), true),
      Entity("E003", "enemy", Point(200, 300), false),
      Entity("E004", "item", Point(120, 220), true),
      Entity("E005", "enemy", Point(180, 150), true),
      Entity("E006", "npc", Point(90, 180), false),
      Entity("E007", "item", Point(210, 270), true),
      Entity("E008", "enemy", Point(160, 240), true) ]
  }

  /** The six sample inventory items (`prepare_inventory_data`). */
  function SampleInventory(): (r: seq<Item>)
    ensures |r| == 6
  {
    [ Item("Magic Sword", "weapon", 500, "rare", false),
      Item("Health Potion", "consumable", 50, "common", false),
      Item("Dragon Shield", "armor", 800, "epic", true),
      Item("Mana Crystal", "consumable", 100, "uncommon", false),
      Item("Ancient Bow", "weapon", 600, "rare", true),
      Item("Mystic Robe", "armor", 400, "uncommon", false) ]
  }

  /** The five sample map coordinates (`prepare_coordinate_data`). */
  function SampleCoordinates(): (r: seq<Point>)
    ensures |r| == 5
    ensures forall i :: 0 < i < |r| ==> r[i - 1] != r[i]
  {
    [Point(10, 20), Point(50, 60), Point(30, 40), Point(70, 80), Point(90, 10)]
  }
}
