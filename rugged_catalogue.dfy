/**
 * The Rugged game's fixed data: the catalogue of protective items, the
 * disaster types, the selection limit and the starting budget.
 */
module RuggedCatalogue {
  import opened Wrappers

  /** Protection points against each disaster. */
  datatype Protections = Protections(storm: int, flood: int, quake: int, volcano: int)

  datatype Item = Item(name: string, price: int, protections: Protections)

  /** `ITEMS`, in catalogue order. */
  const ITEMS: seq<Item> := [
    Item("MOUNTAIN FORTRESS", 25000, Protections(60, 100, 25, 10)),
    Item("TECTONIC SHIELD", 20000, Protections(15, 15, 90, 85)),
    Item("UNDERGROUND BUNKER", 19000, Protections(90, 45, 5, 45)),
    Item("COASTAL DEFENSE SYSTEM", 18000, Protections(85, 95, 0, 0)),
    Item("HURRICANE DOME", 17000, Protections(100, 35, 10, 5)),
    Item("STORM SHELTER", 16000, Protections(90, 30, 5, 0)),
    Item("REINFORCED SAFE ROOM", 15000, Protections(40, 30, 30, 15)),
    Item("FLOOD BARRIER SYSTEM", 14500, Protections(10, 95, 5, 0)),
    Item("EARTHQUAKE PROOF FOUNDATION", 14000, Protections(5, 0, 100, 0)),
    Item("INFLATABLE RAFT", 13500, Protections(15, 50, 10, 0)),
    Item("PORTABLE SHELTER", 13000, Protections(45, 15, 0, 5)),
    Item("SEISMIC DAMPENERS", 12500, Protections(10, 5, 70, 0)),
    Item("HAZMAT SUIT", 12000, Protections(20, 20, 0, 65)),
    Item("VOLCANO BUNKER", 12000, Protections(25, 5, 5, 100)),
    Item("LIFE JACKET", 11500, Protections(10, 60, 0, 0)),
    Item("SANDBAGS", 11500, Protections(0, 30, 0, 0)),
    Item("WATER STORAGE TANK", 11000, Protections(10, 40, 5, 0)),
    Item("BLOCKCHAIN ASSETS", 11000, Protections(20, 25, 15, 5)),
    Item("REINFORCED WINDOWS", 10500, Protections(45, 10, 5, 0)),
    Item("SOLAR CHARGER", 10500, Protections(15, 20, 10, 5)),
    Item("FIRST AID KIT", 10000, Protections(20, 25, 5, 5)),
    Item("LIFEBOAT", 10000, Protections(15, 50, 0, 0)),
    Item("EMERGENCY FOOD SUPPLY", 95000, Protections(35, 10, 5, 0)),
    Item("RADIO", 9500, Protections(30, 20, 0, 0)),
    Item("PORTABLE GENERATOR", 9000, Protections(35, 20, 0, 0)),
    Item("EMERGENCY FLARES", 9000, Protections(20, 15, 10, 10)),
    Item("EARTHQUAKE STRAPS", 8500, Protections(0, 0, 65, 0)),
    Item("FLASHLIGHT", 8500, Protections(15, 5, 5, 0)),
    Item("HEAT REFLECTIVE SHEET", 8000, Protections(10, 0, 0, 20)),
    Item("EMERGENCY BLANKET", 8000, Protections(15, 0, 5, 0)),
    Item("FIRE EXTINGUISHER", 7500, Protections(5, 5, 5, 25)),
    Item("CARDBOARD BOX", 7000, Protections(10, 2, 2, 0)),
    Item("STURDY SHOES", 6500, Protections(5, 5, 5, 5)),
    Item("ROOF SHINGLES", 6000, Protections(20, 0, 0, 0)),
    Item("EMERGENCY WHISTLE", 5500, Protections(5, 5, 5, 0)),
    Item("DUCT TAPE", 5000, Protections(5, 2, 2, 0)),
    Item("BEACH UMBRELLA", 5000, Protections(10, 0, 0, 0)),
    Item("PLASTIC BAG", 5000, Protections(5, 2, 0, 0))
  ]

  datatype DisasterType = DisasterType(name: string, probability: int)

  /** `DISASTER_TYPES`; their names are the keys of every item's protections. */
  const DISASTER_TYPES: seq<DisasterType> := [
    DisasterType("STORM", 50),
    DisasterType("FLOOD", 25),
    DisasterType("QUAKE", 15),
    DisasterType("VOLCANO", 10)
  ]

  /** The names of a list of disaster types. */
  function DisasterNames(types: seq<DisasterType>): set<string>
    decreases |types|
  {
    if types == [] then {} else DisasterNames(types[..|types| - 1]) + {types[|types| - 1].name}
  }

  const MAX_ITEMS: int := 5

  const STARTING_BUDGET: int := 50000

  /** The names of the disasters, which are the own keys of every `protections` object. */
  const DISASTER_NAMES: set<string> := {"STORM", "FLOOD", "QUAKE", "VOLCANO"}

  lemma DisasterTypesNames()
    ensures DisasterNames(DISASTER_TYPES) == DISASTER_NAMES
  {
    var t := DISASTER_TYPES;
    assert DisasterNames(t[..1]) == {"STORM"} by {
      assert t[..1][..0] == [];
    }
    assert DisasterNames(t[..2]) == {"STORM", "FLOOD"} by {
      assert t[..2][..1] == t[..1];
    }
    assert DisasterNames(t[..3]) == {"STORM", "FLOOD", "QUAKE"} by {
      assert t[..3][..2] == t[..2];
    }
    assert t[..4][..3] == t[..3] && t[..4] == t;
  }

  /** `protections[key]` for an own key; `None` for any other key. */
  function ProtectionValue(p: Protections, key: string): (r: Option<int>)
    ensures r.Some? <==> key in DISASTER_NAMES
  {
    if key == "STORM" then Some(p.storm)
    else if key == "FLOOD" then Some(p.flood)
    else if key == "QUAKE" then Some(p.quake)
    else if key == "VOLCANO" then Some(p.volcano)
    else None
  }

  /** The index of the first item of `items` named `name`. */
  function FindIndex(items: seq<Item>, name: string): (r: Option<nat>)
    ensures r.Some? ==> r.value < |items| && items[r.value].name == name
    ensures r.Some? ==> forall k :: 0 <= k < r.value ==> items[k].name != name
    ensures r.None? ==> forall k :: 0 <= k < |items| ==> items[k].name != name
  {
    if items == [] then None
    else if items[0].name == name then Some(0)
    else
      match FindIndex(items[1..], name)
      case None => None
      case Some(k) => Some(k + 1)
  }

  /**
   * `ITEMS.find(i => i.name === name)`, with the catalogue as a parameter:
   * the store always passes `ITEMS`, and most proofs need only a few of its
   * properties.
   */
  function FindItem(catalogue: seq<Item>, name: string): (r: Option<Item>)
    ensures r.Some? ==> r.value in catalogue && r.value.name == name
    ensures r.None? <==> forall k :: 0 <= k < |catalogue| ==> catalogue[k].name != name
  {
    match FindIndex(catalogue, name)
    case None => None
    case Some(k) => Some(catalogue[k])
  }

  predicate DistinctNames(catalogue: seq<Item>) {
    forall i, j :: 0 <= i < j < |catalogue| ==> catalogue[i].name != catalogue[j].name
  }

  predicate PositivePrices(catalogue: seq<Item>) {
    forall i :: 0 <= i < |catalogue| ==> catalogue[i].price > 0
  }

  predicate InRange(p: Protections) {
    0 <= p.storm <= 100 && 0 <= p.flood <= 100 && 0 <= p.quake <= 100 && 0 <= p.volcano <= 100
  }

  predicate BoundedProtections(catalogue: seq<Item>) {
    forall i :: 0 <= i < |catalogue| ==> InRange(catalogue[i].protections)
  }

  /**
   * What the store relies on about its catalogue: at least two items, no
   * name twice, and prices above zero.
   */
  predicate CatalogueOk(catalogue: seq<Item>) {
    |catalogue| >= 2 && DistinctNames(catalogue) && PositivePrices(catalogue)
  }

  /** In a catalogue without repeated names, looking an item up by its name finds it. */
  lemma {:induction false} FindItemOf(catalogue: seq<Item>, i: int)
    requires DistinctNames(catalogue) && 0 <= i < |catalogue|
    ensures FindItem(catalogue, catalogue[i].name) == Some(catalogue[i])
  {
    var k := FindIndex(catalogue, catalogue[i].name);
  }

  /**
   * `ITEMS` has 38 items with distinct names, positive prices and
   * protections between 0 and 100.
   */
  lemma CatalogueFacts()
    ensures |ITEMS| == 38
    ensures DistinctNames(ITEMS) && PositivePrices(ITEMS) && BoundedProtections(ITEMS)
  {
    ItemNamesDistinct();
    PricesPositive();
    StormAndFloodInRange();
    QuakeAndVolcanoInRange();
  }

  lemma ItemsOk()
    ensures CatalogueOk(ITEMS)
  {
    ItemNamesDistinct();
    PricesPositive();
  }

  /** No two items of `ITEMS` share a name. */
  lemma ItemNamesDistinct()
    ensures |ITEMS| == 38 && DistinctNames(ITEMS)
  {
    NamesDistinctFrom0To1();
    NamesDistinctFrom2To4();
    NamesDistinctFrom5To7();
    NamesDistinctFrom8To10();
    NamesDistinctFrom11To14();
    NamesDistinctFrom15To18();
    NamesDistinctFrom19To25();
    NamesDistinctFrom26To37();
  }

  lemma NamesDistinctFrom0To1()
    ensures forall i, j :: 0 <= i < 2 && i < j < |ITEMS| ==> ITEMS[i].name != ITEMS[j].name
  {
  }

  lemma NamesDistinctFrom2To4()
    ensures forall i, j :: 2 <= i < 5 && i < j < |ITEMS| ==> ITEMS[i].name != ITEMS[j].name
  {
  }

  lemma NamesDistinctFrom5To7()
    ensures forall i, j :: 5 <= i < 8 && i < j < |ITEMS| ==> ITEMS[i].name != ITEMS[j].name
  {
  }

  lemma NamesDistinctFrom8To10()
    ensures forall i, j :: 8 <= i < 11 && i < j < |ITEMS| ==> ITEMS[i].name != ITEMS[j].name
  {
  }

  lemma NamesDistinctFrom11To14()
    ensures forall i, j :: 11 <= i < 15 && i < j < |ITEMS| ==> ITEMS[i].name != ITEMS[j].name
  {
  }

  lemma NamesDistinctFrom15To18()
    ensures forall i, j :: 15 <= i < 19 && i < j < |ITEMS| ==> ITEMS[i].name != ITEMS[j].name
  {
  }

  lemma NamesDistinctFrom19To25()
    ensures forall i, j :: 19 <= i < 26 && i < j < |ITEMS| ==> ITEMS[i].name != ITEMS[j].name
  {
  }

  lemma NamesDistinctFrom26To37()
    ensures forall i, j :: 26 <= i < 38 && i < j < |ITEMS| ==> ITEMS[i].name != ITEMS[j].name
  {
  }

  lemma PricesPositive()
    ensures PositivePrices(ITEMS)
  {
    PricesPositiveFrom0To18();
    PricesPositiveFrom19To37();
  }

  lemma StormAndFloodInRange()
    ensures forall i :: 0 <= i < |ITEMS| ==> 0 <= ITEMS[i].protections.storm <= 100 && 0 <= ITEMS[i].protections.flood <= 100
  {
    StormAndFloodFrom0To18();
    StormAndFloodFrom19To37();
  }

  lemma QuakeAndVolcanoInRange()
    ensures forall i :: 0 <= i < |ITEMS| ==> 0 <= ITEMS[i].protections.quake <= 100 && 0 <= ITEMS[i].protections.volcano <= 100
  {
    QuakeAndVolcanoFrom0To18();
    QuakeAndVolcanoFrom19To37();
  }

  lemma PricesPositiveFrom0To18()
    ensures forall i :: 0 <= i < 19 ==> ITEMS[i].price > 0
  {
  }

  lemma StormAndFloodFrom0To18()
    ensures forall i :: 0 <= i < 19 ==> 0 <= ITEMS[i].protections.storm <= 100 && 0 <= ITEMS[i].protections.flood <= 100
  {
  }

  lemma QuakeAndVolcanoFrom0To18()
    ensures forall i :: 0 <= i < 19 ==> 0 <= ITEMS[i].protections.quake <= 100 && 0 <= ITEMS[i].protections.volcano <= 100
  {
  }

  lemma PricesPositiveFrom19To37()
    ensures forall i :: 19 <= i < |ITEMS| ==> ITEMS[i].price > 0
  {
  }

  lemma StormAndFloodFrom19To37()
    ensures forall i :: 19 <= i < |ITEMS| ==> 0 <= ITEMS[i].protections.storm <= 100 && 0 <= ITEMS[i].protections.flood <= 100
  {
  }

  lemma QuakeAndVolcanoFrom19To37()
    ensures forall i :: 19 <= i < |ITEMS| ==> 0 <= ITEMS[i].protections.quake <= 100 && 0 <= ITEMS[i].protections.volcano <= 100
  {
  }

  /** "EMERGENCY FOOD SUPPLY" costs 95 000, more than the starting budget. */
  lemma EmergencyFoodSupplyPrice()
    ensures FindItem(ITEMS, "EMERGENCY FOOD SUPPLY").Some?
    ensures FindItem(ITEMS, "EMERGENCY FOOD SUPPLY").value.price == 95000 > STARTING_BUDGET
  {
    assert ITEMS[22].name == "EMERGENCY FOOD SUPPLY" && ITEMS[22].price == 95000;
    CatalogueFacts();
    FindItemOf(ITEMS, 22);
  }
}
