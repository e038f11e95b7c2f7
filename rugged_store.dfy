/**
 * The Rugged game's store (a zustand store): the player's island and item
 * choices, the budget, the sort settings of the catalogue and the results of
 * committing. Each action reads the state and replaces some of its fields.
 */
module RuggedStore {
  import opened Wrappers
  import opened Sequences
  import opened RuggedCatalogue

  datatype SortOrder = Asc | Desc

  datatype Disaster = Disaster(name: string, severity: int, island: string)

  /** The data fields of the store; numbers are integers here. */
  datatype RuggedState = RuggedState(
    selectedIsland: Option<string>,
    selectedItems: seq<string>,
    remainingBudget: int,
    isCommitted: bool,
    disasterCountdown: int,
    disasters: seq<Disaster>,
    showItemSelection: bool,
    sortBy: string,
    sortOrder: SortOrder,
    ruggedItems: seq<string>,
    playersLeft: int,
    islandStats: map<string, int>,
    averageProtection: map<string, int>,
    eliminatedPlayers: map<string, int>,
    showPayoutSchedule: bool,
    countdown: int)

  /**
   * `s.filter(i => i !== x)`: every `x` goes, every other name keeps each of
   * its occurrences, and (`RemoveAllAppend`) the names kept stay in order.
   */
  function RemoveAll(s: seq<string>, x: string): (r: seq<string>)
    ensures forall y :: y in r <==> y in s && y != x
    ensures forall y :: Count(r, y) == if y == x then 0 else Count(s, y)
    ensures |r| == |s| - Count(s, x)
    ensures NoDuplicates(s) ==> NoDuplicates(r)
  {
    if s == [] then []
    else
      var rest := RemoveAll(s[1..], x);
      assert s == [s[0]] + s[1..];
      assert NoDuplicates(s) ==> s[0] !in s[1..];
      if s[0] == x then rest
      else
        assert forall i :: 0 < i < |[s[0]] + rest| ==> ([s[0]] + rest)[i] == rest[i - 1];
        [s[0]] + rest
  }

  /**
   * The filter works name by name: on a concatenation it is the filtered
   * parts, one after the other, so the names kept stay in their order.
   */
  lemma {:induction false} RemoveAllAppend(a: seq<string>, b: seq<string>, x: string)
    ensures RemoveAll(a + b, x) == RemoveAll(a, x) + RemoveAll(b, x)
  {
    if a == [] {
      assert a + b == b;
    } else {
      assert (a + b)[0] == a[0] && (a + b)[1..] == a[1..] + b;
      RemoveAllAppend(a[1..], b, x);
    }
  }

  /** The price of a selected name; a name outside the catalogue costs nothing. */
  function PriceOf(catalogue: seq<Item>, name: string): int {
    match FindItem(catalogue, name)
    case None => 0
    case Some(item) => item.price
  }

  /** The sum of the prices of the selected names, each occurrence counted. */
  function TotalPrice(catalogue: seq<Item>, names: seq<string>): int {
    if names == [] then 0 else PriceOf(catalogue, names[0]) + TotalPrice(catalogue, names[1..])
  }

  /**
   * `handleItemSelection(itemName)` as a state transformer, the catalogue
   * being `ITEMS`. Only the selection and the budget can change.
   */
  function SelectItem(catalogue: seq<Item>, s: RuggedState, itemName: string): (r: RuggedState)
    ensures r == s.(selectedItems := r.selectedItems, remainingBudget := r.remainingBudget)
    ensures FindItem(catalogue, itemName).None? ==> r == s
    ensures FindItem(catalogue, itemName).Some? && itemName in s.selectedItems ==>
      && itemName !in r.selectedItems
      && (forall y :: y != itemName ==> (y in r.selectedItems <==> y in s.selectedItems))
      && r.remainingBudget == s.remainingBudget + PriceOf(catalogue, itemName)
    ensures itemName !in s.selectedItems ==>
      if FindItem(catalogue, itemName).Some? && s.remainingBudget >= PriceOf(catalogue, itemName) && |s.selectedItems| < MAX_ITEMS
      then r.selectedItems == s.selectedItems + [itemName] && r.remainingBudget == s.remainingBudget - PriceOf(catalogue, itemName)
      else r == s
  {
    match FindItem(catalogue, itemName)
    case None => s
    case Some(item) =>
      if itemName in s.selectedItems then
        s.(remainingBudget := s.remainingBudget + item.price, selectedItems := RemoveAll(s.selectedItems, itemName))
      else if s.remainingBudget >= item.price && |s.selectedItems| < MAX_ITEMS then
        s.(remainingBudget := s.remainingBudget - item.price, selectedItems := s.selectedItems + [itemName])
      else s
  }

  /** The total price of a sequence with one more name at the end. */
  lemma {:induction false} TotalPriceSnoc(catalogue: seq<Item>, names: seq<string>, x: string)
    ensures TotalPrice(catalogue, names + [x]) == TotalPrice(catalogue, names) + PriceOf(catalogue, x)
  {
    if names != [] {
      assert (names + [x])[1..] == names[1..] + [x];
      TotalPriceSnoc(catalogue, names[1..], x);
    }
  }

  /**
   * Removing every occurrence of a name takes its price off the total once
   * per occurrence.
   */
  lemma {:induction false} TotalPriceRemoveAll(catalogue: seq<Item>, names: seq<string>, x: string)
    ensures TotalPrice(catalogue, RemoveAll(names, x)) == TotalPrice(catalogue, names) - Count(names, x) * PriceOf(catalogue, x)
  {
    if names != [] {
      var rest := names[1..];
      var price := PriceOf(catalogue, x);
      var c := Count(rest, x);
      TotalPriceRemoveAll(catalogue, rest, x);
      if names[0] != x {
        assert RemoveAll(names, x) == [names[0]] + RemoveAll(rest, x);
        TotalPriceCons(catalogue, names[0], RemoveAll(rest, x));
        assert Count(names, x) == c;
      } else {
        assert RemoveAll(names, x) == RemoveAll(rest, x);
        assert Count(names, x) == c + 1;
        MultiplySuccessor(c, price);
      }
    }
  }

  lemma MultiplySuccessor(c: nat, price: int)
    ensures (c + 1) * price == c * price + price
  {
  }

  /** The total price of a sequence with one more name at the front. */
  lemma TotalPriceCons(catalogue: seq<Item>, x: string, names: seq<string>)
    ensures TotalPrice(catalogue, [x] + names) == PriceOf(catalogue, x) + TotalPrice(catalogue, names)
  {
    assert ([x] + names)[1..] == names;
  }

  /**
   * With no name selected twice, selecting or deselecting keeps the budget
   * plus the price of the selection constant. A name selected twice (which
   * only `setSelectedItems` can produce) is removed entirely but refunded
   * once.
   */
  lemma SelectItemConserves(catalogue: seq<Item>, s: RuggedState, itemName: string)
    requires NoDuplicates(s.selectedItems)
    ensures var r := SelectItem(catalogue, s, itemName);
      r.remainingBudget + TotalPrice(catalogue, r.selectedItems) == s.remainingBudget + TotalPrice(catalogue, s.selectedItems)
  {
    if FindItem(catalogue, itemName).Some? {
      if itemName in s.selectedItems {
        TotalPriceRemoveAll(catalogue, s.selectedItems, itemName);
        OccursOnce(s.selectedItems, itemName);
      } else {
        TotalPriceSnoc(catalogue, s.selectedItems, itemName);
      }
    }
  }


  /**
   * What holds of the selection in every state reached from the initial one
   * by `handleItemSelection`: catalogue names only, none twice, at most
   * `MAX_ITEMS`, a budget that is never negative and that, with the price of
   * the selection, adds up to the starting budget.
   */
  predicate SelectionInvariant(catalogue: seq<Item>, s: RuggedState) {
    && (forall name :: name in s.selectedItems ==> FindItem(catalogue, name).Some?)
    && NoDuplicates(s.selectedItems)
    && |s.selectedItems| <= MAX_ITEMS
    && s.remainingBudget >= 0
    && s.remainingBudget + TotalPrice(catalogue, s.selectedItems) == STARTING_BUDGET
  }

  /** `handleItemSelection` keeps the invariant. */
  lemma SelectItemKeepsInvariant(catalogue: seq<Item>, s: RuggedState, itemName: string)
    requires PositivePrices(catalogue) && SelectionInvariant(catalogue, s)
    ensures SelectionInvariant(catalogue, SelectItem(catalogue, s, itemName))
  {
    SelectItemConserves(catalogue, s, itemName);
    var r := SelectItem(catalogue, s, itemName);
    if itemName !in s.selectedItems && r != s {
      var names := s.selectedItems;
      assert r.selectedItems == names + [itemName];
      forall i, j | 0 <= i < j < |r.selectedItems| ensures r.selectedItems[i] != r.selectedItems[j] {
        assert r.selectedItems[i] == names[i];
        if j < |names| {
          assert r.selectedItems[j] == names[j];
        }
      }
    }
    PriceNonNegative(catalogue, itemName);
  }

  /** A selection is never cheaper than any one of its items. */
  lemma {:induction false} TotalPriceCoversMember(catalogue: seq<Item>, names: seq<string>, x: string)
    requires PositivePrices(catalogue)
    requires x in names
    ensures TotalPrice(catalogue, names) >= PriceOf(catalogue, x)
  {
    assert names == [names[0]] + names[1..];
    PriceNonNegative(catalogue, names[0]);
    if names[0] != x {
      TotalPriceCoversMember(catalogue, names[1..], x);
    } else {
      TotalPriceNonNegative(catalogue, names[1..]);
    }
  }

  lemma PriceNonNegative(catalogue: seq<Item>, name: string)
    requires PositivePrices(catalogue)
    ensures PriceOf(catalogue, name) >= 0
  {
    var k := FindIndex(catalogue, name);
  }

  lemma {:induction false} TotalPriceNonNegative(catalogue: seq<Item>, names: seq<string>)
    requires PositivePrices(catalogue)
    ensures TotalPrice(catalogue, names) >= 0
  {
    if names != [] {
      PriceNonNegative(catalogue, names[0]);
      TotalPriceNonNegative(catalogue, names[1..]);
    }
  }

  /** Under the invariant, "EMERGENCY FOOD SUPPLY" (95 000) is never selected. */
  lemma EmergencyFoodSupplyNeverSelected(s: RuggedState)
    requires SelectionInvariant(ITEMS, s)
    ensures "EMERGENCY FOOD SUPPLY" !in s.selectedItems
  {
    EmergencyFoodSupplyPrice();
    PricesPositive();
    if "EMERGENCY FOOD SUPPLY" in s.selectedItems {
      TotalPriceCoversMember(ITEMS, s.selectedItems, "EMERGENCY FOOD SUPPLY");
    }
  }

  /** The sort settings after `handleSort(category)`. */
  function SortAfter(s: RuggedState, category: string): (r: RuggedState)
    ensures r.sortBy == category
    ensures s.sortBy == category ==> r.sortOrder != s.sortOrder
    ensures s.sortBy != category ==> r.sortOrder == Asc
    ensures r == s.(sortBy := r.sortBy, sortOrder := r.sortOrder)
  {
    if s.sortBy == category then s.(sortOrder := if s.sortOrder == Asc then Desc else Asc)
    else s.(sortBy := category, sortOrder := Asc)
  }

  /**
   * Sorting twice by the current key restores the state; sorting twice by a
   * new key sorts by it in descending order.
   */
  lemma SortTwice(s: RuggedState, category: string)
    ensures s.sortBy == category ==> SortAfter(SortAfter(s, category), category) == s
    ensures s.sortBy != category ==> SortAfter(SortAfter(s, category), category) == s.(sortBy := category, sortOrder := Desc)
  {
  }

  /** `selectedIsland && selectedItems.length > 0`: `null` and "" are falsy. */
  predicate CanCommit(s: RuggedState) {
    s.selectedIsland.Some? && s.selectedIsland.value != "" && |s.selectedItems| > 0
  }

  /** `averageProtection` after a commit: one value from 25 to 74 per disaster. */
  predicate AverageProtectionDrawn(m: map<string, int>) {
    m.Keys == DISASTER_NAMES && forall d :: d in m ==> 25 <= m[d] <= 74
  }

  /** The rugged items a commit picks: two different catalogue names. */
  predicate RuggedPicked(catalogue: seq<Item>, rugged: seq<string>) {
    && |rugged| == 2 && rugged[0] != rugged[1]
    && forall name :: name in rugged ==> FindItem(catalogue, name).Some?
  }

  /**
   * `order` lists the positions `0 .. n-1` of a shuffled list of `n` items:
   * what a sort with a random comparator does to a list is reorder it.
   */
  predicate IsShuffle(order: seq<nat>, n: nat) {
    |order| == n
    && (forall i :: 0 <= i < n ==> order[i] < n)
    && (forall i, j :: 0 <= i < j < n ==> order[i] != order[j])
  }

  /** The list in its shuffled order. */
  function Shuffled(items: seq<Item>, order: seq<nat>): (r: seq<Item>)
    requires IsShuffle(order, |items|)
    ensures |r| == |items| && forall i :: 0 <= i < |r| ==> r[i] == items[order[i]]
  {
    seq(|order|, i requires 0 <= i < |order| => items[order[i]])
  }

  /**
   * The two names taken from the front of a shuffle of a catalogue with
   * distinct names are catalogue names, and they differ.
   */
  lemma ShuffledFrontDistinct(catalogue: seq<Item>, order: seq<nat>)
    requires DistinctNames(catalogue) && |catalogue| >= 2 && IsShuffle(order, |catalogue|)
    ensures var shuffled := Shuffled(catalogue, order); RuggedPicked(catalogue, [shuffled[0].name, shuffled[1].name])
  {
    FindItemOf(catalogue, order[0]);
    FindItemOf(catalogue, order[1]);
  }

  class Store {
    /**
     * The catalogue the actions look items up in: always `ITEMS`, whose
     * facts `CatalogueOk` states.
     */
    const catalogue: seq<Item>
    var state: RuggedState

    /** The initial state: no island, no items, the full budget, sorted by name. */
    constructor ()
      ensures state.selectedIsland == None && state.selectedItems == []
      ensures state.remainingBudget == STARTING_BUDGET && !state.isCommitted
      ensures state.disasterCountdown == 10 && state.disasters == [] && !state.showItemSelection
      ensures state.sortBy == "name" && state.sortOrder == Asc && state.ruggedItems == []
      ensures state.playersLeft == 1000 && state.islandStats == map["EAST" := 0, "WEST" := 0]
      ensures state.averageProtection == map[] && state.eliminatedPlayers == map[]
      ensures !state.showPayoutSchedule && state.countdown == 30
      ensures catalogue == ITEMS && CatalogueOk(catalogue) && SelectionInvariant(catalogue, state)
    {
      ItemsOk();
      catalogue := ITEMS;
      state := RuggedState(None, [], STARTING_BUDGET, false, 10, [], false, "name", Asc, [], 1000,
                           map["EAST" := 0, "WEST" := 0], map[], map[], false, 30);
    }

    method SetSelectedIsland(island: Option<string>)
      modifies this
      ensures state == old(state).(selectedIsland := island)
    {
      state := state.(selectedIsland := island);
    }

    method SetSelectedItems(items: seq<string>)
      modifies this
      ensures state == old(state).(selectedItems := items)
    {
      state := state.(selectedItems := items);
    }

    method SetRemainingBudget(budget: int)
      modifies this
      ensures state == old(state).(remainingBudget := budget)
    {
      state := state.(remainingBudget := budget);
    }

    method SetIsCommitted(committed: bool)
      modifies this
      ensures state == old(state).(isCommitted := committed)
    {
      state := state.(isCommitted := committed);
    }

    method SetDisasterCountdown(countdown: int)
      modifies this
      ensures state == old(state).(disasterCountdown := countdown)
    {
      state := state.(disasterCountdown := countdown);
    }

    method SetDisasters(disasters: seq<Disaster>)
      modifies this
      ensures state == old(state).(disasters := disasters)
    {
      state := state.(disasters := disasters);
    }

    method SetShowItemSelection(show: bool)
      modifies this
      ensures state == old(state).(showItemSelection := show)
    {
      state := state.(showItemSelection := show);
    }

    method SetSortBy(sortBy: string)
      modifies this
      ensures state == old(state).(sortBy := sortBy)
    {
      state := state.(sortBy := sortBy);
    }

    method SetSortOrder(order: SortOrder)
      modifies this
      ensures state == old(state).(sortOrder := order)
    {
      state := state.(sortOrder := order);
    }

    method SetRuggedItems(items: seq<string>)
      modifies this
      ensures state == old(state).(ruggedItems := items)
    {
      state := state.(ruggedItems := items);
    }

    method SetPlayersLeft(players: int)
      modifies this
      ensures state == old(state).(playersLeft := players)
    {
      state := state.(playersLeft := players);
    }

    method SetIslandStats(stats: map<string, int>)
      modifies this
      ensures state == old(state).(islandStats := stats)
    {
      state := state.(islandStats := stats);
    }

    method SetAverageProtection(protection: map<string, int>)
      modifies this
      ensures state == old(state).(averageProtection := protection)
    {
      state := state.(averageProtection := protection);
    }

    method SetEliminatedPlayers(players: map<string, int>)
      modifies this
      ensures state == old(state).(eliminatedPlayers := players)
    {
      state := state.(eliminatedPlayers := players);
    }

    method SetShowPayoutSchedule(show: bool)
      modifies this
      ensures state == old(state).(showPayoutSchedule := show)
    {
      state := state.(showPayoutSchedule := show);
    }

    method SetCountdown(countdown: int)
      modifies this
      ensures state == old(state).(countdown := countdown)
    {
      state := state.(countdown := countdown);
    }

    /**
     * Deselects a selected item (refunding its price) or selects an
     * affordable one while fewer than `MAX_ITEMS` are selected; an unknown
     * name, or a condition that fails, changes nothing.
     */
    method HandleItemSelection(itemName: string)
      modifies this
      ensures state == SelectItem(catalogue, old(state), itemName)
    {
      var selectedItems := state.selectedItems;
      var remainingBudget := state.remainingBudget;
      var item := FindItem(catalogue, itemName);
      if item.None? {
        return;
      }
      if itemName in selectedItems {
        state := state.(remainingBudget := remainingBudget + item.value.price,
                        selectedItems := RemoveAll(selectedItems, itemName));
      } else if remainingBudget >= item.value.price && |selectedItems| < MAX_ITEMS {
        state := state.(remainingBudget := remainingBudget - item.value.price,
                        selectedItems := selectedItems + [itemName]);
      }
    }

    /** Flips the order when sorting by the current key; otherwise sorts by the new key ascending. */
    method HandleSort(category: string)
      modifies this
      ensures state == SortAfter(old(state), category)
    {
      var sortBy := state.sortBy;
      var sortOrder := state.sortOrder;
      if sortBy == category {
        state := state.(sortOrder := if sortOrder == Asc then Desc else Asc);
      } else {
        state := state.(sortBy := category, sortOrder := Asc);
      }
    }

    /**
     * With an island and at least one item, marks the game committed, picks
     * the first two names of a random shuffle of the catalogue as the rugged
     * items, splits the 1000 players 600/400 between EAST and WEST and draws
     * an average protection per disaster; otherwise changes nothing. The
     * random choices are nondeterministic.
     */
    method HandleCommit()
      requires CatalogueOk(catalogue)
      modifies this
      ensures !CanCommit(old(state)) ==> state == old(state)
      ensures CanCommit(old(state)) ==>
        && state == old(state).(isCommitted := true, ruggedItems := state.ruggedItems,
                                islandStats := map["EAST" := 600, "WEST" := 400],
                                averageProtection := state.averageProtection)
        && RuggedPicked(catalogue, state.ruggedItems)
        && AverageProtectionDrawn(state.averageProtection)
    {
      var selectedIsland := state.selectedIsland;
      var selectedItems := state.selectedItems;
      if selectedIsland.Some? && selectedIsland.value != "" && |selectedItems| > 0 {
        var order := RandomShuffle(|catalogue|);
        var shuffled := Shuffled(catalogue, order);
        ShuffledFrontDistinct(catalogue, order);
        var eastPlayers := 1000 * 6 / 10;
        var westPlayers := 1000 - eastPlayers;
        var avgProtection := DrawAverageProtection();
        state := state.(isCommitted := true,
                        ruggedItems := [shuffled[0].name, shuffled[1].name],
                        islandStats := map["EAST" := eastPlayers, "WEST" := westPlayers],
                        averageProtection := avgProtection);
      }
    }
  }

  /** `[...items].sort(() => 0.5 - Math.random())`: some order of the positions, chosen at random. */
  method RandomShuffle(n: nat) returns (order: seq<nat>)
    ensures IsShuffle(order, n)
  {
    var identity := seq(n, i => i);
    assert IsShuffle(identity, n);
    order :| IsShuffle(order, n);
  }

  /**
   * The `reduce` over `DISASTER_TYPES` that sets each disaster's entry to
   * `Math.floor(Math.random() * 50) + 25`, the random draw being a choice.
   */
  method DrawAverageProtection() returns (avgProtection: map<string, int>)
    ensures AverageProtectionDrawn(avgProtection)
  {
    avgProtection := map[];
    for i := 0 to |DISASTER_TYPES|
      invariant avgProtection.Keys == DisasterNames(DISASTER_TYPES[..i])
      invariant forall d :: d in avgProtection ==> 25 <= avgProtection[d] <= 74
    {
      var roll: int :| 0 <= roll < 50;
      assert DISASTER_TYPES[..i + 1][..i] == DISASTER_TYPES[..i];
      avgProtection := avgProtection[DISASTER_TYPES[i].name := roll + 25];
    }
    assert DISASTER_TYPES[..|DISASTER_TYPES|] == DISASTER_TYPES;
    DisasterTypesNames();
  }

  /**
   * Any sequence of item clicks on a fresh store: the selection never holds
   * more than `MAX_ITEMS` names or a name twice, the budget never goes below
   * zero, and "EMERGENCY FOOD SUPPLY" is never selected.
   */
  method SelectFromStart(clicks: seq<string>) returns (selected: seq<string>, budget: int)
    ensures |selected| <= MAX_ITEMS && NoDuplicates(selected)
    ensures budget >= 0 && budget + TotalPrice(ITEMS, selected) == STARTING_BUDGET
    ensures "EMERGENCY FOOD SUPPLY" !in selected
  {
    var store := new Store();
    for i := 0 to |clicks|
      invariant SelectionInvariant(store.catalogue, store.state)
    {
      SelectItemKeepsInvariant(store.catalogue, store.state, clicks[i]);
      store.HandleItemSelection(clicks[i]);
    }
    EmergencyFoodSupplyNeverSelected(store.state);
    selected := store.state.selectedItems;
    budget := store.state.remainingBudget;
  }
}
