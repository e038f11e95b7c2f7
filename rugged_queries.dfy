/**
 * The read-only queries of the Rugged game: the protection the selection
 * gives against a disaster, the table of those protections, and the
 * catalogue in the chosen sort order.
 */
module RuggedQueries {
  import opened Wrappers
  import opened RuggedCatalogue
  import opened RuggedStore

  /**
   * What one selected name adds to the protection against `disasterName`:
   * nothing when it is a rugged item or not in the catalogue, and otherwise
   * `item.protections[disasterName] || 0`.
   */
  function Contribution(catalogue: seq<Item>, rugged: seq<string>, disasterName: string, name: string): (r: int)
    ensures name in rugged || disasterName !in DISASTER_NAMES ==> r == 0
    ensures BoundedProtections(catalogue) ==> 0 <= r <= 100
  {
    if name in rugged then 0
    else
      match FindItem(catalogue, name)
      case None => 0
      case Some(item) =>
        match ProtectionValue(item.protections, disasterName)
        case None => 0
        case Some(v) => v
  }

  /**
   * The `reduce` over the selected names, visited from first to last. A key
   * that is no disaster name adds nothing (`|| 0`); with protections from 0
   * to 100 each name adds between 0 and 100.
   */
  function ProtectionSum(catalogue: seq<Item>, names: seq<string>, rugged: seq<string>, disasterName: string): (r: int)
    ensures disasterName !in DISASTER_NAMES ==> r == 0
    ensures BoundedProtections(catalogue) ==> 0 <= r <= 100 * |names|
    decreases |names|
  {
    if names == [] then 0
    else
      ProtectionSum(catalogue, names[..|names| - 1], rugged, disasterName)
      + Contribution(catalogue, rugged, disasterName, names[|names| - 1])
  }

  /**
   * `calculateProtection(state)(disasterName)`. Every catalogue item's
   * protections lie in 0..100, so the total lies in 0..100 per selected name.
   */
  function CalculateProtection(s: RuggedState, disasterName: string): (r: int)
    ensures disasterName !in DISASTER_NAMES ==> r == 0
    ensures 0 <= r <= 100 * |s.selectedItems|
  {
    StormAndFloodInRange();
    QuakeAndVolcanoInRange();
    ProtectionSum(ITEMS, s.selectedItems, s.ruggedItems, disasterName)
  }

  /** The selected names that are not rugged items, in selection order. */
  function Unrugged(names: seq<string>, rugged: seq<string>): (r: seq<string>)
    ensures forall x :: x in r <==> x in names && x !in rugged
    decreases |names|
  {
    if names == [] then []
    else
      var last := names[|names| - 1];
      var init := Unrugged(names[..|names| - 1], rugged);
      assert forall x :: x in names <==> x in names[..|names| - 1] || x == last;
      if last in rugged then init else init + [last]
  }

  /** The sum splits over a concatenation of selections. */
  lemma {:induction false} ProtectionSumAppend(catalogue: seq<Item>, a: seq<string>, b: seq<string>, rugged: seq<string>, d: string)
    ensures ProtectionSum(catalogue, a + b, rugged, d) == ProtectionSum(catalogue, a, rugged, d) + ProtectionSum(catalogue, b, rugged, d)
    decreases |b|
  {
    if b == [] {
      assert a + b == a;
    } else {
      var init := b[..|b| - 1];
      assert (a + b)[..|a + b| - 1] == a + init;
      assert (a + b)[|a + b| - 1] == b[|b| - 1];
      ProtectionSumAppend(catalogue, a, init, rugged, d);
    }
  }

  /**
   * The protection is the sum over the selected names that are not rugged
   * items, with the rugged list playing no further part.
   */
  lemma {:induction false} ProtectionSumSkipsRugged(catalogue: seq<Item>, names: seq<string>, rugged: seq<string>, d: string)
    ensures ProtectionSum(catalogue, names, rugged, d) == ProtectionSum(catalogue, Unrugged(names, rugged), [], d)
    decreases |names|
  {
    if names != [] {
      var init := names[..|names| - 1];
      var last := names[|names| - 1];
      ProtectionSumSkipsRugged(catalogue, init, rugged, d);
      if last !in rugged {
        var u := Unrugged(init, rugged);
        assert (u + [last])[..|u + [last]| - 1] == u;
      }
    }
  }

  /**
   * The table built by the `reduce` over a list of disaster types: one entry
   * per name, set to `protection` of that name.
   */
  function ProtectionTable(protection: string -> int, types: seq<DisasterType>): (table: map<string, int>)
    ensures table.Keys == DisasterNames(types)
    ensures forall d :: d in table ==> table[d] == protection(d)
    decreases |types|
  {
    if types == [] then map[]
    else
      var last := types[|types| - 1];
      ProtectionTable(protection, types[..|types| - 1])[last.name := protection(last.name)]
  }

  /** `getTotalProtection(state)`: exactly the four disaster names, each with its protection. */
  function GetTotalProtection(s: RuggedState): (table: map<string, int>)
    ensures table.Keys == DISASTER_NAMES
    ensures forall d :: d in table ==> table[d] == CalculateProtection(s, d)
  {
    DisasterTypesNames();
    ProtectionTable(d => CalculateProtection(s, d), DISASTER_TYPES)
  }

  // Sorting

  /** `key` never decreases along `s`. */
  predicate Sorted<T>(s: seq<T>, key: T -> int) {
    forall i, j :: 0 <= i < j < |s| ==> key(s[i]) <= key(s[j])
  }

  /** The elements of `s` whose key is `k`, in order. */
  function WithKey<T>(s: seq<T>, key: T -> int, k: int): seq<T> {
    if s == [] then [] else (if key(s[0]) == k then [s[0]] else []) + WithKey(s[1..], key, k)
  }

  /**
   * Puts `x` after every element whose key is not greater than its own; the
   * result holds the elements of `sorted` and `x`, each as often.
   */
  function Insert<T>(sorted: seq<T>, x: T, key: T -> int): (r: seq<T>)
    ensures |r| == |sorted| + 1
    ensures multiset(r) == multiset(sorted) + multiset{x}
  {
    if sorted == [] then [x]
    else if key(x) < key(sorted[0]) then [x] + sorted
    else
      assert sorted == [sorted[0]] + sorted[1..];
      [sorted[0]] + Insert(sorted[1..], x, key)
  }

  /**
   * A stable sort by an integer key, which is what `Array.prototype.sort`
   * does with a comparator returning the difference of two keys: each item
   * in turn is inserted into the sorted items before it. The result is in
   * key order; `SortByPermutes` shows it holds the same items.
   */
  function SortBy<T>(items: seq<T>, key: T -> int): (r: seq<T>)
    ensures Sorted(r, key)
    ensures |r| == |items|
    decreases |items|
  {
    if items == [] then []
    else
      var init := items[..|items| - 1];
      InsertSorted(SortBy(init, key), items[|items| - 1], key);
      Insert(SortBy(init, key), items[|items| - 1], key)
  }

  lemma {:induction false} InsertSorted<T>(sorted: seq<T>, x: T, key: T -> int)
    requires Sorted(sorted, key)
    ensures Sorted(Insert(sorted, x, key), key)
  {
    if sorted != [] && key(x) >= key(sorted[0]) {
      var rest := Insert(sorted[1..], x, key);
      InsertSorted(sorted[1..], x, key);
      forall y | y in rest ensures key(sorted[0]) <= key(y) {
        assert y in multiset(rest);
        if y != x {
          assert y in multiset(sorted[1..]);
        }
      }
    }
  }

  /** The result holds the same items, each as often, as the input. */
  lemma {:induction false} SortByPermutes<T>(items: seq<T>, key: T -> int)
    ensures multiset(SortBy(items, key)) == multiset(items)
    decreases |items|
  {
    if items != [] {
      var init := items[..|items| - 1];
      SortByPermutes(init, key);
      assert items == init + [items[|items| - 1]];
    }
  }

  lemma {:induction false} WithKeyAppend<T>(a: seq<T>, b: seq<T>, key: T -> int, k: int)
    ensures WithKey(a + b, key, k) == WithKey(a, key, k) + WithKey(b, key, k)
  {
    if a == [] {
      assert a + b == b;
    } else {
      var head := if key(a[0]) == k then [a[0]] else [];
      assert (a + b)[0] == a[0] && (a + b)[1..] == a[1..] + b;
      assert WithKey(a + b, key, k) == head + WithKey(a[1..] + b, key, k);
      WithKeyAppend(a[1..], b, key, k);
    }
  }

  lemma {:induction false} WithKeyAbove<T>(s: seq<T>, key: T -> int, k: int)
    requires forall i :: 0 <= i < |s| ==> key(s[i]) > k
    ensures WithKey(s, key, k) == []
  {
    if s != [] {
      WithKeyAbove(s[1..], key, k);
    }
  }

  lemma {:induction false} InsertStable<T>(sorted: seq<T>, x: T, key: T -> int, k: int)
    requires Sorted(sorted, key)
    ensures WithKey(Insert(sorted, x, key), key, k) == WithKey(sorted, key, k) + WithKey([x], key, k)
  {
    if sorted == [] {
      assert WithKey(sorted, key, k) == [];
    } else if key(x) < key(sorted[0]) {
      InsertAtFrontStable(sorted, x, key, k);
    } else {
      var rest := sorted[1..];
      SortedTail(sorted, key);
      InsertStable(rest, x, key, k);
      WithKeyAppend([sorted[0]], Insert(rest, x, key), key, k);
      WithKeyAppend([sorted[0]], rest, key, k);
      assert [sorted[0]] + rest == sorted;
    }
  }

  lemma InsertAtFrontStable<T>(sorted: seq<T>, x: T, key: T -> int, k: int)
    requires Sorted(sorted, key) && sorted != [] && key(x) < key(sorted[0])
    ensures WithKey([x] + sorted, key, k) == WithKey(sorted, key, k) + WithKey([x], key, k)
  {
    WithKeyAppend([x], sorted, key, k);
    if key(x) == k {
      WithKeyAbove(sorted, key, k);
    } else {
      assert WithKey([x], key, k) == [];
    }
  }

  lemma SortedTail<T>(s: seq<T>, key: T -> int)
    requires Sorted(s, key) && s != []
    ensures Sorted(s[1..], key)
  {
    forall i, j | 0 <= i < j < |s[1..]| ensures key(s[1..][i]) <= key(s[1..][j]) {
      assert s[1..][i] == s[i + 1] && s[1..][j] == s[j + 1];
    }
  }

  /** Items with equal keys keep their relative order: the sort is stable. */
  lemma {:induction false} SortByStable<T>(items: seq<T>, key: T -> int, k: int)
    ensures WithKey(SortBy(items, key), key, k) == WithKey(items, key, k)
    decreases |items|
  {
    if items != [] {
      var init := items[..|items| - 1];
      var last := items[|items| - 1];
      SortByStable(init, key, k);
      InsertStable(SortBy(init, key), last, key, k);
      WithKeyAppend(init, [last], key, k);
      assert init + [last] == items;
    }
  }

  /** With one key for every item the order is left as it is. */
  lemma SortByConstantKey<T>(items: seq<T>, key: T -> int, k: int)
    requires forall i :: 0 <= i < |items| ==> key(items[i]) == k
    ensures SortBy(items, key) == items
  {
    SortByStable(items, key, k);
    WithKeyAll(items, key, k);
    WithKeyAll(SortBy(items, key), key, k) by {
      SortByPermutes(items, key);
      forall i | 0 <= i < |SortBy(items, key)| ensures key(SortBy(items, key)[i]) == k {
        assert SortBy(items, key)[i] in multiset(items);
      }
    }
  }

  lemma {:induction false} WithKeyAll<T>(s: seq<T>, key: T -> int, k: int)
    requires forall i :: 0 <= i < |s| ==> key(s[i]) == k
    ensures WithKey(s, key, k) == s
  {
    if s != [] {
      WithKeyAll(s[1..], key, k);
    }
  }

  /**
   * The keys every plain object has through its prototype; `key in
   * protections` is true for them as well as for the disaster names.
   */
  const INHERITED_KEYS: set<string> := {
    "constructor", "__defineGetter__", "__defineSetter__", "hasOwnProperty",
    "__lookupGetter__", "__lookupSetter__", "isPrototypeOf", "propertyIsEnumerable",
    "toString", "valueOf", "__proto__", "toLocaleString"}

  /**
   * The key the comparator of `getSortedItems` compares, the comparator
   * returning the difference of two keys. An inherited key reads a function
   * or an object, whose difference is `NaN`, which the sort treats as a
   * tie. `rank` stands for `localeCompare`'s collation order.
   */
  function SortKey(s: RuggedState, rank: string -> int, item: Item): (k: int)
    ensures s.sortBy in INHERITED_KEYS ==> k == 0
  {
    if s.sortBy == "price" then
      if s.sortOrder == Asc then item.price else -item.price
    else if s.sortBy in DISASTER_NAMES then
      var v := ProtectionValue(item.protections, s.sortBy).value;
      if s.sortOrder == Asc then v else -v
    else if s.sortBy in INHERITED_KEYS then 0
    else rank(item.name)
  }

  /** `getSortedItems(state)`: a sorted copy of `ITEMS`, as long as `ITEMS`. */
  function GetSortedItems(s: RuggedState, rank: string -> int): (r: seq<Item>)
    ensures |r| == |ITEMS|
  {
    SortBy(ITEMS, item => SortKey(s, rank, item))
  }

  /** The sorted catalogue holds every item exactly as often as `ITEMS` does. */
  lemma GetSortedItemsPermutes(s: RuggedState, rank: string -> int)
    ensures multiset(GetSortedItems(s, rank)) == multiset(ITEMS)
  {
    SortByPermutes(ITEMS, item => SortKey(s, rank, item));
  }

  /**
   * The order of the sorted catalogue: by price or by the chosen disaster's
   * protection, rising or falling with `sortOrder`; by name, always rising,
   * for any other key that is not an inherited one.
   */
  lemma GetSortedItemsOrder(s: RuggedState, rank: string -> int)
    ensures var r := GetSortedItems(s, rank);
      forall i, j :: 0 <= i < j < |r| ==>
        && (s.sortBy == "price" && s.sortOrder == Asc ==> r[i].price <= r[j].price)
        && (s.sortBy == "price" && s.sortOrder == Desc ==> r[i].price >= r[j].price)
        && (s.sortBy in DISASTER_NAMES && s.sortOrder == Asc ==>
              ProtectionValue(r[i].protections, s.sortBy).value <= ProtectionValue(r[j].protections, s.sortBy).value)
        && (s.sortBy in DISASTER_NAMES && s.sortOrder == Desc ==>
              ProtectionValue(r[i].protections, s.sortBy).value >= ProtectionValue(r[j].protections, s.sortBy).value)
        && (s.sortBy != "price" && s.sortBy !in DISASTER_NAMES && s.sortBy !in INHERITED_KEYS ==>
              rank(r[i].name) <= rank(r[j].name))
  {
    var key := item => SortKey(s, rank, item);
    var r := GetSortedItems(s, rank);
    forall i, j | 0 <= i < j < |r| ensures key(r[i]) <= key(r[j]) { }
  }

  /** Items that compare equal stay in catalogue order. */
  lemma GetSortedItemsStable(s: RuggedState, rank: string -> int, k: int)
    ensures WithKey(GetSortedItems(s, rank), item => SortKey(s, rank, item), k) == WithKey(ITEMS, item => SortKey(s, rank, item), k)
  {
    SortByStable(ITEMS, item => SortKey(s, rank, item), k);
  }

  /** Sorting by an inherited key leaves the catalogue in its own order. */
  lemma GetSortedItemsInheritedKey(s: RuggedState, rank: string -> int)
    requires s.sortBy in INHERITED_KEYS
    ensures GetSortedItems(s, rank) == ITEMS
  {
    SortByConstantKey(ITEMS, item => SortKey(s, rank, item), 0);
  }
}
