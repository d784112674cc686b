/** Turning an upstream stock payload into a snapshot (`DataFormatter`:
    `findItemRarity` and `convertToStockFormat` in lib/GetRareStock.js,
    `findItemRarity`, `formatStockData` and `formatCategory` in
    lib/GetStock.js, which compute the same thing). */
module Formatter {
  import opened Wrappers
  import opened Catalog

  /** One element of an upstream category array. */
  datatype RawItem = RawItem(
    displayName: Option<string>,
    name: Option<string>,
    itemId: Option<string>,
    quantity: Option<int>,
    stock: Option<int>)

  /** A parsed upstream payload; a category is None when the field is absent
      or not an array (both become `[]`). */
  datatype StockPayload = StockPayload(
    gearStock: Option<seq<RawItem>>,
    seedStock: Option<seq<RawItem>>,
    eggStock: Option<seq<RawItem>>,
    eventshopStock: Option<seq<RawItem>>,
    cosmeticStock: Option<seq<RawItem>>)

  /** What parsing an upstream body gave: unparsable text, the JSON literal
      `null` (on which reading a field throws), or a value whose fields can
      be read (a non-object reads as an object without fields). */
  datatype Received = Unreadable | NullJson | Json(payload: StockPayload)

  /** A formatted entry. `stock` is the integer that the source stringifies. */
  datatype StockEntry = StockEntry(name: string, stock: int, rarity: string)

  /** The `Data` object of a formatted snapshot. */
  datatype Snapshot = Snapshot(
    updatedAt: int,
    gear: seq<StockEntry>,
    seeds: seq<StockEntry>,
    egg: seq<StockEntry>,
    honey: seq<StockEntry>,
    cosmetics: seq<StockEntry>)

  /** `itemLookup[key]?.rarity` is truthy. */
  predicate IsHit(index: Index, key: string) {
    key in index && index[key] != ""
  }

  /** The value of the first key that hits, else `'unknown'`. */
  function FirstHit(keys: seq<string>, index: Index): string
  {
    if keys == [] then "unknown"
    else if IsHit(index, keys[0]) then index[keys[0]]
    else FirstHit(keys[1..], index)
  }

  /** `keys[i]` is the first key that hits. */
  ghost predicate FirstHitAt(keys: seq<string>, index: Index, i: int) {
    && 0 <= i < |keys|
    && IsHit(index, keys[i])
    && forall j :: 0 <= j < i ==> !IsHit(index, keys[j])
  }

  /** `r` is what the early-return search yields: the value under the first
      key that hits, or `'unknown'` when none does. */
  ghost predicate IsFirstHitResult(keys: seq<string>, index: Index, r: string) {
    || (exists i :: FirstHitAt(keys, index, i) && r == index[keys[i]])
    || ((forall j :: 0 <= j < |keys| ==> !IsHit(index, keys[j])) && r == "unknown")
  }

  lemma {:induction false} FirstHitAtIndex(keys: seq<string>, index: Index, i: int)
    requires FirstHitAt(keys, index, i)
    ensures FirstHit(keys, index) == index[keys[i]]
  {
    if i > 0 {
      assert !IsHit(index, keys[0]);
      assert FirstHitAt(keys[1..], index, i - 1);
      FirstHitAtIndex(keys[1..], index, i - 1);
    }
  }

  lemma {:induction false} FirstHitNone(keys: seq<string>, index: Index)
    requires forall j :: 0 <= j < |keys| ==> !IsHit(index, keys[j])
    ensures FirstHit(keys, index) == "unknown"
  {
    if keys != [] {
      FirstHitNone(keys[1..], index);
    }
  }

  /** The search result is unique: there is one first hit, or none. */
  lemma FirstHitResultUnique(keys: seq<string>, index: Index, r1: string, r2: string)
    requires IsFirstHitResult(keys, index, r1) && IsFirstHitResult(keys, index, r2)
    ensures r1 == r2
  {
    if exists i :: FirstHitAt(keys, index, i) && r1 == index[keys[i]] {
      var i :| FirstHitAt(keys, index, i) && r1 == index[keys[i]];
      FirstHitAtIndex(keys, index, i);
      if exists i' :: FirstHitAt(keys, index, i') && r2 == index[keys[i']] {
        var i' :| FirstHitAt(keys, index, i') && r2 == index[keys[i']];
        FirstHitAtIndex(keys, index, i');
      }
    }
  }

  /** `FirstHit` is the early-return search. */
  lemma {:induction false} FirstHitIsFirst(keys: seq<string>, index: Index)
    ensures IsFirstHitResult(keys, index, FirstHit(keys, index))
  {
    if keys != [] {
      if IsHit(index, keys[0]) {
        assert FirstHitAt(keys, index, 0);
      } else {
        FirstHitIsFirst(keys[1..], index);
        if exists i :: FirstHitAt(keys[1..], index, i) && FirstHit(keys[1..], index) == index[keys[1..][i]] {
          var i :| FirstHitAt(keys[1..], index, i) && FirstHit(keys[1..], index) == index[keys[1..][i]];
          assert FirstHitAt(keys, index, i + 1);
        } else {
          assert forall j :: 0 <= j < |keys| ==> !IsHit(index, keys[j]) by {
            assert forall j :: 1 <= j < |keys| ==> keys[j] == keys[1..][j - 1];
          }
        }
      }
    }
  }

  /** The six keys of an upstream item: it is looked up by display name and
      id only, never by its `name` field. */
  function SearchKeys(item: RawItem): seq<string> {
    LookupKeys(item.displayName, item.itemId)
  }

  /** The rarity `findItemRarity` gives an item; never empty. */
  function Resolve(index: Index, item: RawItem): (r: string)
    ensures r != ""
  {
    FirstHitNonEmpty(SearchKeys(item), index);
    FirstHit(SearchKeys(item), index)
  }

  lemma {:induction false} FirstHitNonEmpty(keys: seq<string>, index: Index)
    ensures FirstHit(keys, index) != ""
  {
    if keys != [] && !IsHit(index, keys[0]) {
      FirstHitNonEmpty(keys[1..], index);
    }
  }

  /** The `for ... of` loop of `findItemRarity`: try the keys in order and
      return on the first hit. */
  method SearchFirstHit(keys: seq<string>, index: Index) returns (rarity: string)
    ensures IsFirstHitResult(keys, index, rarity)
    ensures rarity == FirstHit(keys, index)
  {
    for i := 0 to |keys|
      invariant forall j :: 0 <= j < i ==> !IsHit(index, keys[j])
    {
      if keys[i] in index && index[keys[i]] != "" {
        rarity := index[keys[i]];
        assert FirstHitAt(keys, index, i);
        FirstHitAtIndex(keys, index, i);
        return;
      }
    }
    rarity := "unknown";
    FirstHitNone(keys, index);
  }

  /** `findItemRarity`: search the item's six keys. */
  method FindItemRarity(item: RawItem, index: Index) returns (rarity: string)
    ensures IsFirstHitResult(SearchKeys(item), index, rarity)
    ensures rarity == Resolve(index, item)
  {
    rarity := SearchFirstHit(SearchKeys(item), index);
  }

  /** A display name that is itself a key resolves to that key's value. */
  lemma ResolveByDisplayName(index: Index, item: RawItem)
    requires Truthy(item.displayName) && IsHit(index, item.displayName.value)
    ensures Resolve(index, item) == index[item.displayName.value]
  {
    var keys := SearchKeys(item);
    TruthyOnlyMembership([item.displayName], item.displayName.value);
    assert keys[0] == item.displayName.value;
  }

  /** An item whose keys all miss the index resolves to `'unknown'`. */
  lemma ResolveMiss(index: Index, item: RawItem)
    requires forall k :: k in SearchKeys(item) ==> k !in index
    ensures Resolve(index, item) == "unknown"
  {
    FirstHitNone(SearchKeys(item), index);
  }

  /** Against the index of a catalog, an item sharing its display name with
      catalog item `i`, the last to write that name, gets that item's rarity. */
  lemma ResolveCatalogItem(catalog: seq<CatalogItem>, i: int, item: RawItem)
    requires 0 <= i < |catalog|
    requires Truthy(item.displayName) && item.displayName == catalog[i].displayName
    requires LastToWrite(catalog, i, item.displayName.value)
    ensures Resolve(BuildIndex(catalog), item) == RarityOf(catalog[i])
  {
    BuildIndexLastWriter(catalog, i, item.displayName.value);
    ResolveByDisplayName(BuildIndex(catalog), item);
  }

  /** Against the index of a catalog, a resolved rarity is `'unknown'` or
      the rarity of some catalog item. */
  lemma ResolveFromCatalog(catalog: seq<CatalogItem>, item: RawItem)
    ensures Resolve(BuildIndex(catalog), item) == "unknown" ||
            exists i :: 0 <= i < |catalog| && Resolve(BuildIndex(catalog), item) == RarityOf(catalog[i])
  {
    var index := BuildIndex(catalog);
    var keys := SearchKeys(item);
    FirstHitIsFirst(keys, index);
    if exists j :: FirstHitAt(keys, index, j) && FirstHit(keys, index) == index[keys[j]] {
      var j :| FirstHitAt(keys, index, j) && FirstHit(keys, index) == index[keys[j]];
      BuildIndexValue(catalog, keys[j]);
    }
  }

  /** With an empty catalog every item is `'unknown'`. */
  lemma ResolveEmptyCatalog(item: RawItem)
    ensures Resolve(BuildIndex([]), item) == "unknown"
  {
    FirstHitNone(SearchKeys(item), map[]);
  }

  /** `item.display_name || item.name`; an absent name is the empty string. */
  function DisplayLabel(item: RawItem): string {
    if Truthy(item.displayName) then item.displayName.value else item.name.GetOr("")
  }

  /** `item.quantity || item.stock || 0`: a zero or absent quantity falls
      through to `stock`, and a zero or absent stock to 0. */
  function StockCount(item: RawItem): (n: int)
    ensures n != 0 ==> Some(n) == item.quantity || Some(n) == item.stock
    ensures n == 0 <==> item.quantity.GetOr(0) == 0 && item.stock.GetOr(0) == 0
    ensures item.quantity.Some? && item.quantity.value != 0 ==> n == item.quantity.value
  {
    if item.quantity.Some? && item.quantity.value != 0 then item.quantity.value
    else if item.stock.Some? && item.stock.value != 0 then item.stock.value
    else 0
  }

  function FormatEntry(item: RawItem, index: Index): StockEntry {
    StockEntry(DisplayLabel(item), StockCount(item), Resolve(index, item))
  }

  /** `formatCategory`: a non-array gives `[]`; an array is mapped entry by
      entry, so nothing is dropped, not even an item of unknown rarity. */
  function FormatCategory(category: Option<seq<RawItem>>, index: Index): (r: seq<StockEntry>)
    ensures category.None? ==> r == []
    ensures category.Some? ==> |r| == |category.value|
    ensures category.Some? ==> forall i :: 0 <= i < |r| ==>
      r[i].name == DisplayLabel(category.value[i]) &&
      r[i].stock == StockCount(category.value[i]) &&
      IsFirstHitResult(SearchKeys(category.value[i]), index, r[i].rarity)
    ensures forall i :: 0 <= i < |r| ==> r[i].rarity != ""
  {
    match category
    case None => []
    case Some(items) =>
      forall i | 0 <= i < |items| ensures IsFirstHitResult(SearchKeys(items[i]), index, Resolve(index, items[i])) {
        FirstHitIsFirst(SearchKeys(items[i]), index);
      }
      seq(|items|, i requires 0 <= i < |items| => FormatEntry(items[i], index))
  }

  /** `convertToStockFormat` / `formatStockData`: the five upstream arrays
      become the five categories of the snapshot; `now` is `Date.now()`. */
  function FormatStockData(payload: StockPayload, index: Index, now: int): Snapshot
  {
    Snapshot(now,
      FormatCategory(payload.gearStock, index),
      FormatCategory(payload.seedStock, index),
      FormatCategory(payload.eggStock, index),
      FormatCategory(payload.eventshopStock, index),
      FormatCategory(payload.cosmeticStock, index))
  }

  function Size(category: Option<seq<RawItem>>): nat {
    match category
    case None => 0
    case Some(items) => |items|
  }

  /** Every category of the snapshot has as many entries as its source array. */
  lemma FormatPreservesSizes(payload: StockPayload, index: Index, now: int)
    ensures var s := FormatStockData(payload, index, now);
      && |s.gear| == Size(payload.gearStock)
      && |s.seeds| == Size(payload.seedStock)
      && |s.egg| == Size(payload.eggStock)
      && |s.honey| == Size(payload.eventshopStock)
      && |s.cosmetics| == Size(payload.cosmeticStock)
  {
  }
}
