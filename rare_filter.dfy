/** The rare-item policy of `RareItemsFilter` (lib/GetRareStock.js): the
    rarity priorities, the three per-category tests and `filterRareItems`. */
module RareFilter {
  import opened JsStrings
  import opened Sequences
  import opened Formatter

  /** The `priorities` table of `getRarityPriority`. */
  const Priorities: map<string, nat> := map[
    "prismatic" := 6, "divine" := 5, "mythical" := 4, "mythic" := 4,
    "legendary" := 3, "rare" := 2, "uncommon" := 1, "common" := 0]

  /** `getRarityPriority`: the table entry of the lower-cased rarity, 0 when
      it is not listed. */
  function RarityPriority(rarity: string): (p: nat)
    ensures p <= 6
    ensures ToLower(rarity) !in Priorities ==> p == 0
  {
    var key := ToLower(rarity);
    if key in Priorities then Priorities[key] else 0
  }

  /** The order of the tiers. */
  lemma PriorityOrder()
    ensures RarityPriority("prismatic") > RarityPriority("divine") > RarityPriority("mythical")
    ensures RarityPriority("mythical") == RarityPriority("mythic")
    ensures RarityPriority("mythic") > RarityPriority("legendary") > RarityPriority("rare")
    ensures RarityPriority("rare") > RarityPriority("uncommon") > RarityPriority("common") == 0
  {
    assert ToLower("prismatic") == "prismatic";
    assert ToLower("divine") == "divine";
    assert ToLower("mythical") == "mythical";
    assert ToLower("mythic") == "mythic";
    assert ToLower("legendary") == "legendary";
    assert ToLower("rare") == "rare";
    assert ToLower("uncommon") == "uncommon";
    assert ToLower("common") == "common";
  }

  /** The priority does not depend on letter case. */
  lemma PriorityIgnoresCase(rarity: string)
    ensures RarityPriority(ToLower(rarity)) == RarityPriority(rarity)
  {
    ToLowerIdempotent(rarity);
  }

  /** `mythic` and `mythical` rank together, in any letter case. */
  lemma MythicIsMythical(rarity: string)
    requires ToLower(rarity) == "mythic" || ToLower(rarity) == "mythical"
    ensures RarityPriority(rarity) == 4
  {
  }

  /** The rarities `isRareRarity` accepts. */
  const RareRarities: seq<string> := ["legendary", "mythical", "mythic", "divine", "prismatic"]

  /** `isRareRarity`. */
  predicate IsRareRarity(rarity: string) {
    ToLower(rarity) in RareRarities
  }

  /** The rare rarities are exactly those ranked legendary or above. */
  lemma RareIffHighPriority(rarity: string)
    ensures IsRareRarity(rarity) <==> RarityPriority(rarity) >= 3
  {
  }

  /** `isSprinkler`: the name contains "sprinkler" in any letter case. */
  predicate IsSprinkler(name: string) {
    Contains(ToLower(name), "sprinkler")
  }

  /** The egg names `isAllowedEgg` accepts, compared case-sensitively. */
  const AllowedEggs: seq<string> := ["Legendary Egg", "Mythical Egg", "Bug Egg", "Paradise Egg", "Bee Egg"]

  predicate IsAllowedEgg(name: string) {
    name in AllowedEggs
  }

  /** The three tests of `filterRareItems`, each with `parseInt(stock) > 0`.
      Gear is tested on its name only, whatever its rarity. */
  predicate KeepSeed(e: StockEntry) {
    IsRareRarity(e.rarity) && e.stock > 0
  }

  predicate KeepGear(e: StockEntry) {
    IsSprinkler(e.name) && e.stock > 0
  }

  predicate KeepEgg(e: StockEntry) {
    IsAllowedEgg(e.name) && e.stock > 0
  }

  /** The object `filterRareItems` returns; honey and cosmetics are dropped. */
  datatype RareStock = RareStock(updatedAt: int, gear: seq<StockEntry>, seeds: seq<StockEntry>, egg: seq<StockEntry>)

  /** One `forEach` of `filterRareItems`: push every entry that passes `keep`. */
  method KeepWhere(items: seq<StockEntry>, keep: StockEntry -> bool) returns (kept: seq<StockEntry>)
    ensures kept == Filter(items, keep)
  {
    kept := [];
    for i := 0 to |items|
      invariant kept == Filter(items[..i], keep)
    {
      if keep(items[i]) {
        kept := kept + [items[i]];
      }
      assert items[..i + 1][..i] == items[..i];
    }
    assert items[..|items|] == items;
  }

  /** `filterRareItems`; `now` is `Date.now()`, used when the snapshot's time is 0. */
  method FilterRareItems(snapshot: Snapshot, now: int) returns (rare: RareStock)
    ensures rare.updatedAt == if snapshot.updatedAt != 0 then snapshot.updatedAt else now
    ensures rare.seeds == Filter(snapshot.seeds, KeepSeed)
    ensures rare.gear == Filter(snapshot.gear, KeepGear)
    ensures rare.egg == Filter(snapshot.egg, KeepEgg)
  {
    var seeds := KeepWhere(snapshot.seeds, KeepSeed);
    var gear := KeepWhere(snapshot.gear, KeepGear);
    var egg := KeepWhere(snapshot.egg, KeepEgg);
    rare := RareStock(if snapshot.updatedAt != 0 then snapshot.updatedAt else now, gear, seeds, egg);
  }

  /** Each rare list is an order-preserving subsequence of its category,
      holding exactly the entries that pass its test, so it is never longer. */
  lemma RareListsAreFilters(snapshot: Snapshot, e: StockEntry)
    ensures IsSubsequence(Filter(snapshot.gear, KeepGear), snapshot.gear)
    ensures IsSubsequence(Filter(snapshot.seeds, KeepSeed), snapshot.seeds)
    ensures IsSubsequence(Filter(snapshot.egg, KeepEgg), snapshot.egg)
    ensures e in Filter(snapshot.gear, KeepGear) <==> e in snapshot.gear && IsSprinkler(e.name) && e.stock > 0
    ensures e in Filter(snapshot.seeds, KeepSeed) <==> e in snapshot.seeds && IsRareRarity(e.rarity) && e.stock > 0
    ensures e in Filter(snapshot.egg, KeepEgg) <==> e in snapshot.egg && IsAllowedEgg(e.name) && e.stock > 0
    ensures |Filter(snapshot.gear, KeepGear)| <= |snapshot.gear|
    ensures |Filter(snapshot.seeds, KeepSeed)| <= |snapshot.seeds|
    ensures |Filter(snapshot.egg, KeepEgg)| <= |snapshot.egg|
  {
    FilterIsSubsequence(snapshot.gear, KeepGear);
    FilterIsSubsequence(snapshot.seeds, KeepSeed);
    FilterIsSubsequence(snapshot.egg, KeepEgg);
    FilterMembership(snapshot.gear, KeepGear, e);
    FilterMembership(snapshot.seeds, KeepSeed, e);
    FilterMembership(snapshot.egg, KeepEgg, e);
  }
}
