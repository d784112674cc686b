/** Worked examples of the pipeline on concrete data. */
module Scenarios {
  import opened Wrappers
  import opened JsStrings
  import opened Sequences
  import opened Catalog
  import opened Formatter
  import opened RareFilter
  import opened RareSort
  import opened TierBreakdown
  import opened RareStock

  const GoldenCatalog: seq<CatalogItem> := [CatalogItem(Some("Golden Sprinkler"), None, Some("Legendary"))]
  const GoldenItem: RawItem := RawItem(Some("Golden Sprinkler"), None, None, Some(3), None)
  const GoldenEntry: StockEntry := StockEntry("Golden Sprinkler", 3, "legendary")

  lemma GoldenSprinklerResolves()
    ensures Resolve(BuildIndex(GoldenCatalog), GoldenItem) == "legendary"
  {
    TruthyOnlyMembership([Some("Golden Sprinkler")], "Golden Sprinkler");
    assert "Golden Sprinkler" in KeysOf(GoldenCatalog[0]);
    assert LastToWrite(GoldenCatalog, 0, "Golden Sprinkler");
    ResolveCatalogItem(GoldenCatalog, 0, GoldenItem);
    assert ToLower("Legendary") == "legendary";
  }

  lemma GoldenSprinklerIsSprinkler()
    ensures IsSprinkler("Golden Sprinkler")
  {
    assert ToLower("Golden Sprinkler") == "golden sprinkler";
    assert OccursAt("golden sprinkler", "sprinkler", 7);
    ContainsIffOccurs("golden sprinkler", "sprinkler");
  }

  const GoldenPayload: StockPayload := StockPayload(Some([GoldenItem]), None, None, None, None)

  function GoldenSnapshot(now: int): Snapshot {
    FormatStockData(GoldenPayload, BuildIndex(GoldenCatalog), now)
  }

  lemma GoldenSnapshotRareView(now: int)
    ensures GoldenSnapshot(now).gear == [GoldenEntry]
    ensures RareGear(GoldenSnapshot(now)) + RareSeeds(GoldenSnapshot(now)) + RareEgg(GoldenSnapshot(now)) == [GoldenEntry]
    ensures RareGear(GoldenSnapshot(now)) == [GoldenEntry]
  {
    GoldenSprinklerResolves();
    GoldenSprinklerIsSprinkler();
    var snapshot := GoldenSnapshot(now);
    assert snapshot.gear == [GoldenEntry];
    assert KeepGear(GoldenEntry);
    assert snapshot.gear[..0] == [];
  }

  lemma SingletonFromMultiset(s: seq<StockEntry>, e: StockEntry)
    requires multiset(s) == multiset([e])
    ensures s == [e]
  {
    assert |s| == |multiset(s)| == 1;
    assert s[0] in multiset([e]);
  }

  lemma EmptyFromMultiset(s: seq<StockEntry>)
    requires multiset(s) == multiset{}
    ensures s == []
  {
    assert |s| == |multiset(s)| == 0;
  }

  /** A catalog with one legendary sprinkler and a feed offering three of
      them: the snapshot entry is tagged "legendary", the rare gear list
      keeps it and the breakdown is {legendary: 1}. */
  method GoldenSprinklerScenario(now: int) returns (response: RareResponse)
    ensures response == Ok("Rare items currently in stock", 1, Some(map["legendary" := 1]), [GoldenEntry], [], [])
  {
    GoldenSnapshotRareView(now);
    assert Tally([GoldenEntry]) == map["legendary" := 1] by {
      assert [GoldenEntry][..0] == [];
      assert TallyOnto(map[], [GoldenEntry]) == Bump(TallyOnto(map[], []), GoldenEntry.rarity);
      assert Bump(map[], "legendary") == map["legendary" := 1];
    }
    response := HandleRequest(Json(GoldenPayload), GoldenCatalog, now);
    assert IsRareResponse(GoldenSnapshot(now), response);
    SingletonFromMultiset(response.gear, GoldenEntry);
    EmptyFromMultiset(response.seeds);
    EmptyFromMultiset(response.egg);
  }

  const CarrotCatalog: seq<CatalogItem> := [CatalogItem(Some("Carrot Seed"), None, Some("Common"))]
  const CarrotItem: RawItem := RawItem(Some("Carrot Seed"), None, None, Some(5), None)

  lemma CarrotSeedResolves()
    ensures Resolve(BuildIndex(CarrotCatalog), CarrotItem) == "common"
  {
    TruthyOnlyMembership([Some("Carrot Seed")], "Carrot Seed");
    assert "Carrot Seed" in KeysOf(CarrotCatalog[0]);
    assert LastToWrite(CarrotCatalog, 0, "Carrot Seed");
    ResolveCatalogItem(CarrotCatalog, 0, CarrotItem);
    assert ToLower("Common") == "common";
  }

  /** A common seed is not rare, whatever its stock. */
  lemma CarrotSeedExcluded(now: int)
    ensures var payload := StockPayload(None, Some([CarrotItem]), None, None, None);
      var snapshot := FormatStockData(payload, BuildIndex(CarrotCatalog), now);
      snapshot.seeds == [StockEntry("Carrot Seed", 5, "common")] && RareSeeds(snapshot) == []
  {
    CarrotSeedResolves();
    var e := StockEntry("Carrot Seed", 5, "common");
    assert !KeepSeed(e) by {
      assert ToLower("common") == "common";
    }
    assert [e][..0] == [];
  }
}
