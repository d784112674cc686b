/** The total and empty-result branch of `RareStockHandler.handleRequest`
    (lib/GetRareStock.js): the whole pipeline from an upstream body to the
    rare-items response. The HTTP fetch is an input: its failures and an
    unparsable body are `Unreadable`. */
module RareStock {
  import opened Wrappers
  import opened Sequences
  import opened Catalog
  import opened Formatter
  import opened RareFilter
  import opened RareSort
  import opened TierBreakdown

  /** The JSON the handler answers with: status 500, or the rare view. */
  datatype RareResponse =
    | Failed
    | Ok(message: string, totalRareItems: nat, tierBreakdown: Option<Breakdown>,
         gear: seq<StockEntry>, seeds: seq<StockEntry>, egg: seq<StockEntry>)

  /** The rare view of a snapshot before sorting. */
  function RareGear(s: Snapshot): seq<StockEntry> { Filter(s.gear, KeepGear) }
  function RareSeeds(s: Snapshot): seq<StockEntry> { Filter(s.seeds, KeepSeed) }
  function RareEgg(s: Snapshot): seq<StockEntry> { Filter(s.egg, KeepEgg) }

  /** What the handler answers for a snapshot: the count of the filtered
      lists; for a zero count three empty lists and no breakdown; otherwise
      each list sorted and a permutation of its filtered list, with the
      breakdown of the filtered lists, whose counters add up to the count. */
  ghost predicate IsRareResponse(snapshot: Snapshot, response: RareResponse) {
    var total := |RareGear(snapshot)| + |RareSeeds(snapshot)| + |RareEgg(snapshot)|;
    && response.Ok?
    && response.totalRareItems == total
    && (total == 0 ==>
          response == Ok("No rare items currently in stock", 0, None, [], [], []))
    && (total > 0 ==>
          && response.message == "Rare items currently in stock"
          && response.tierBreakdown == Some(Tally(RareGear(snapshot) + RareSeeds(snapshot) + RareEgg(snapshot)))
          && SumValues(response.tierBreakdown.value) == total
          && SortedByRarity(response.gear) && multiset(response.gear) == multiset(RareGear(snapshot))
          && SortedByRarity(response.seeds) && multiset(response.seeds) == multiset(RareSeeds(snapshot))
          && SortedByRarity(response.egg) && multiset(response.egg) == multiset(RareEgg(snapshot)))
  }

  /** The part of `handleRequest` after formatting: filter, count, and when
      the count is not zero, sort and tally. */
  method RespondWith(stockData: Snapshot, now: int) returns (response: RareResponse)
    ensures IsRareResponse(stockData, response)
  {
    var rare := FilterRareItems(stockData, now);
    var total := |rare.gear| + |rare.seeds| + |rare.egg|;
    if total == 0 {
      response := Ok("No rare items currently in stock", 0, None, [], [], []);
      return;
    }
    var sorted := SortItemsByRarity(rare);
    var breakdown := CalculateTierBreakdown(sorted);
    SameBreakdown(sorted, rare);
    response := Ok("Rare items currently in stock", total, Some(breakdown), sorted.gear, sorted.seeds, sorted.egg);
  }

  /** Sorting each list keeps the count and the breakdown of the three. */
  lemma SameBreakdown(sorted: RareStock, rare: RareStock)
    requires multiset(sorted.gear) == multiset(rare.gear)
    requires multiset(sorted.seeds) == multiset(rare.seeds)
    requires multiset(sorted.egg) == multiset(rare.egg)
    ensures |sorted.gear| + |sorted.seeds| + |sorted.egg| == |rare.gear| + |rare.seeds| + |rare.egg|
    ensures Tally(sorted.gear + sorted.seeds + sorted.egg) == Tally(rare.gear + rare.seeds + rare.egg)
  {
    assert |sorted.gear| == |multiset(sorted.gear)| == |rare.gear|;
    assert |sorted.seeds| == |multiset(sorted.seeds)| == |rare.seeds|;
    assert |sorted.egg| == |multiset(sorted.egg)| == |rare.egg|;
    assert multiset(sorted.gear + sorted.seeds + sorted.egg) == multiset(rare.gear + rare.seeds + rare.egg);
    TallyPermutation(sorted.gear + sorted.seeds + sorted.egg, rare.gear + rare.seeds + rare.egg);
  }

  /** `handleRequest` from the fetched body on; `now` is `Date.now()`. */
  method HandleRequest(upstream: Received, catalog: seq<CatalogItem>, now: int) returns (response: RareResponse)
    ensures response.Ok? <==> upstream.Json?
    ensures upstream.Json? ==>
      IsRareResponse(FormatStockData(upstream.payload, BuildIndex(catalog), now), response)
  {
    match upstream {
      case Unreadable =>
        response := Failed;
      case NullJson =>
        // reading `null.gear_stock` throws; the catch answers 500
        response := Failed;
      case Json(payload) =>
        var lookup := CreateItemLookup(catalog);
        var stockData := FormatStockData(payload, lookup, now);
        response := RespondWith(stockData, now);
    }
  }
}
