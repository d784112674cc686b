/** `RareItemsFilter.calculateTierBreakdown` (lib/GetRareStock.js): how many
    rare entries there are of each rarity. */
module TierBreakdown {
  import opened Formatter
  import opened RareFilter

  /** rarity -> number of entries with that rarity. */
  type Breakdown = map<string, nat>

  /** `tierBreakdown[r] = (tierBreakdown[r] || 0) + 1`. */
  function Bump(m: Breakdown, r: string): Breakdown {
    m[r := (if r in m then m[r] else 0) + 1]
  }

  /** Bumping the counters for the entries of `s`, in order, starting from `m`. */
  function TallyOnto(m: Breakdown, s: seq<StockEntry>): Breakdown {
    if s == [] then m else Bump(TallyOnto(m, s[..|s| - 1]), s[|s| - 1].rarity)
  }

  /** The breakdown of a list, counted from nothing. */
  function Tally(s: seq<StockEntry>): Breakdown {
    TallyOnto(map[], s)
  }

  /** The number of entries of `s` whose rarity is `r`, as a reference count. */
  function CountRarity(s: seq<StockEntry>, r: string): nat {
    if s == [] then 0
    else CountRarity(s[..|s| - 1], r) + (if s[|s| - 1].rarity == r then 1 else 0)
  }

  lemma {:induction false} CountRarityConcat(a: seq<StockEntry>, b: seq<StockEntry>, r: string)
    ensures CountRarity(a + b, r) == CountRarity(a, r) + CountRarity(b, r)
    decreases |b|
  {
    if b == [] {
      assert a + b == a;
    } else {
      var n := |b| - 1;
      assert (a + b)[..|a + b| - 1] == a + b[..n];
      CountRarityConcat(a, b[..n], r);
    }
  }

  /** The count of a rarity depends only on the multiset of entries. */
  lemma {:induction false} CountRarityPermutation(a: seq<StockEntry>, b: seq<StockEntry>, r: string)
    requires multiset(a) == multiset(b)
    ensures CountRarity(a, r) == CountRarity(b, r)
    decreases |a|
  {
    if a == [] {
      assert |b| == |multiset(b)| == 0;
    } else {
      var n := |a| - 1;
      var e := a[n];
      assert a == a[..n] + [e];
      assert e in multiset(b);
      var i :| 0 <= i < |b| && b[i] == e;
      var rest := b[..i] + b[i + 1..];
      assert b == b[..i] + [e] + b[i + 1..];
      assert multiset(b) == multiset(b[..i]) + multiset{e} + multiset(b[i + 1..]);
      assert multiset(rest) == multiset(b[..i]) + multiset(b[i + 1..]);
      assert multiset(a) == multiset(a[..n]) + multiset{e};
      assert multiset(a[..n]) == multiset(a) - multiset{e};
      assert multiset(rest) == multiset(b) - multiset{e};
      CountRarityPermutation(a[..n], rest, r);
      CountRarityConcat(b[..i] + [e], b[i + 1..], r);
      CountRarityConcat(b[..i], [e], r);
      CountRarityConcat(b[..i], b[i + 1..], r);
      assert CountRarity([e], r) == (if e.rarity == r then 1 else 0) by {
        assert [e][..0] == [];
      }
    }
  }

  /** After tallying `s` onto `m`, a rarity's counter is its old counter
      (0 when absent) plus its number of entries in `s`. */
  lemma {:induction false} TallyOntoCounts(m: Breakdown, s: seq<StockEntry>, r: string)
    ensures r in TallyOnto(m, s) <==> r in m || CountRarity(s, r) > 0
    ensures r in TallyOnto(m, s) ==> TallyOnto(m, s)[r] == (if r in m then m[r] else 0) + CountRarity(s, r)
  {
    if s != [] {
      TallyOntoCounts(m, s[..|s| - 1], r);
    }
  }

  /** Every rarity seen in `s` is a key, and its count is its number of entries. */
  lemma TallyCounts(s: seq<StockEntry>, r: string)
    ensures r in Tally(s) <==> CountRarity(s, r) > 0
    ensures r in Tally(s) ==> Tally(s)[r] == CountRarity(s, r)
  {
    TallyOntoCounts(map[], s, r);
  }

  /** The breakdown does not depend on the order of the entries, so it is
      the same before and after sorting. */
  lemma TallyPermutation(a: seq<StockEntry>, b: seq<StockEntry>)
    requires multiset(a) == multiset(b)
    ensures Tally(a) == Tally(b)
  {
    forall r ensures (r in Tally(a) <==> r in Tally(b)) && (r in Tally(a) ==> Tally(a)[r] == Tally(b)[r]) {
      TallyCounts(a, r);
      TallyCounts(b, r);
      CountRarityPermutation(a, b, r);
    }
    assert Tally(a).Keys == Tally(b).Keys;
  }

  lemma {:induction false} TallyOntoConcat(m: Breakdown, a: seq<StockEntry>, b: seq<StockEntry>)
    ensures TallyOnto(m, a + b) == TallyOnto(TallyOnto(m, a), b)
    decreases |b|
  {
    if b == [] {
      assert a + b == a;
    } else {
      var n := |b| - 1;
      assert (a + b)[..|a + b| - 1] == a + b[..n];
      TallyOntoConcat(m, a, b[..n]);
    }
  }

  /** The sum of all counters of a breakdown. */
  ghost function SumValues(m: Breakdown): nat
    decreases |m|
  {
    if m == map[] then 0
    else
      assert exists k :: k in m by {
        assert m.Keys != {};
        var k :| k in m.Keys;
      }
      var k :| k in m;
      assert |(m - {k}).Keys| < |m.Keys| by {
        assert (m - {k}).Keys == m.Keys - {k};
      }
      m[k] + SumValues(m - {k})
  }

  /** The sum does not depend on which key is taken out first. */
  lemma {:induction false} SumValuesRemove(m: Breakdown, k: string)
    requires k in m
    ensures SumValues(m) == m[k] + SumValues(m - {k})
    decreases |m|
  {
    assert m != map[];
    var k' :| k' in m && SumValues(m) == m[k'] + SumValues(m - {k'});
    if k' != k {
      assert (m - {k}).Keys == m.Keys - {k};
      assert (m - {k'}).Keys == m.Keys - {k'};
      SumValuesRemove(m - {k'}, k);
      SumValuesRemove(m - {k}, k');
      assert m - {k'} - {k} == m - {k} - {k'};
    }
  }

  lemma SumBump(m: Breakdown, r: string)
    ensures SumValues(Bump(m, r)) == SumValues(m) + 1
  {
    var m' := Bump(m, r);
    SumValuesRemove(m', r);
    assert m' - {r} == m - {r};
    if r in m {
      SumValuesRemove(m, r);
    } else {
      assert m - {r} == m;
    }
  }

  /** The counters add up to the number of entries tallied. */
  lemma {:induction false} TallyOntoSum(m: Breakdown, s: seq<StockEntry>)
    ensures SumValues(TallyOnto(m, s)) == SumValues(m) + |s|
  {
    if s != [] {
      TallyOntoSum(m, s[..|s| - 1]);
      SumBump(TallyOnto(m, s[..|s| - 1]), s[|s| - 1].rarity);
    }
  }

  lemma TallySum(s: seq<StockEntry>)
    ensures SumValues(Tally(s)) == |s|
  {
    TallyOntoSum(map[], s);
  }

  /** The inner `forEach`: bump the counter of each entry, in order. */
  method TallyInto(m: Breakdown, items: seq<StockEntry>) returns (counts: Breakdown)
    ensures counts == TallyOnto(m, items)
  {
    counts := m;
    for i := 0 to |items|
      invariant counts == TallyOnto(m, items[..i])
    {
      var r := items[i].rarity;
      counts := counts[r := (if r in counts then counts[r] else 0) + 1];
      assert items[..i + 1][..i] == items[..i];
    }
    assert items[..|items|] == items;
  }

  /** `calculateTierBreakdown`: gear, then seeds, then egg. */
  method CalculateTierBreakdown(rare: RareStock) returns (breakdown: Breakdown)
    ensures breakdown == Tally(rare.gear + rare.seeds + rare.egg)
    ensures SumValues(breakdown) == |rare.gear| + |rare.seeds| + |rare.egg|
    ensures forall r :: r in breakdown <==> CountRarity(rare.gear + rare.seeds + rare.egg, r) > 0
    ensures forall r :: r in breakdown ==> breakdown[r] == CountRarity(rare.gear + rare.seeds + rare.egg, r)
  {
    breakdown := TallyInto(map[], rare.gear);
    breakdown := TallyInto(breakdown, rare.seeds);
    breakdown := TallyInto(breakdown, rare.egg);
    TallyOntoConcat(map[], rare.gear, rare.seeds);
    TallyOntoConcat(map[], rare.gear + rare.seeds, rare.egg);
    var all := rare.gear + rare.seeds + rare.egg;
    TallySum(all);
    forall r ensures (r in breakdown <==> CountRarity(all, r) > 0) && (r in breakdown ==> breakdown[r] == CountRarity(all, r)) {
      TallyCounts(all, r);
    }
  }
}
