/** `RareItemsFilter.sortItemsByRarity` (lib/GetRareStock.js): each rare
    list is sorted by descending rarity priority, then by ascending name. */
module RareSort {
  import opened JsStrings
  import opened Formatter
  import opened RareFilter

  /** The comparator given to `Array.prototype.sort`: positive when `a`
      belongs after `b`. */
  function Compare(a: StockEntry, b: StockEntry): int {
    var pa := RarityPriority(a.rarity);
    var pb := RarityPriority(b.rarity);
    if pa != pb then pb - pa else LexCompare(a.name, b.name)
  }

  /** `a` may stand before `b` in the sorted list. */
  predicate InOrder(a: StockEntry, b: StockEntry) {
    Compare(a, b) <= 0
  }

  /** The order is: higher priority first, and by name among equal priorities. */
  lemma InOrderMeaning(a: StockEntry, b: StockEntry)
    ensures InOrder(a, b) <==>
      RarityPriority(a.rarity) > RarityPriority(b.rarity) ||
      (RarityPriority(a.rarity) == RarityPriority(b.rarity) && LexCompare(a.name, b.name) <= 0)
  {
  }

  /** Any two entries are comparable. */
  lemma InOrderTotal(a: StockEntry, b: StockEntry)
    ensures InOrder(a, b) || InOrder(b, a)
  {
    LexCompareAntisymmetric(a.name, b.name);
  }

  lemma InOrderTransitive(a: StockEntry, b: StockEntry, c: StockEntry)
    requires InOrder(a, b) && InOrder(b, c)
    ensures InOrder(a, c)
  {
    if RarityPriority(a.rarity) == RarityPriority(b.rarity) == RarityPriority(c.rarity) {
      LexCompareTransitive(a.name, b.name, c.name);
    }
  }

  /** Entries that tie both ways have the same priority and the same name. */
  lemma InOrderTie(a: StockEntry, b: StockEntry)
    requires InOrder(a, b) && InOrder(b, a)
    ensures RarityPriority(a.rarity) == RarityPriority(b.rarity) && a.name == b.name
  {
    LexCompareAntisymmetric(a.name, b.name);
    LexCompareZeroIffEqual(a.name, b.name);
  }

  predicate SortedByRarity(s: seq<StockEntry>) {
    forall i, j :: 0 <= i < j < |s| ==> InOrder(s[i], s[j])
  }

  predicate AdjacentInOrder(s: seq<StockEntry>) {
    forall k :: 0 < k < |s| ==> InOrder(s[k - 1], s[k])
  }

  lemma {:induction false} ChainInOrder(s: seq<StockEntry>, i: int, j: int)
    requires AdjacentInOrder(s) && 0 <= i < j < |s|
    ensures InOrder(s[i], s[j])
    decreases j - i
  {
    if i + 1 < j {
      ChainInOrder(s, i + 1, j);
      InOrderTransitive(s[i], s[i + 1], s[j]);
    }
  }

  /** Neighbours in order means the whole list is in order. */
  lemma AdjacentToSorted(s: seq<StockEntry>)
    requires AdjacentInOrder(s)
    ensures SortedByRarity(s)
  {
    forall i, j | 0 <= i < j < |s| ensures InOrder(s[i], s[j]) {
      ChainInOrder(s, i, j);
    }
  }

  method Swap<T>(a: array<T>, i: int, j: int)
    requires 0 <= i < a.Length && 0 <= j < a.Length
    modifies a
    ensures a[i] == old(a[j]) && a[j] == old(a[i])
    ensures forall k :: 0 <= k < a.Length && k != i && k != j ==> a[k] == old(a[k])
    ensures multiset(a[..]) == multiset(old(a[..]))
  {
    a[i], a[j] := a[j], a[i];
  }

  /** Neighbouring elements are in order under `cmp`. */
  ghost predicate NeighboursInOrder<T>(s: seq<T>, cmp: (T, T) -> int, n: int) {
    forall k :: 0 < k < n && k < |s| ==> cmp(s[k - 1], s[k]) <= 0
  }

  /** One step of insertion sort: move `a[i]` left past every neighbour
      that belongs after it, keeping `a[..i]` in order. */
  method InsertAt<T(!new)>(a: array<T>, i: int, cmp: (T, T) -> int)
    requires forall x, y :: cmp(x, y) <= 0 || cmp(y, x) <= 0
    requires 0 <= i < a.Length
    requires NeighboursInOrder(a[..], cmp, i)
    modifies a
    ensures NeighboursInOrder(a[..], cmp, i + 1)
    ensures multiset(a[..]) == multiset(old(a[..]))
    ensures i > 0 && cmp(old(a[i - 1]), old(a[i])) <= 0 ==> a[..] == old(a[..])
    ensures i == 0 ==> a[..] == old(a[..])
  {
    if i == 0 || cmp(a[i - 1], a[i]) <= 0 {
      return;
    }
    var j := i;
    while j > 0 && cmp(a[j - 1], a[j]) > 0
      invariant 0 <= j <= i
      invariant forall k :: 0 < k <= i && k != j ==> cmp(a[k - 1], a[k]) <= 0
      invariant 0 < j < i ==> cmp(a[j - 1], a[j + 1]) <= 0
      invariant multiset(a[..]) == multiset(old(a[..]))
    {
      Swap(a, j - 1, j);
      j := j - 1;
    }
  }

  /** A stable insertion sort under a comparator that ranks any two elements
      one way or the other: neighbours end up in order, the contents are a
      permutation of what they were, and an array whose neighbours are
      already in order is left as it is. */
  method InsertionSortBy<T(!new)>(a: array<T>, cmp: (T, T) -> int)
    requires forall x, y :: cmp(x, y) <= 0 || cmp(y, x) <= 0
    modifies a
    ensures NeighboursInOrder(a[..], cmp, a.Length)
    ensures multiset(a[..]) == multiset(old(a[..]))
    ensures NeighboursInOrder(old(a[..]), cmp, a.Length) ==> a[..] == old(a[..])
  {
    var i := 0;
    while i < a.Length
      invariant 0 <= i <= a.Length
      invariant NeighboursInOrder(a[..], cmp, i)
      invariant multiset(a[..]) == multiset(old(a[..]))
      invariant NeighboursInOrder(old(a[..]), cmp, a.Length) ==> a[..] == old(a[..])
    {
      InsertAt(a, i, cmp);
      i := i + 1;
    }
  }

  /** Sorting one list in place with the source's comparator: afterwards it
      is ordered and a permutation of what it was; a list already in order is
      left as it is. */
  method SortCategory(a: array<StockEntry>)
    modifies a
    ensures SortedByRarity(a[..])
    ensures multiset(a[..]) == multiset(old(a[..]))
    ensures SortedByRarity(old(a[..])) ==> a[..] == old(a[..])
  {
    forall x, y ensures Compare(x, y) <= 0 || Compare(y, x) <= 0 {
      InOrderTotal(x, y);
    }
    InsertionSortBy(a, Compare);
    AdjacentToSorted(a[..]);
  }

  /** Sorting a list through a fresh array. */
  method SortedCopy(s: seq<StockEntry>) returns (r: seq<StockEntry>)
    ensures SortedByRarity(r)
    ensures multiset(r) == multiset(s)
    ensures |r| == |s|
    ensures SortedByRarity(s) ==> r == s
  {
    var a := new StockEntry[|s|](i requires 0 <= i < |s| => s[i]);
    assert a[..] == s;
    SortCategory(a);
    r := a[..];
    assert |r| == |multiset(r)| == |multiset(s)| == |s|;
  }

  /** `sortItemsByRarity`: gear, seeds and egg each sorted, each a
      permutation of itself. */
  method SortItemsByRarity(rare: RareStock) returns (sorted: RareStock)
    ensures sorted.updatedAt == rare.updatedAt
    ensures SortedByRarity(sorted.gear) && multiset(sorted.gear) == multiset(rare.gear)
    ensures SortedByRarity(sorted.seeds) && multiset(sorted.seeds) == multiset(rare.seeds)
    ensures SortedByRarity(sorted.egg) && multiset(sorted.egg) == multiset(rare.egg)
    ensures SortedByRarity(rare.gear) && SortedByRarity(rare.seeds) && SortedByRarity(rare.egg) ==> sorted == rare
  {
    var gear := SortedCopy(rare.gear);
    var seeds := SortedCopy(rare.seeds);
    var egg := SortedCopy(rare.egg);
    sorted := RareStock(rare.updatedAt, gear, seeds, egg);
  }
}
