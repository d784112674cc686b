/** The item catalog and the lookup index built from it (`DatabaseService`
    in lib/GetRareStock.js and, identically, in lib/GetStock.js). The catalog
    is taken as an input sequence: a missing or unreadable database file is
    the empty catalog. */
module Catalog {
  import opened Wrappers
  import opened JsStrings
  import opened Sequences

  /** One entry of the catalog; every field may be absent. */
  datatype CatalogItem = CatalogItem(displayName: Option<string>, itemId: Option<string>, rarity: Option<string>)

  /** The lookup index: key string -> lower-cased rarity. */
  type Index = map<string, string>

  /** A string-or-undefined value is truthy when present and non-empty. */
  predicate Truthy(o: Option<string>) {
    o.Some? && o.value != ""
  }

  /** The characters that survive `replace(/[^a-z0-9]/g, '')`. */
  predicate IsKeyChar(c: char) {
    'a' <= c <= 'z' || '0' <= c <= '9'
  }

  /** `normalizeItemName`: lower-case, then drop everything outside [a-z0-9];
      the empty string for an absent or empty name. */
  function NormalizeItemName(name: Option<string>): (r: string)
    ensures forall i :: 0 <= i < |r| ==> IsKeyChar(r[i])
    ensures !Truthy(name) ==> r == ""
    ensures Truthy(name) ==> |r| <= |name.value|
  {
    if Truthy(name) then Filter(ToLower(name.value), IsKeyChar) else ""
  }

  /** What the normalizer keeps: the [a-z0-9] characters of the lower-cased
      name, in order, every occurrence of each. */
  lemma NormalizeKeepsKeyChars(name: string)
    requires name != ""
    ensures IsSubsequence(NormalizeItemName(Some(name)), ToLower(name))
    ensures forall c :: IsKeyChar(c) ==>
      multiset(NormalizeItemName(Some(name)))[c] == multiset(ToLower(name))[c]
  {
    var t := ToLower(name);
    FilterIsSubsequence(t, IsKeyChar);
    forall c | IsKeyChar(c)
      ensures multiset(NormalizeItemName(Some(name)))[c] == multiset(t)[c]
    {
      FilterMultiset(t, IsKeyChar, c);
    }
  }

  /** A non-empty name made only of [a-z0-9] normalizes to itself. */
  lemma NormalizeKeyName(s: string)
    requires s != "" && forall i :: 0 <= i < |s| ==> IsKeyChar(s[i])
    ensures NormalizeItemName(Some(s)) == s
  {
    ToLowerOfNoUpper(s);
    FilterAllKept(s, IsKeyChar);
  }

  /** Normalizing does not depend on letter case. */
  lemma NormalizeIgnoresCase(s: string)
    ensures NormalizeItemName(Some(ToLower(s))) == NormalizeItemName(Some(s))
  {
    ToLowerIdempotent(s);
  }

  /** Normalizing an already normalized name changes nothing. */
  lemma NormalizeIdempotent(name: Option<string>)
    ensures NormalizeItemName(Some(NormalizeItemName(name))) == NormalizeItemName(name)
  {
    var r := NormalizeItemName(name);
    if r != "" {
      ToLowerOfNoUpper(r);
      FilterAllKept(r, IsKeyChar);
    }
  }

  /** `x?.toLowerCase()`. */
  function LowerOpt(o: Option<string>): (r: Option<string>)
    ensures r.Some? <==> o.Some?
    ensures Truthy(r) <==> Truthy(o)
  {
    match o
    case None => None
    case Some(s) => Some(ToLower(s))
  }

  /** `[...].filter(Boolean)` on a list of strings-or-undefined. */
  function TruthyOnly(s: seq<Option<string>>): (r: seq<string>)
    ensures forall i :: 0 <= i < |r| ==> r[i] != ""
  {
    if s == [] then []
    else if Truthy(s[0]) then [s[0].value] + TruthyOnly(s[1..])
    else TruthyOnly(s[1..])
  }

  lemma {:induction false} TruthyOnlyMembership(s: seq<Option<string>>, k: string)
    ensures k in TruthyOnly(s) <==> k != "" && Some(k) in s
  {
    if s != [] {
      TruthyOnlyMembership(s[1..], k);
    }
  }

  /** The six lookup keys of a name/id pair, in the order the source lists
      them (name, lower-cased name, id, lower-cased id, normalized name,
      normalized id), without the falsy ones. */
  function LookupKeys(displayName: Option<string>, itemId: Option<string>): seq<string>
  {
    TruthyOnly([displayName, LowerOpt(displayName), itemId, LowerOpt(itemId),
                Some(NormalizeItemName(displayName)), Some(NormalizeItemName(itemId))])
  }

  /** A string is a lookup key of a name/id pair exactly when it is non-empty
      and one of the six variants. */
  lemma LookupKeysMembership(displayName: Option<string>, itemId: Option<string>, k: string)
    ensures k in LookupKeys(displayName, itemId) <==>
      k != "" &&
      (Some(k) == displayName || Some(k) == LowerOpt(displayName) ||
       Some(k) == itemId || Some(k) == LowerOpt(itemId) ||
       k == NormalizeItemName(displayName) || k == NormalizeItemName(itemId))
  {
    TruthyOnlyMembership([displayName, LowerOpt(displayName), itemId, LowerOpt(itemId),
                          Some(NormalizeItemName(displayName)), Some(NormalizeItemName(itemId))], k);
  }

  function KeysOf(item: CatalogItem): seq<string> {
    LookupKeys(item.displayName, item.itemId)
  }

  /** `item.rarity?.toLowerCase() || 'unknown'`. */
  function RarityOf(item: CatalogItem): (r: string)
    ensures r != ""
    ensures Truthy(item.rarity) ==> r == ToLower(item.rarity.value)
    ensures !Truthy(item.rarity) ==> r == "unknown"
  {
    if Truthy(item.rarity) then ToLower(item.rarity.value) else "unknown"
  }

  /** `keys.forEach(key => itemLookup[key] = ...)`: write `v` under each key, in order. */
  function AddKeys(m: Index, keys: seq<string>, v: string): Index
  {
    if keys == [] then m else AddKeys(m, keys[..|keys| - 1], v)[keys[|keys| - 1] := v]
  }

  /** Writing the items in order, each its value under each of its keys.
      Stated over any key and value functions so that the lemmas below do
      not depend on how the keys are spelled. */
  function WriteAll<T>(items: seq<T>, keysOf: T -> seq<string>, valueOf: T -> string): Index
  {
    if items == [] then map[]
    else
      var last := items[|items| - 1];
      AddKeys(WriteAll(items[..|items| - 1], keysOf, valueOf), keysOf(last), valueOf(last))
  }

  /** Item `i` is the last of `items` that has `k` among its keys. */
  ghost predicate LastWriter<T>(items: seq<T>, keysOf: T -> seq<string>, i: int, k: string) {
    && 0 <= i < |items|
    && k in keysOf(items[i])
    && forall j :: i < j < |items| ==> k !in keysOf(items[j])
  }

  lemma {:induction false} AddKeysAt(m: Index, keys: seq<string>, v: string, k: string)
    ensures k in AddKeys(m, keys, v) <==> k in m || k in keys
    ensures k in keys ==> AddKeys(m, keys, v)[k] == v
    ensures k !in keys && k in m ==> AddKeys(m, keys, v)[k] == m[k]
  {
    if keys != [] {
      var init := keys[..|keys| - 1];
      AddKeysAt(m, init, v, k);
      assert keys == init + [keys[|keys| - 1]];
    }
  }

  lemma {:induction false} WriteAllDomain<T>(items: seq<T>, keysOf: T -> seq<string>, valueOf: T -> string, k: string)
    ensures k in WriteAll(items, keysOf, valueOf) <==> exists i :: 0 <= i < |items| && k in keysOf(items[i])
  {
    if items != [] {
      var n := |items| - 1;
      var init := items[..n];
      WriteAllDomain(init, keysOf, valueOf, k);
      AddKeysAt(WriteAll(init, keysOf, valueOf), keysOf(items[n]), valueOf(items[n]), k);
      if exists i :: 0 <= i < |items| && k in keysOf(items[i]) {
        var i :| 0 <= i < |items| && k in keysOf(items[i]);
        if i < n {
          assert init[i] == items[i];
        }
      }
      if exists i :: 0 <= i < |init| && k in keysOf(init[i]) {
        var i :| 0 <= i < |init| && k in keysOf(init[i]);
        assert items[i] == init[i];
      }
    }
  }

  lemma {:induction false} WriteAllLastWriter<T>(items: seq<T>, keysOf: T -> seq<string>, valueOf: T -> string, i: int, k: string)
    requires LastWriter(items, keysOf, i, k)
    ensures k in WriteAll(items, keysOf, valueOf) && WriteAll(items, keysOf, valueOf)[k] == valueOf(items[i])
  {
    var n := |items| - 1;
    var init := items[..n];
    AddKeysAt(WriteAll(init, keysOf, valueOf), keysOf(items[n]), valueOf(items[n]), k);
    if i < n {
      assert init[i] == items[i];
      assert forall j :: i < j < |init| ==> init[j] == items[j];
      WriteAllLastWriter(init, keysOf, valueOf, i, k);
    }
  }

  lemma {:induction false} WriteAllValue<T>(items: seq<T>, keysOf: T -> seq<string>, valueOf: T -> string, k: string)
    requires k in WriteAll(items, keysOf, valueOf)
    ensures exists i :: LastWriter(items, keysOf, i, k) && WriteAll(items, keysOf, valueOf)[k] == valueOf(items[i])
  {
    var n := |items| - 1;
    var init := items[..n];
    AddKeysAt(WriteAll(init, keysOf, valueOf), keysOf(items[n]), valueOf(items[n]), k);
    if k in keysOf(items[n]) {
      assert LastWriter(items, keysOf, n, k);
    } else {
      WriteAllValue(init, keysOf, valueOf, k);
      var i :| LastWriter(init, keysOf, i, k) && WriteAll(init, keysOf, valueOf)[k] == valueOf(init[i]);
      assert items[i] == init[i];
      assert forall j :: i < j < n ==> items[j] == init[j];
      assert LastWriter(items, keysOf, i, k);
    }
  }

  /** The index `createItemLookup` builds: every catalog item, in load order,
      writes its rarity under each of its keys. */
  function BuildIndex(items: seq<CatalogItem>): Index
  {
    WriteAll(items, KeysOf, RarityOf)
  }

  /** Item `i` is the last catalog item that has `k` among its keys. */
  ghost predicate LastToWrite(items: seq<CatalogItem>, i: int, k: string) {
    LastWriter(items, KeysOf, i, k)
  }

  /** A key is in the index exactly when some catalog item has it among its keys. */
  lemma BuildIndexDomain(items: seq<CatalogItem>, k: string)
    ensures k in BuildIndex(items) <==> exists i :: 0 <= i < |items| && k in KeysOf(items[i])
  {
    WriteAllDomain(items, KeysOf, RarityOf, k);
  }

  /** The value under a key is the rarity of the last item, in load order,
      that produced the key (last write wins). */
  lemma BuildIndexLastWriter(items: seq<CatalogItem>, i: int, k: string)
    requires LastToWrite(items, i, k)
    ensures k in BuildIndex(items) && BuildIndex(items)[k] == RarityOf(items[i])
  {
    WriteAllLastWriter(items, KeysOf, RarityOf, i, k);
  }

  /** Every key of the index has a last writer, whose rarity it holds. */
  lemma BuildIndexValue(items: seq<CatalogItem>, k: string)
    requires k in BuildIndex(items)
    ensures exists i :: LastToWrite(items, i, k) && BuildIndex(items)[k] == RarityOf(items[i])
  {
    WriteAllValue(items, KeysOf, RarityOf, k);
  }

  /** The index holds no empty key and no empty rarity. */
  lemma BuildIndexNoEmpty(items: seq<CatalogItem>)
    ensures "" !in BuildIndex(items)
    ensures forall k :: k in BuildIndex(items) ==> BuildIndex(items)[k] != ""
  {
    BuildIndexDomain(items, "");
    forall k | k in BuildIndex(items) ensures BuildIndex(items)[k] != "" {
      BuildIndexValue(items, k);
    }
  }

  /** `createItemLookup`: the nested `forEach` loops that fill the dictionary. */
  method CreateItemLookup(items: seq<CatalogItem>) returns (lookup: Index)
    ensures lookup == BuildIndex(items)
    ensures "" !in lookup
    ensures forall i, k :: 0 <= i < |items| && k in KeysOf(items[i]) ==> k in lookup
    ensures forall k :: k in lookup ==> exists i :: 0 <= i < |items| && k in KeysOf(items[i])
    ensures forall i, k :: LastToWrite(items, i, k) ==> lookup[k] == RarityOf(items[i])
    ensures forall k :: k in lookup ==> lookup[k] != ""
  {
    lookup := map[];
    var i := 0;
    while i < |items|
      invariant 0 <= i <= |items|
      invariant lookup == BuildIndex(items[..i])
    {
      var item := items[i];
      var rarity := RarityOf(item);
      var keys := KeysOf(item);
      var j := 0;
      while j < |keys|
        invariant 0 <= j <= |keys|
        invariant lookup == AddKeys(BuildIndex(items[..i]), keys[..j], rarity)
      {
        lookup := lookup[keys[j] := rarity];
        j := j + 1;
        assert keys[..j][..j - 1] == keys[..j - 1];
      }
      assert keys[..j] == keys;
      assert items[..i + 1][..i] == items[..i];
      i := i + 1;
    }
    assert items[..i] == items;
    BuildIndexNoEmpty(items);
    forall k ensures k in lookup <==> exists i :: 0 <= i < |items| && k in KeysOf(items[i]) {
      BuildIndexDomain(items, k);
    }
    forall i, k | LastToWrite(items, i, k) ensures lookup[k] == RarityOf(items[i]) {
      BuildIndexLastWriter(items, i, k);
    }
  }
}
