/** The engine object itself: the loops over its nested dictionaries and lists,
    each proved against the function it computes. */
module ProductStore {
  import opened Common
  import opened Ordered
  import opened ProductIdentity
  import opened ProductMemory
  import Ledger = ProductLedger

  lemma {:induction false} FirstWithAliasAppend(products: Products, last: (Key, Product), requested: Key)
    ensures FirstWithAlias(products + [last], requested) ==
      if FirstWithAlias(products, requested).Some? then FirstWithAlias(products, requested)
      else if requested in last.1.aliases then Some(last.0) else None
  {
    if products != [] {
      assert (products + [last])[1..] == products[1..] + [last];
      FirstWithAliasAppend(products[1..], last, requested);
    }
  }

  lemma {:induction false} FirstWithAliasPrefix(products: Products, rest: Products, requested: Key)
    requires FirstWithAlias(products, requested).Some?
    ensures FirstWithAlias(products + rest, requested) == FirstWithAlias(products, requested)
  {
    assert (products + rest)[1..] == products[1..] + rest;
    if requested !in products[0].1.aliases { FirstWithAliasPrefix(products[1..], rest, requested); }
  }

  lemma {:induction false} CompatibleKeysAppend(products: Products, last: (Key, Product), requested: Key)
    ensures CompatibleKeys(products + [last], requested) == CompatibleKeys(products, requested) +
      (if Compatible(last.0, requested, Some(requested.codename)) then [last.0] else [])
  {
    if products == [] {
      assert products + [last] == [last] && [last][1..] == [];
    } else {
      assert (products + [last])[1..] == products[1..] + [last];
      CompatibleKeysAppend(products[1..], last, requested);
    }
  }

  method CanonicalProductKey(products: Products, requested: Key) returns (key: Key)
    ensures key == Canonical(products, requested)
  {
    for i := 0 to |products|
      invariant FirstWithAlias(products[..i], requested).None?
    {
      assert products[..i + 1] == products[..i] + [products[i]];
      FirstWithAliasAppend(products[..i], products[i], requested);
      if requested in products[i].1.aliases {
        assert products == products[..i + 1] + products[i + 1..];
        FirstWithAliasPrefix(products[..i + 1], products[i + 1..], requested);
        return products[i].0;
      }
    }
    assert products[..|products|] == products;
    var compatible: seq<Key> := [];
    for i := 0 to |products|
      invariant compatible == CompatibleKeys(products[..i], requested)
    {
      assert products[..i + 1] == products[..i] + [products[i]];
      CompatibleKeysAppend(products[..i], products[i], requested);
      if Compatible(products[i].0, requested, Some(requested.codename)) {
        compatible := compatible + [products[i].0];
      }
    }
    if compatible == [] { return requested; }
    var best := HighestQuality(compatible);
    return if Quality(best) > Quality(requested) then best else requested;
  }

  /** `max(keys, key=quality)`: the first of the best. */
  method HighestQuality(keys: seq<Key>) returns (best: Key)
    requires keys != []
    ensures best == Best(keys)
  {
    best := keys[0];
    for i := 1 to |keys|
      invariant best == Best(keys[..i])
    {
      assert keys[..i + 1][..i] == keys[..i];
      if Quality(keys[i]) > Quality(best) { best := keys[i]; }
    }
    assert keys[..|keys|] == keys;
  }

  lemma {:induction false} AppendAllAppend<T(!new)>(values: seq<T>, more: seq<T>, last: T)
    ensures AppendAll(values, more + [last]) == AppendUnique(AppendAll(values, more), last)
    decreases |more|
  {
    if more == [] {
      assert more + [last] == [last];
      assert AppendAll(AppendUnique(values, last), []) == AppendUnique(values, last);
    } else {
      assert (more + [last])[1..] == more[1..] + [last];
      AppendAllAppend(AppendUnique(values, more[0]), more[1..], last);
    }
  }

  method MergeAliases(target: seq<Key>, sourceKey: Key, source: seq<Key>) returns (aliases: seq<Key>)
    ensures aliases == AppendAll(AppendUnique(target, sourceKey), source)
    ensures forall a :: a in aliases <==> a in target || a == sourceKey || a in source
  {
    aliases := AppendUnique(target, sourceKey);
    for i := 0 to |source|
      invariant aliases == AppendAll(AppendUnique(target, sourceKey), source[..i])
    {
      assert source[..i + 1] == source[..i] + [source[i]];
      AppendAllAppend(AppendUnique(target, sourceKey), source[..i], source[i]);
      aliases := AppendUnique(aliases, source[i]);
    }
    assert source[..|source|] == source;
  }

  lemma {:induction false} NamedAppend(names: seq<string>, last: string)
    ensures Named(names + [last]) == Named(names) + (if last == "" then [] else [last])
  {
    if names != [] {
      assert (names + [last])[1..] == names[1..] + [last];
      NamedAppend(names[1..], last);
    }
  }

  method MergeSessionLists(target: seq<string>, source: seq<string>) returns (sessions: seq<string>)
    ensures sessions == MergeSessions(target, source) && |sessions| <= SESSIONS
  {
    sessions := target;
    for i := 0 to |source|
      invariant sessions == AppendAll(target, Named(source[..i]))
    {
      assert source[..i + 1] == source[..i] + [source[i]];
      NamedAppend(source[..i], source[i]);
      if source[i] != "" {
        AppendAllAppend(target, Named(source[..i]), source[i]);
        sessions := AppendUnique(sessions, source[i]);
      } else {
        assert Named(source[..i + 1]) == Named(source[..i]);
      }
    }
    assert source[..|source|] == source;
    sessions := Latest(sessions, SESSIONS);
  }

  lemma {:induction false} AddCountsAppend(target: Dict<string, nat>, source: Dict<string, nat>, last: (string, nat))
    ensures AddCounts(target, source + [last]) ==
      Put<string, nat>(AddCounts(target, source), last.0, Or(Get(AddCounts(target, source), last.0)) + last.1)
    decreases |source|
  {
    if source == [] {
      assert source + [last] == [last];
      var next := Put<string, nat>(target, last.0, Or(Get(target, last.0)) + last.1);
      assert AddCounts(next, []) == next;
    } else {
      assert (source + [last])[1..] == source[1..] + [last];
      AddCountsAppend(
        Put<string, nat>(target, source[0].0, Or(Get(target, source[0].0)) + source[0].1), source[1..], last);
    }
  }

  method MergeCounts(target: Dict<string, nat>, source: Dict<string, nat>) returns (counts: Dict<string, nat>)
    ensures counts == AddCounts(target, source)
  {
    counts := target;
    for i := 0 to |source|
      invariant counts == AddCounts(target, source[..i])
    {
      assert source[..i + 1] == source[..i] + [source[i]];
      AddCountsAppend(target, source[..i], source[i]);
      counts := Put<string, nat>(counts, source[i].0, Or(Get(counts, source[i].0)) + source[i].1);
    }
    assert source[..|source|] == source;
  }

  method MergeTwoVersions(target: Version, source: Version) returns (merged: Version)
    ensures merged == MergeVersion(target, source)
  {
    var status := MergeCounts(target.supportStatus, source.supportStatus);
    var strategies := MergeCounts(target.strategies, source.strategies);
    var paths := MergeCounts(target.paths, source.paths);
    var useCases := MergeCounts(target.useCases, source.useCases);
    var blockers := MergeCounts(target.blockers, source.blockers);
    merged := Version(
      target.observations + source.observations, status, strategies, paths, useCases, blockers,
      Latest(target.artifacts + source.artifacts, HISTORY),
      Latest(target.sources + source.sources, HISTORY),
      Latest(target.restores + source.restores, HISTORY));
  }

  function MergeOneVersion(target: Dict<string, Version>, entry: (string, Version)): Dict<string, Version> {
    Put(target, entry.0, match Get(target, entry.0)
                         case None => entry.1
                         case Some(present) => MergeVersion(present, entry.1))
  }

  lemma {:induction false} MergeVersionsAppend(
      target: Dict<string, Version>, source: Dict<string, Version>, last: (string, Version))
    ensures MergeVersions(target, source + [last]) == MergeOneVersion(MergeVersions(target, source), last)
    decreases |source|
  {
    if source == [] {
      assert source + [last] == [last];
      assert MergeVersions(MergeOneVersion(target, last), []) == MergeOneVersion(target, last);
    } else {
      assert (source + [last])[1..] == source[1..] + [last];
      MergeVersionsAppend(MergeOneVersion(target, source[0]), source[1..], last);
    }
  }

  method MergeVersionTables(target: Dict<string, Version>, source: Dict<string, Version>)
    returns (versions: Dict<string, Version>)
    ensures versions == MergeVersions(target, source)
  {
    versions := target;
    for i := 0 to |source|
      invariant versions == MergeVersions(target, source[..i])
    {
      assert source[..i + 1] == source[..i] + [source[i]];
      MergeVersionsAppend(target, source[..i], source[i]);
      match Get(versions, source[i].0) {
        case None => versions := Put(versions, source[i].0, source[i].1);
        case Some(present) =>
          var merged := MergeTwoVersions(present, source[i].1);
          versions := Put(versions, source[i].0, merged);
      }
    }
    assert source[..|source|] == source;
  }

  method MergeProducts(target: Product, source: Product, sourceKey: Key) returns (merged: Product)
    ensures merged == MergeProduct(target, source, sourceKey)
  {
    var sessions := MergeSessionLists(target.sessions, source.sessions);
    var aliases := MergeAliases(target.aliases, sourceKey, source.aliases);
    var versions := MergeVersionTables(target.versions, source.versions);
    merged := target.(
      observations := target.observations + source.observations,
      sessions := sessions,
      aliases := aliases,
      merged := Latest(target.merged + [sourceKey], MERGES),
      versions := versions);
  }

  method RelatedKeys(keys: seq<Key>, key: Key) returns (related: set<Key>)
    ensures related == RelatedTo(keys, key)
  {
    related := {};
    for j := 0 to |keys|
      invariant related == RelatedTo(keys[..j], key)
    {
      assert keys[..j + 1] == keys[..j] + [keys[j]];
      if keys[j] != key && Compatible(keys[j], key, None) {
        related := related + {keys[j]};
      }
    }
    assert keys[..|keys|] == keys;
  }

  lemma MergeWeakerStep(products: Products, canonical: Key, codename: string, keys: seq<Key>, i: nat)
    requires i < |keys| && Has(products, canonical)
    ensures MergeWeaker(products, canonical, codename, keys[i..]) ==
      if Weaker(keys[i], canonical, codename) && Has(products, keys[i])
      then MergeWeaker(Absorb(products, canonical, keys[i]), canonical, codename, keys[i + 1..])
      else MergeWeaker(products, canonical, codename, keys[i + 1..])
  {
    assert keys[i..][1..] == keys[i + 1..];
  }

  /** `ProductMemoryEngine`, with its stored payload as a field. */
  class ProductMemoryEngine {
    var products: Products

    constructor ()
      ensures products == []
    {
      products := [];
    }

    method MergeWeakerProducts(canonical: Key, codename: string)
      requires Has(products, canonical)
      modifies this
      ensures products == MergeWeaker(old(products), canonical, codename, Keys(old(products)))
      ensures Has(products, canonical)
    {
      var keys := Keys(products);
      var i := 0;
      while i < |keys|
        invariant 0 <= i <= |keys| && Has(products, canonical)
        invariant MergeWeaker(old(products), canonical, codename, keys) ==
                  MergeWeaker(products, canonical, codename, keys[i..])
      {
        var other := keys[i];
        MergeWeakerStep(products, canonical, codename, keys, i);
        if Weaker(other, canonical, codename) && Has(products, other) {
          var merged := MergeProducts(Get(products, canonical).value, Get(products, other).value, other);
          GetPut(Drop(products, other), canonical, merged, canonical);
          products := Put(Drop(products, other), canonical, merged);
        }
        i := i + 1;
      }
    }

    method RefreshRelatedIdentities()
      modifies this
      ensures products == Refresh(old(products), Keys(old(products)))
    {
      var keys := Keys(products);
      var refreshed: Products := [];
      Ledger.RefreshKeeps(products, keys);
      for i := 0 to |products|
        invariant products == old(products)
        invariant refreshed == Refresh(products, keys)[..i]
      {
        var related := RelatedKeys(keys, products[i].0);
        RefreshEntry(products, keys, i);
        refreshed := refreshed + [(products[i].0, products[i].1.(related := related))];
      }
      assert refreshed == Refresh(products, keys);
      products := refreshed;
    }

    /** One observation, exactly as the memory's specification records it. */
    method RecordObservation(o: Observation) returns (key: Key)
      modifies this
      ensures products == Record(old(products), o)
      ensures key == Canonical(old(products), o.requested)
    {
      key := CanonicalProductKey(products, o.requested);
      if !Has(products, key) {
        products := Put(products, key, NEW_PRODUCT);
        GetPut(old(products), key, NEW_PRODUCT, key);
      }
      MergeWeakerProducts(key, o.requested.codename);
      products := Put(products, key, ObserveProduct(Get(products, key).value, o));
      RefreshRelatedIdentities();
    }

    method FindProduct(requested: Key) returns (product: Option<Product>)
      ensures product == Lookup(products, requested)
    {
      var key := CanonicalProductKey(products, requested);
      product := Get(products, key);
    }
  }

  lemma {:induction false} RefreshEntry(products: Products, keys: seq<Key>, i: nat)
    requires i < |products|
    ensures |Refresh(products, keys)| == |products|
    ensures Refresh(products, keys)[i] == (products[i].0, products[i].1.(related := RelatedTo(keys, products[i].0)))
  {
    Ledger.RefreshKeeps(products, keys);
    if i > 0 { RefreshEntry(products[1..], keys, i - 1); }
  }
}
