/** The durable product memory: what one observation does to the products, and
    which product a profile is looked up in. */
module ProductMemory {
  import opened Common
  import opened Ordered
  import opened ProductIdentity

  datatype Version = Version(
    observations: nat,
    supportStatus: Dict<string, nat>,
    strategies: Dict<string, nat>,
    paths: Dict<string, nat>,
    useCases: Dict<string, nat>,
    blockers: Dict<string, nat>,
    artifacts: seq<string>,
    sources: seq<string>,
    restores: seq<string>)

  datatype Product = Product(
    observations: nat,
    sessions: seq<string>,
    versions: Dict<string, Version>,
    aliases: seq<Key>,
    related: set<Key>,
    merged: seq<Key>)

  type Products = Dict<Key, Product>

  datatype Observation = Observation(
    requested: Key,
    version: string,
    session: string,
    supportStatus: string, strategy: string, path: string, useCase: string, blocker: string,
    artifact: string, source: string, restore: string)

  const HISTORY := 20
  const SESSIONS := 12
  const MERGES := 30

  const NEW_PRODUCT := Product(0, [], [], [], {}, [])
  const NEW_VERSION := Version(0, [], [], [], [], [], [], [], [])

  // ------------------------------------------------------- which product it is

  function FirstWithAlias(products: Products, requested: Key): Option<Key> {
    if products == [] then None
    else if requested in products[0].1.aliases then Some(products[0].0)
    else FirstWithAlias(products[1..], requested)
  }

  function CompatibleKeys(products: Products, requested: Key): seq<Key> {
    if products == [] then []
    else (if Compatible(products[0].0, requested, Some(requested.codename)) then [products[0].0] else [])
         + CompatibleKeys(products[1..], requested)
  }

  /** The first of the keys of the highest quality. */
  function Best(keys: seq<Key>): Key
    requires keys != []
  {
    if |keys| == 1 then keys[0]
    else
      var rest := Best(keys[..|keys| - 1]);
      var last := keys[|keys| - 1];
      if Quality(last) > Quality(rest) then last else rest
  }

  lemma {:induction false} BestIsAmong(keys: seq<Key>)
    requires keys != []
    ensures Best(keys) in keys
  {
    if |keys| > 1 { BestIsAmong(keys[..|keys| - 1]); }
  }

  lemma {:induction false} BestIsBest(keys: seq<Key>, i: nat)
    requires i < |keys|
    ensures Quality(keys[i]) <= Quality(Best(keys))
  {
    if i < |keys| - 1 {
      var init := keys[..|keys| - 1];
      BestIsBest(init, i);
      assert keys[i] == init[i];
    }
  }

  /** Of equals the one that comes first is chosen: a later key only if it is better. */
  lemma BestNext(keys: seq<Key>, last: Key)
    requires keys != []
    ensures Best(keys + [last]) == if Quality(last) > Quality(Best(keys)) then last else Best(keys)
  {
    assert (keys + [last])[..|keys|] == keys;
  }

  function Canonical(products: Products, requested: Key): Key {
    match FirstWithAlias(products, requested)
    case Some(key) => key
    case None =>
      var keys := CompatibleKeys(products, requested);
      if keys == [] then requested
      else if Quality(Best(keys)) > Quality(requested) then Best(keys)
      else requested
  }

  // ------------------------------------------------------------------- merging

  function AddCounts(target: Dict<string, nat>, source: Dict<string, nat>): Dict<string, nat>
    decreases |source|
  {
    if source == [] then target
    else AddCounts(Put<string, nat>(target, source[0].0, Or(Get(target, source[0].0)) + source[0].1), source[1..])
  }

  function MergeVersion(target: Version, source: Version): Version {
    Version(
      target.observations + source.observations,
      AddCounts(target.supportStatus, source.supportStatus),
      AddCounts(target.strategies, source.strategies),
      AddCounts(target.paths, source.paths),
      AddCounts(target.useCases, source.useCases),
      AddCounts(target.blockers, source.blockers),
      Latest(target.artifacts + source.artifacts, HISTORY),
      Latest(target.sources + source.sources, HISTORY),
      Latest(target.restores + source.restores, HISTORY))
  }

  function MergeVersions(target: Dict<string, Version>, source: Dict<string, Version>): Dict<string, Version>
    decreases |source|
  {
    if source == [] then target
    else
      var (key, version) := source[0];
      var merged := match Get(target, key) case None => version case Some(present) => MergeVersion(present, version);
      MergeVersions(Put(target, key, merged), source[1..])
  }

  function MergeSessions(target: seq<string>, source: seq<string>): seq<string> {
    Latest(AppendAll(target, Named(source)), SESSIONS)
  }

  /** `_append_unique` drops empty names. */
  function Named(names: seq<string>): seq<string> {
    if names == [] then [] else (if names[0] == "" then [] else [names[0]]) + Named(names[1..])
  }

  function MergeProduct(target: Product, source: Product, sourceKey: Key): Product {
    target.(
      observations := target.observations + source.observations,
      sessions := MergeSessions(target.sessions, source.sessions),
      aliases := AppendAll(AppendUnique(target.aliases, sourceKey), source.aliases),
      merged := Latest(target.merged + [sourceKey], MERGES),
      versions := MergeVersions(target.versions, source.versions))
  }

  predicate Weaker(other: Key, canonical: Key, codename: string) {
    && other != canonical
    && Compatible(other, canonical, Some(codename))
    && Quality(other) < Quality(canonical)
  }

  function Absorb(products: Products, canonical: Key, other: Key): Products
    requires Has(products, canonical) && Has(products, other) && other != canonical
  {
    Put(Drop(products, other), canonical,
        MergeProduct(Get(products, canonical).value, Get(products, other).value, other))
  }

  function MergeWeaker(products: Products, canonical: Key, codename: string, keys: seq<Key>): Products
    decreases |keys|
  {
    if keys == [] then products
    else if Weaker(keys[0], canonical, codename) && Has(products, canonical) && Has(products, keys[0]) then
      MergeWeaker(Absorb(products, canonical, keys[0]), canonical, codename, keys[1..])
    else MergeWeaker(products, canonical, codename, keys[1..])
  }

  // ------------------------------------------------------------- one observation

  function Tag(text: string): string {
    if text == "" then "unknown" else text
  }

  function Count(counts: Dict<string, nat>, text: string): Dict<string, nat> {
    Put<string, nat>(counts, Tag(text), Or(Get(counts, Tag(text))) + 1)
  }

  function ObserveVersion(v: Version, o: Observation): Version {
    Version(
      v.observations + 1,
      Count(v.supportStatus, o.supportStatus),
      Count(v.strategies, o.strategy),
      Count(v.paths, o.path),
      Count(v.useCases, o.useCase),
      Count(v.blockers, o.blocker),
      Latest(v.artifacts + [o.artifact], HISTORY),
      Latest(v.sources + [o.source], HISTORY),
      Latest(v.restores + [o.restore], HISTORY))
  }

  function VersionOf(p: Product, key: string): Version {
    match Get(p.versions, key) case None => NEW_VERSION case Some(v) => v
  }

  function ObserveProduct(p: Product, o: Observation): Product {
    p.(observations := p.observations + 1,
       aliases := AppendUnique(p.aliases, o.requested),
       sessions := Latest(RemoveFirst(p.sessions, o.session) + [o.session], SESSIONS),
       versions := Put(p.versions, o.version, ObserveVersion(VersionOf(p, o.version), o)))
  }

  function RelatedTo(keys: seq<Key>, key: Key): set<Key> {
    set other | other in keys && other != key && Compatible(other, key, None)
  }

  function Refresh(products: Products, keys: seq<Key>): Products {
    if products == [] then []
    else [(products[0].0, products[0].1.(related := RelatedTo(keys, products[0].0)))] + Refresh(products[1..], keys)
  }

  function WithProduct(products: Products, key: Key): Products {
    if Has(products, key) then products else Put(products, key, NEW_PRODUCT)
  }

  /** The products once the canonical one exists and has absorbed the weaker ones. */
  function Gathered(products: Products, o: Observation): Products {
    var canonical := Canonical(products, o.requested);
    var present := WithProduct(products, canonical);
    MergeWeaker(present, canonical, o.requested.codename, Keys(present))
  }

  function Record(products: Products, o: Observation): Products {
    var canonical := Canonical(products, o.requested);
    var gathered := Gathered(products, o);
    if !Has(gathered, canonical) then gathered
    else
      var observed := Put(gathered, canonical, ObserveProduct(Get(gathered, canonical).value, o));
      Refresh(observed, Keys(observed))
  }

  function RecordAll(products: Products, log: seq<Observation>): Products {
    if log == [] then products
    else Record(RecordAll(products, log[..|log| - 1]), log[|log| - 1])
  }

  /** `lookup`: the product a profile is remembered under, if any. */
  function Lookup(products: Products, requested: Key): Option<Product> {
    Get(products, Canonical(products, requested))
  }
}
