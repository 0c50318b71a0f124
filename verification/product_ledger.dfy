/** What every reachable product memory keeps: products that could be the same
    device have equal identity quality, aliases partition what was recorded, and
    the counters add up to the observations made. */
module ProductLedger {
  import opened Common
  import opened Ordered
  import opened ProductIdentity
  import opened ProductMemory

  // ------------------------------------------------------------------- tallies

  function Tally(log: seq<Observation>, names: set<Key>): nat {
    if log == [] then 0
    else Tally(log[..|log| - 1], names) + (if log[|log| - 1].requested in names then 1 else 0)
  }

  /** The observations of one version. */
  function TallyAt(log: seq<Observation>, names: set<Key>, version: string): nat {
    if log == [] then 0
    else
      var last := log[|log| - 1];
      TallyAt(log[..|log| - 1], names, version)
      + (if last.requested in names && last.version == version then 1 else 0)
  }

  /** What a version counts. */
  datatype Field = SupportStatus | Strategies | Paths | UseCases | Blockers

  function Counts(v: Version, f: Field): Dict<string, nat> {
    match f
    case SupportStatus => v.supportStatus
    case Strategies => v.strategies
    case Paths => v.paths
    case UseCases => v.useCases
    case Blockers => v.blockers
  }

  function TextOf(o: Observation, f: Field): string {
    match f
    case SupportStatus => o.supportStatus
    case Strategies => o.strategy
    case Paths => o.path
    case UseCases => o.useCase
    case Blockers => o.blocker
  }

  function TagOf(o: Observation, f: Field): string {
    Tag(TextOf(o, f))
  }

  /** The observations of one version that carry one tag. */
  function TallyTag(log: seq<Observation>, names: set<Key>, version: string, f: Field, tag: string): nat {
    if log == [] then 0
    else
      var last := log[|log| - 1];
      TallyTag(log[..|log| - 1], names, version, f, tag)
      + (if last.requested in names && last.version == version && TagOf(last, f) == tag then 1 else 0)
  }

  predicate Recorded(log: seq<Observation>, key: Key) {
    exists o :: o in log && o.requested == key
  }

  lemma {:induction false} TallyUnion(log: seq<Observation>, a: set<Key>, b: set<Key>)
    requires a !! b
    ensures Tally(log, a + b) == Tally(log, a) + Tally(log, b)
    ensures forall v :: TallyAt(log, a + b, v) == TallyAt(log, a, v) + TallyAt(log, b, v)
    ensures forall v, f, t :: TallyTag(log, a + b, v, f, t) == TallyTag(log, a, v, f, t) + TallyTag(log, b, v, f, t)
  {
    if log != [] { TallyUnion(log[..|log| - 1], a, b); }
  }

  lemma {:induction false} TallyUnrecorded(log: seq<Observation>, a: set<Key>)
    requires forall k | k in a :: !Recorded(log, k)
    ensures Tally(log, a) == 0
    ensures forall v :: TallyAt(log, a, v) == 0
    ensures forall v, f, t :: TallyTag(log, a, v, f, t) == 0
  {
    if log != [] {
      var last := log[|log| - 1];
      assert last in log;
      forall k | k in a ensures !Recorded(log[..|log| - 1], k) {
        assert !Recorded(log, k);
        assert forall o :: o in log[..|log| - 1] ==> o in log;
      }
      TallyUnrecorded(log[..|log| - 1], a);
    }
  }

  lemma TallyNext(log: seq<Observation>, o: Observation, a: set<Key>)
    ensures Tally(log + [o], a) == Tally(log, a) + (if o.requested in a then 1 else 0)
    ensures forall v ::
      TallyAt(log + [o], a, v) == TallyAt(log, a, v) + (if o.requested in a && o.version == v then 1 else 0)
    ensures forall v, f, t ::
      TallyTag(log + [o], a, v, f, t) ==
      TallyTag(log, a, v, f, t) + (if o.requested in a && o.version == v && TagOf(o, f) == t then 1 else 0)
  {
    assert (log + [o])[..|log|] == log;
  }

  // ------------------------------------------------------------------ versions

  function ObservedAt(versions: Dict<string, Version>, key: string): nat {
    match Get(versions, key) case None => 0 case Some(v) => v.observations
  }

  function TaggedAt(versions: Dict<string, Version>, key: string, f: Field, tag: string): nat {
    match Get(versions, key) case None => 0 case Some(v) => Or(Get(Counts(v, f), tag))
  }

  function Observed(versions: Dict<string, Version>): nat {
    if versions == [] then 0 else versions[0].1.observations + Observed(versions[1..])
  }

  lemma {:induction false} ObservedPut(versions: Dict<string, Version>, key: string, v: Version)
    ensures Observed(Put(versions, key, v)) == Observed(versions) - ObservedAt(versions, key) + v.observations
    ensures ObservedAt(versions, key) <= Observed(versions)
  {
    if versions != [] && versions[0].0 != key { ObservedPut(versions[1..], key, v); }
  }

  /** Each of the five count maps of a version adds up to its observations. */
  ghost predicate Balanced(v: Version) {
    && (forall f :: UniqueKeys(Counts(v, f)) && Total(Counts(v, f)) == v.observations)
    && |v.artifacts| <= HISTORY && |v.sources| <= HISTORY && |v.restores| <= HISTORY
  }

  ghost predicate AllBalanced(versions: Dict<string, Version>) {
    && UniqueKeys(versions)
    && forall k :: Has(versions, k) ==> Balanced(Get(versions, k).value)
  }

  lemma {:induction false} AddCountsAddsUp(target: Dict<string, nat>, source: Dict<string, nat>)
    requires UniqueKeys(target) && UniqueKeys(source)
    ensures UniqueKeys(AddCounts(target, source))
    ensures Total(AddCounts(target, source)) == Total(target) + Total(source)
    ensures forall t :: Or(Get(AddCounts(target, source), t)) == Or(Get(target, t)) + Or(Get(source, t))
    decreases |source|
  {
    if source != [] {
      var key, rest := source[0].0, source[1..];
      var count := Or(Get(target, key)) + source[0].1;
      var next := Put<string, nat>(target, key, count);
      TotalPut(target, key, count);
      PutUnique<string, nat>(target, key, count);
      AddCountsAddsUp(next, rest);
      GetMeansPresent(rest, key);
      assert AddCounts(target, source) == AddCounts(next, rest);
      forall t ensures Or(Get(AddCounts(target, source), t)) == Or(Get(target, t)) + Or(Get(source, t)) {
        GetPut<string, nat>(target, key, count, t);
        assert Or(Get(AddCounts(next, rest), t)) == Or(Get(next, t)) + Or(Get(rest, t));
      }
    }
  }

  lemma MergedField(target: Version, source: Version, f: Field)
    requires Balanced(target) && Balanced(source)
    ensures var counts := Counts(MergeVersion(target, source), f);
      && UniqueKeys(counts) && Total(counts) == target.observations + source.observations
      && forall t :: Or(Get(counts, t)) == Or(Get(Counts(target, f), t)) + Or(Get(Counts(source, f), t))
  {
    assert Counts(MergeVersion(target, source), f) == AddCounts(Counts(target, f), Counts(source, f));
    AddCountsAddsUp(Counts(target, f), Counts(source, f));
  }

  lemma MergeVersionAddsUp(target: Version, source: Version)
    requires Balanced(target) && Balanced(source)
    ensures Balanced(MergeVersion(target, source))
    ensures forall f, t :: Or(Get(Counts(MergeVersion(target, source), f), t)) ==
                           Or(Get(Counts(target, f), t)) + Or(Get(Counts(source, f), t))
  {
    forall f
      ensures var counts := Counts(MergeVersion(target, source), f);
        && UniqueKeys(counts) && Total(counts) == target.observations + source.observations
        && forall t :: Or(Get(counts, t)) == Or(Get(Counts(target, f), t)) + Or(Get(Counts(source, f), t))
    {
      MergedField(target, source, f);
    }
  }

  /** The first version of the source, added to the target. */
  function FirstMerged(target: Dict<string, Version>, source: Dict<string, Version>): Dict<string, Version>
    requires source != []
  {
    var (key, version) := source[0];
    Put(target, key, match Get(target, key) case None => version case Some(present) => MergeVersion(present, version))
  }

  lemma RestOf(source: Dict<string, Version>)
    requires AllBalanced(source) && source != []
    ensures AllBalanced(source[1..]) && !Has(source[1..], source[0].0)
    ensures Has(source, source[0].0) && Balanced(source[0].1)
    ensures forall k :: Get(source, k) == if k == source[0].0 then Some(source[0].1) else Get(source[1..], k)
  {
    var key, rest := source[0].0, source[1..];
    GetAt(source, 0);
    forall k | Has(rest, k) ensures k != key {
      GetMeansPresent(rest, k);
      var i :| 0 <= i < |rest| && rest[i].0 == k;
      assert source[i + 1].0 == k;
    }
    forall k | Has(rest, k) ensures Balanced(Get(rest, k).value) { assert Get(source, k) == Get(rest, k); }
  }

  lemma FirstAddsUp(target: Dict<string, Version>, source: Dict<string, Version>)
    requires AllBalanced(target) && AllBalanced(source) && source != []
    ensures var next, rest := FirstMerged(target, source), source[1..];
      && AllBalanced(next) && Observed(next) + Observed(rest) == Observed(target) + Observed(source)
      && (forall k :: ObservedAt(next, k) + ObservedAt(rest, k) == ObservedAt(target, k) + ObservedAt(source, k))
      && (forall k, f, t ::
            TaggedAt(next, k, f, t) + TaggedAt(rest, k, f, t) == TaggedAt(target, k, f, t) + TaggedAt(source, k, f, t))
  {
    var (key, version) := source[0];
    var merged := match Get(target, key) case None => version case Some(present) => MergeVersion(present, version);
    RestOf(source);
    if Has(target, key) { MergeVersionAddsUp(Get(target, key).value, version); }
    PutVersion(target, key, merged);
  }

  lemma {:induction false} MergeVersionsAddsUp(target: Dict<string, Version>, source: Dict<string, Version>)
    requires AllBalanced(target) && AllBalanced(source)
    ensures AllBalanced(MergeVersions(target, source))
    ensures Observed(MergeVersions(target, source)) == Observed(target) + Observed(source)
    ensures forall k :: ObservedAt(MergeVersions(target, source), k) == ObservedAt(target, k) + ObservedAt(source, k)
    ensures forall k, f, t ::
      TaggedAt(MergeVersions(target, source), k, f, t) == TaggedAt(target, k, f, t) + TaggedAt(source, k, f, t)
    decreases |source|
  {
    if source != [] {
      var next, rest := FirstMerged(target, source), source[1..];
      RestOf(source);
      FirstAddsUp(target, source);
      MergeVersionsAddsUp(next, rest);
      assert MergeVersions(target, source) == MergeVersions(next, rest);
      forall k
        ensures ObservedAt(MergeVersions(target, source), k) == ObservedAt(target, k) + ObservedAt(source, k)
      {
        assert ObservedAt(MergeVersions(next, rest), k) == ObservedAt(next, k) + ObservedAt(rest, k);
      }
      forall k, f, t
        ensures TaggedAt(MergeVersions(target, source), k, f, t) ==
          TaggedAt(target, k, f, t) + TaggedAt(source, k, f, t)
      {
        assert TaggedAt(MergeVersions(next, rest), k, f, t) == TaggedAt(next, k, f, t) + TaggedAt(rest, k, f, t);
      }
    }
  }

  lemma CountOne(counts: Dict<string, nat>, text: string)
    requires UniqueKeys(counts)
    ensures UniqueKeys(Count(counts, text)) && Total(Count(counts, text)) == Total(counts) + 1
    ensures forall t :: Or(Get(Count(counts, text), t)) == Or(Get(counts, t)) + (if t == Tag(text) then 1 else 0)
  {
    var count := Or(Get(counts, Tag(text))) + 1;
    TotalPut(counts, Tag(text), count);
    PutUnique<string, nat>(counts, Tag(text), count);
    forall t ensures Or(Get(Count(counts, text), t)) == Or(Get(counts, t)) + (if t == Tag(text) then 1 else 0) {
      GetPut<string, nat>(counts, Tag(text), count, t);
    }
  }

  lemma ObserveVersionAddsUp(v: Version, o: Observation)
    requires Balanced(v)
    ensures Balanced(ObserveVersion(v, o))
    ensures forall f, t :: Or(Get(Counts(ObserveVersion(v, o), f), t)) ==
                           Or(Get(Counts(v, f), t)) + (if TagOf(o, f) == t then 1 else 0)
  {
    var w := ObserveVersion(v, o);
    forall f
      ensures UniqueKeys(Counts(w, f)) && Total(Counts(w, f)) == w.observations
      ensures forall t :: Or(Get(Counts(w, f), t)) == Or(Get(Counts(v, f), t)) + (if TagOf(o, f) == t then 1 else 0)
    {
      CountOne(Counts(v, f), TextOf(o, f));
      assert Counts(w, f) == Count(Counts(v, f), TextOf(o, f));
    }
  }

  lemma ObserveVersionsAddsUp(p: Product, o: Observation)
    requires AllBalanced(p.versions)
    ensures var after := ObserveProduct(p, o).versions;
      && AllBalanced(after)
      && Observed(after) == Observed(p.versions) + 1
      && (forall v :: ObservedAt(after, v) == ObservedAt(p.versions, v) + (if o.version == v then 1 else 0))
      && (forall v, f, t :: TaggedAt(after, v, f, t) ==
            TaggedAt(p.versions, v, f, t) + (if o.version == v && TagOf(o, f) == t then 1 else 0))
  {
    var version := VersionOf(p, o.version);
    NewVersionIsEmpty();
    ObserveVersionAddsUp(version, o);
    PutVersion(p.versions, o.version, ObserveVersion(version, o));
  }

  lemma NewVersionIsEmpty()
    ensures Balanced(NEW_VERSION)
    ensures forall f, t :: Or(Get(Counts(NEW_VERSION, f), t)) == 0
  {
    assert forall f :: Counts(NEW_VERSION, f) == [];
  }

  lemma PutVersion(versions: Dict<string, Version>, key: string, v: Version)
    requires AllBalanced(versions) && Balanced(v)
    ensures var after := Put(versions, key, v);
      && AllBalanced(after)
      && Observed(after) == Observed(versions) - ObservedAt(versions, key) + v.observations
      && (forall k :: ObservedAt(after, k) == if k == key then v.observations else ObservedAt(versions, k))
      && (forall k, f, t :: TaggedAt(after, k, f, t) ==
            if k == key then Or(Get(Counts(v, f), t)) else TaggedAt(versions, k, f, t))
  {
    PutUnique(versions, key, v);
    ObservedPut(versions, key, v);
    var after := Put(versions, key, v);
    forall k ensures Get(after, k) == if k == key then Some(v) else Get(versions, k) {
      GetPut(versions, key, v, k);
    }
  }

  // ------------------------------------------------------------------ products

  ghost function Names(p: Product): set<Key> {
    set a | a in p.aliases
  }

  ghost function NamesOf(products: Products, key: Key): set<Key> {
    if Has(products, key) then Names(Get(products, key).value) else {}
  }

  /** The ledger of one product. */
  ghost predicate Adds(p: Product, log: seq<Observation>) {
    && p.observations == Tally(log, Names(p))
    && p.observations == Observed(p.versions)
    && (forall v :: ObservedAt(p.versions, v) == TallyAt(log, Names(p), v))
    && (forall v, f, t :: TaggedAt(p.versions, v, f, t) == TallyTag(log, Names(p), v, f, t))
    && AllBalanced(p.versions)
    && |p.sessions| <= SESSIONS && |p.merged| <= MERGES
  }

  ghost predicate Apart(products: Products) {
    forall k, j :: Has(products, k) && Has(products, j) && k != j ==>
      NamesOf(products, k) !! NamesOf(products, j)
  }

  ghost predicate Covered(products: Products, log: seq<Observation>) {
    forall key :: Recorded(log, key) <==> exists k :: key in NamesOf(products, k)
  }

  ghost predicate NamedBy(products: Products, key: Key) {
    key in NamesOf(products, key) && forall a | a in NamesOf(products, key) && a != key :: Quality(a) < Quality(key)
  }

  /** Everything but the identity qualities; `newest` is a product that has no alias yet. */
  ghost predicate Sound(products: Products, log: seq<Observation>, newest: Option<Key>) {
    && UniqueKeys(products)
    && (forall k :: Has(products, k) ==> Adds(Get(products, k).value, log))
    && (forall k :: Has(products, k) && newest != Some(k) ==> NamedBy(products, k))
    && (newest.Some? ==>
          && Has(products, newest.value)
          && forall a | a in NamesOf(products, newest.value) :: Quality(a) < Quality(newest.value))
    && Apart(products)
    && Covered(products, log)
  }

  ghost predicate EqualQuality(products: Products) {
    forall a, b :: Has(products, a) && Has(products, b) && Compatible(a, b, None) ==> Quality(a) == Quality(b)
  }

  ghost predicate Inv(products: Products, log: seq<Observation>) {
    Sound(products, log, None) && EqualQuality(products)
  }

  lemma {:induction false} FirstWithAliasMeans(products: Products, requested: Key)
    requires UniqueKeys(products)
    ensures match FirstWithAlias(products, requested)
      case Some(k) => requested in NamesOf(products, k)
      case None => forall k :: requested !in NamesOf(products, k)
  {
    if products != [] && requested !in products[0].1.aliases {
      var rest := products[1..];
      FirstWithAliasMeans(rest, requested);
      match FirstWithAlias(rest, requested)
      case Some(k) =>
        GetMeansPresent(rest, k);
        var i :| 0 <= i < |rest| && rest[i].0 == k;
        assert products[i + 1].0 == k;
      case None =>
        forall k ensures requested !in NamesOf(products, k) {
          assert requested !in NamesOf(rest, k);
        }
    }
  }

  lemma {:induction false} CompatibleKeysMeans(products: Products, requested: Key, k: Key)
    ensures k in CompatibleKeys(products, requested) <==>
      Has(products, k) && Compatible(k, requested, Some(requested.codename))
  {
    if products != [] { CompatibleKeysMeans(products[1..], requested, k); }
  }

  lemma AbsorbNames(products: Products, canonical: Key, other: Key, k: Key)
    requires Has(products, canonical) && Has(products, other) && other != canonical
    ensures Has(Absorb(products, canonical, other), k) <==> Has(products, k) && k != other
    ensures NamesOf(Absorb(products, canonical, other), k) ==
      if k == canonical then NamesOf(products, canonical) + {other} + NamesOf(products, other)
      else if k == other then {}
      else NamesOf(products, k)
    ensures k != canonical && k != other ==> Get(Absorb(products, canonical, other), k) == Get(products, k)
    ensures Get(Absorb(products, canonical, other), canonical) ==
      Some(MergeProduct(Get(products, canonical).value, Get(products, other).value, other))
  {
    var merged := MergeProduct(Get(products, canonical).value, Get(products, other).value, other);
    GetPut(Drop(products, other), canonical, merged, k);
    GetPut(Drop(products, other), canonical, merged, canonical);
    GetDrop(products, other, k);
  }

  lemma AbsorbAdds(target: Product, source: Product, sourceKey: Key, log: seq<Observation>)
    requires Adds(target, log) && Adds(source, log)
    requires sourceKey in Names(source) && Names(target) !! Names(source)
    ensures Adds(MergeProduct(target, source, sourceKey), log)
  {
    var merged := MergeProduct(target, source, sourceKey);
    assert Names(merged) == Names(target) + Names(source);
    TallyUnion(log, Names(target), Names(source));
    MergeVersionsAddsUp(target.versions, source.versions);
  }

  lemma AbsorbUnique(products: Products, canonical: Key, other: Key)
    requires UniqueKeys(products) && Has(products, canonical) && Has(products, other) && other != canonical
    ensures UniqueKeys(Absorb(products, canonical, other))
  {
    DropUnique(products, other);
    PutUnique(Drop(products, other), canonical,
      MergeProduct(Get(products, canonical).value, Get(products, other).value, other));
  }

  lemma AbsorbNamed(products: Products, canonical: Key, other: Key, k: Key)
    requires Has(products, canonical) && Has(products, other) && other != canonical
    requires Quality(other) < Quality(canonical) && NamedBy(products, other)
    requires NamedBy(products, k) && k != other
    ensures NamedBy(Absorb(products, canonical, other), k)
  {
    AbsorbNames(products, canonical, other, k);
  }

  lemma AbsorbApart(products: Products, canonical: Key, other: Key)
    requires Apart(products) && Has(products, canonical) && Has(products, other) && other != canonical
    requires other in NamesOf(products, other)
    ensures Apart(Absorb(products, canonical, other))
  {
    var after := Absorb(products, canonical, other);
    forall k, j | Has(after, k) && Has(after, j) && k != j ensures NamesOf(after, k) !! NamesOf(after, j) {
      AbsorbNames(products, canonical, other, k);
      AbsorbNames(products, canonical, other, j);
    }
  }

  lemma AbsorbCovered(products: Products, log: seq<Observation>, canonical: Key, other: Key)
    requires Covered(products, log) && Has(products, canonical) && Has(products, other) && other != canonical
    requires other in NamesOf(products, other)
    ensures Covered(Absorb(products, canonical, other), log)
  {
    var after := Absorb(products, canonical, other);
    AbsorbNames(products, canonical, other, canonical);
    forall key ensures Recorded(log, key) <==> exists k :: key in NamesOf(after, k) {
      if k :| key in NamesOf(products, k) {
        AbsorbNames(products, canonical, other, k);
        assert key in NamesOf(after, if k == other then canonical else k);
      }
      if k :| key in NamesOf(after, k) {
        AbsorbNames(products, canonical, other, k);
        assert key in NamesOf(products, k) || key in NamesOf(products, other);
      }
    }
  }

  lemma AbsorbedAdds(products: Products, log: seq<Observation>, canonical: Key, other: Key, k: Key)
    requires Has(products, canonical) && Has(products, other) && other != canonical && Apart(products)
    requires other in NamesOf(products, other)
    requires forall j :: Has(products, j) ==> Adds(Get(products, j).value, log)
    requires Has(Absorb(products, canonical, other), k)
    ensures Adds(Get(Absorb(products, canonical, other), k).value, log)
  {
    AbsorbNames(products, canonical, other, k);
    if k == canonical {
      assert NamesOf(products, canonical) !! NamesOf(products, other);
      AbsorbAdds(Get(products, canonical).value, Get(products, other).value, other, log);
    }
  }

  /** A product that has no alias yet absorbs weaker ones. */
  lemma AbsorbNewest(products: Products, canonical: Key, other: Key)
    requires Has(products, canonical) && Has(products, other) && other != canonical
    requires Quality(other) < Quality(canonical) && NamedBy(products, other)
    requires forall a | a in NamesOf(products, canonical) :: Quality(a) < Quality(canonical)
    ensures forall a | a in NamesOf(Absorb(products, canonical, other), canonical) :: Quality(a) < Quality(canonical)
  {
    AbsorbNames(products, canonical, other, canonical);
  }

  lemma AbsorbSound(products: Products, log: seq<Observation>, canonical: Key, other: Key, newest: Option<Key>)
    requires Sound(products, log, newest)
    requires Has(products, canonical) && Has(products, other) && other != canonical
    requires Quality(other) < Quality(canonical)
    requires newest.Some? ==> newest.value == canonical
    ensures Sound(Absorb(products, canonical, other), log, newest)
  {
    var after := Absorb(products, canonical, other);
    assert NamedBy(products, other);
    AbsorbUnique(products, canonical, other);
    AbsorbApart(products, canonical, other);
    AbsorbCovered(products, log, canonical, other);
    if newest.Some? { AbsorbNewest(products, canonical, other); }
    AbsorbedNames(products, canonical, other);
    forall k | Has(after, k)
      ensures Adds(Get(after, k).value, log)
      ensures newest != Some(k) ==> NamedBy(after, k)
    {
      AbsorbedAdds(products, log, canonical, other, k);
      if newest != Some(k) { AbsorbNamed(products, canonical, other, k); }
    }
  }

  lemma AbsorbedNames(products: Products, canonical: Key, other: Key)
    requires Has(products, canonical) && Has(products, other) && other != canonical
    ensures var next := Absorb(products, canonical, other);
      && (forall k :: Has(next, k) <==> Has(products, k) && k != other)
      && (forall k :: Has(products, k) ==> NamesOf(products, k) <= NamesOf(next, if k == other then canonical else k))
  {
    var next := Absorb(products, canonical, other);
    forall k
      ensures Has(next, k) <==> Has(products, k) && k != other
      ensures Has(products, k) ==> NamesOf(products, k) <= NamesOf(next, if k == other then canonical else k)
    {
      AbsorbNames(products, canonical, other, k);
      AbsorbNames(products, canonical, other, canonical);
    }
  }

  lemma {:induction false} MergeWeakerSound(
      products: Products, log: seq<Observation>, canonical: Key, codename: string, keys: seq<Key>, newest: Option<Key>)
    requires Sound(products, log, newest) && Has(products, canonical)
    requires newest.Some? ==> newest.value == canonical
    ensures var after := MergeWeaker(products, canonical, codename, keys);
      Sound(after, log, newest) && Has(after, canonical)
    decreases |keys|
  {
    if keys != [] {
      if Weaker(keys[0], canonical, codename) && Has(products, keys[0]) {
        var next := Absorb(products, canonical, keys[0]);
        AbsorbSound(products, log, canonical, keys[0], newest);
        AbsorbNames(products, canonical, keys[0], canonical);
        MergeWeakerSound(next, log, canonical, codename, keys[1..], newest);
      } else {
        MergeWeakerSound(products, log, canonical, codename, keys[1..], newest);
      }
    }
  }

  /** Merging takes away exactly the weaker keys, loses no alias, and adds none
      that was not someone's. */
  lemma {:induction false} MergeWeakerNames(products: Products, canonical: Key, codename: string, keys: seq<Key>)
    requires Has(products, canonical)
    ensures var after := MergeWeaker(products, canonical, codename, keys);
      && Has(after, canonical)
      && (forall k :: Has(after, k) <==> Has(products, k) && !(k in keys && Weaker(k, canonical, codename)))
      && NamesOf(products, canonical) <= NamesOf(after, canonical)
      && (forall k :: Has(products, k) ==>
            NamesOf(products, k) <= NamesOf(after, if Has(after, k) then k else canonical))
    decreases |keys|
  {
    if keys != [] {
      if Weaker(keys[0], canonical, codename) && Has(products, keys[0]) {
        var next := Absorb(products, canonical, keys[0]);
        AbsorbedNames(products, canonical, keys[0]);
        MergeWeakerNames(next, canonical, codename, keys[1..]);
        var after := MergeWeaker(products, canonical, codename, keys);
        assert after == MergeWeaker(next, canonical, codename, keys[1..]);
        forall k | Has(products, k)
          ensures NamesOf(products, k) <= NamesOf(after, if Has(after, k) then k else canonical)
        {
          assert Has(next, if k == keys[0] then canonical else k);
        }
      } else {
        MergeWeakerNames(products, canonical, codename, keys[1..]);
      }
    }
  }

  // -------------------------------------------------------------- one recording

  /** The canonical key: the alias holder if there is one; otherwise a strictly
      better compatible product, or the requested identity itself, which then no
      product is better than among those compatible with it. */
  lemma CanonicalMeans(products: Products, requested: Key)
    requires UniqueKeys(products)
    ensures var c := Canonical(products, requested);
      || requested in NamesOf(products, c)
      || (&& (forall k :: requested !in NamesOf(products, k))
          && Quality(requested) <= Quality(c)
          && (c != requested ==> Has(products, c) && Compatible(c, requested, None) && Quality(requested) < Quality(c))
          && (forall k :: Has(products, k) && Compatible(k, requested, None) ==> Quality(k) <= Quality(c)))
  {
    FirstWithAliasMeans(products, requested);
    if FirstWithAlias(products, requested).None? {
      forall k ensures k in CompatibleKeys(products, requested) <==>
        Has(products, k) && Compatible(k, requested, Some(requested.codename))
      {
        CompatibleKeysMeans(products, requested, k);
      }
      var keys := CompatibleKeys(products, requested);
      if keys != [] {
        BestIsAmong(keys);
        forall i | 0 <= i < |keys| ensures Quality(keys[i]) <= Quality(Best(keys)) { BestIsBest(keys, i); }
      }
    }
  }

  /** Adding the canonical product, if it is new, without an alias yet. */
  lemma WithProductSound(products: Products, log: seq<Observation>, requested: Key)
    requires Sound(products, log, None)
    ensures var c := Canonical(products, requested);
      Sound(WithProduct(products, c), log, if Has(products, c) then None else Some(c))
    ensures forall k :: NamesOf(WithProduct(products, Canonical(products, requested)), k) == NamesOf(products, k)
    ensures forall k :: Has(WithProduct(products, Canonical(products, requested)), k) <==>
      Has(products, k) || k == Canonical(products, requested)
  {
    var c := Canonical(products, requested);
    CanonicalMeans(products, requested);
    if !Has(products, c) {
      var after := WithProduct(products, c);
      PutUnique(products, c, NEW_PRODUCT);
      forall k
        ensures Get(after, k) == if k == c then Some(NEW_PRODUCT) else Get(products, k)
        ensures NamesOf(after, k) == NamesOf(products, k)
      {
        GetPut(products, c, NEW_PRODUCT, k);
      }
      TallyUnrecorded(log, {});
      forall k | Has(after, k) && k != c ensures NamedBy(after, k) { assert NamedBy(products, k); }
    }
  }

  lemma KeysMeans(products: Products, k: Key)
    ensures k in Keys(products) <==> Has(products, k)
  {
    GetMeansPresent(products, k);
    if k in Keys(products) {
      var i :| 0 <= i < |products| && Keys(products)[i] == k;
      assert products[i].0 == k;
    }
  }

  /** After gathering: the canonical product is there, holds the requested
      identity exactly if anyone did, and only strictly weaker products are gone. */
  lemma GatheredSound(products: Products, log: seq<Observation>, o: Observation)
    requires Inv(products, log)
    ensures var c, after := Canonical(products, o.requested), Gathered(products, o);
      && Sound(after, log, if Has(products, c) then None else Some(c))
      && Has(after, c)
      && (forall k :: Has(after, k) <==> (Has(products, k) || k == c) && !Weaker(k, c, o.requested.codename))
      && (forall k :: Has(products, k) ==> NamesOf(products, k) <= NamesOf(after, if Has(after, k) then k else c))
      && (o.requested in NamesOf(after, c) || forall k :: o.requested !in NamesOf(after, k))
      && (o.requested != c ==> Quality(o.requested) < Quality(c))
      && EqualQuality(after)
  {
    var c := Canonical(products, o.requested);
    var present := WithProduct(products, c);
    var newest := if Has(products, c) then None else Some(c);
    CanonicalMeans(products, o.requested);
    WithProductSound(products, log, o.requested);
    MergeWeakerSound(present, log, c, o.requested.codename, Keys(present), newest);
    MergeWeakerNames(present, c, o.requested.codename, Keys(present));
    var after := Gathered(products, o);
    forall k ensures k in Keys(present) <==> Has(present, k) { KeysMeans(present, k); }
    if o.requested in NamesOf(products, c) {
      assert NamedBy(products, c);
    } else {
      assert !Recorded(log, o.requested) by {
        assert forall k :: o.requested !in NamesOf(products, k);
      }
    }
    forall a, b | Has(after, a) && Has(after, b) && Compatible(a, b, None) ensures Quality(a) == Quality(b) {
      assert !Weaker(a, c, o.requested.codename) && !Weaker(b, c, o.requested.codename);
      if !Has(products, c) && (a == c || b == c) && a != b {
        var other := if a == c then b else a;
        assert Compatible(other, c, None) by { CompatibleIsSymmetric(a, b); }
        assert Has(products, other);
      }
    }
  }

  /** With its requested name among its names, a product's tallies grow by the observation. */
  lemma ObservedTallies(names: set<Key>, log: seq<Observation>, o: Observation)
    requires o.requested in names || !Recorded(log, o.requested)
    ensures var all, longer := names + {o.requested}, log + [o];
      && Tally(longer, all) == Tally(log, names) + 1
      && (forall v :: TallyAt(longer, all, v) == TallyAt(log, names, v) + (if o.version == v then 1 else 0))
      && (forall v, f, t :: TallyTag(longer, all, v, f, t) ==
            TallyTag(log, names, v, f, t) + (if o.version == v && TagOf(o, f) == t then 1 else 0))
  {
    if o.requested in names {
      assert names + {o.requested} == names;
    } else {
      TallyUnion(log, names, {o.requested});
      TallyUnrecorded(log, {o.requested});
    }
    TallyNext(log, o, names + {o.requested});
  }

  lemma AppendedNames(aliases: seq<Key>, name: Key)
    ensures (set a | a in AppendUnique(aliases, name)) == (set a | a in aliases) + {name}
  {
  }

  lemma ObservedParts(p: Product, o: Observation)
    ensures var q := ObserveProduct(p, o);
      && Names(q) == Names(p) + {o.requested} && q.observations == p.observations + 1
      && |q.sessions| <= SESSIONS && q.merged == p.merged
  {
    AppendedNames(p.aliases, o.requested);
    assert ObserveProduct(p, o).aliases == AppendUnique(p.aliases, o.requested);
  }

  /** A product whose names, counts and versions grew by the observation. */
  lemma GrownAdds(p: Product, q: Product, log: seq<Observation>, o: Observation)
    requires Adds(p, log) && (o.requested in Names(p) || !Recorded(log, o.requested))
    requires Names(q) == Names(p) + {o.requested} && q.observations == p.observations + 1
    requires |q.sessions| <= SESSIONS && q.merged == p.merged
    requires AllBalanced(q.versions) && Observed(q.versions) == Observed(p.versions) + 1
    requires forall v :: ObservedAt(q.versions, v) == ObservedAt(p.versions, v) + (if o.version == v then 1 else 0)
    requires forall v, f, t ::
      TaggedAt(q.versions, v, f, t) ==
      TaggedAt(p.versions, v, f, t) + (if o.version == v && TagOf(o, f) == t then 1 else 0)
    ensures Adds(q, log + [o])
  {
    ObservedTallies(Names(p), log, o);
  }

  lemma ObserveAdds(p: Product, log: seq<Observation>, o: Observation)
    requires Adds(p, log)
    requires o.requested in Names(p) || !Recorded(log, o.requested)
    ensures Adds(ObserveProduct(p, o), log + [o])
  {
    ObservedParts(p, o);
    ObserveVersionsAddsUp(p, o);
    GrownAdds(p, ObserveProduct(p, o), log, o);
  }

  lemma {:induction false} RefreshAt(products: Products, keys: seq<Key>, k: Key)
    ensures Has(Refresh(products, keys), k) <==> Has(products, k)
    ensures Has(products, k) ==>
      Get(Refresh(products, keys), k) == Some(Get(products, k).value.(related := RelatedTo(keys, k)))
  {
    if products != [] { RefreshAt(products[1..], keys, k); }
  }

  lemma {:induction false} RefreshKeeps(products: Products, keys: seq<Key>)
    ensures |Refresh(products, keys)| == |products|
    ensures forall i :: 0 <= i < |products| ==> Refresh(products, keys)[i].0 == products[i].0
    ensures forall k :: Has(Refresh(products, keys), k) <==> Has(products, k)
    ensures forall k :: Has(products, k) ==>
      Get(Refresh(products, keys), k) == Some(Get(products, k).value.(related := RelatedTo(keys, k)))
  {
    if products != [] { RefreshKeeps(products[1..], keys); }
    forall k
      ensures Has(Refresh(products, keys), k) <==> Has(products, k)
      ensures Has(products, k) ==>
        Get(Refresh(products, keys), k) == Some(Get(products, k).value.(related := RelatedTo(keys, k)))
    {
      RefreshAt(products, keys, k);
    }
  }

  lemma RefreshSound(products: Products, log: seq<Observation>, keys: seq<Key>)
    requires Inv(products, log)
    ensures Inv(Refresh(products, keys), log)
    ensures forall k :: NamesOf(Refresh(products, keys), k) == NamesOf(products, k)
  {
    RefreshKeeps(products, keys);
    var after := Refresh(products, keys);
    forall k ensures NamesOf(after, k) == NamesOf(products, k) {
      assert Has(after, k) == Has(products, k);
      if Has(products, k) { assert Get(after, k).value.aliases == Get(products, k).value.aliases; }
    }
    forall k | Has(after, k) ensures Adds(Get(after, k).value, log) && NamedBy(after, k) {
      assert Adds(Get(products, k).value, log) && NamedBy(products, k);
      assert Names(Get(after, k).value) == Names(Get(products, k).value);
    }
  }

  /** The names of a product once an observation was added to another, or to it. */
  ghost function NamesWith(products: Products, c: Key, o: Observation, k: Key): set<Key> {
    if k == c then NamesOf(products, c) + {o.requested} else NamesOf(products, k)
  }

  lemma ObservedSound(products: Products, log: seq<Observation>, c: Key, o: Observation, newest: Option<Key>)
    requires Sound(products, log, newest) && EqualQuality(products) && Has(products, c)
    requires newest.Some? ==> newest.value == c && c == o.requested
    requires o.requested in NamesOf(products, c) || forall k :: o.requested !in NamesOf(products, k)
    requires o.requested != c ==> Quality(o.requested) < Quality(c)
    ensures var after := Put(products, c, ObserveProduct(Get(products, c).value, o));
      && Inv(after, log + [o])
      && (forall k :: Has(after, k) <==> Has(products, k))
      && (forall k :: NamesOf(after, k) == NamesWith(products, c, o, k))
  {
    var after := Put(products, c, ObserveProduct(Get(products, c).value, o));
    PutUnique(products, c, ObserveProduct(Get(products, c).value, o));
    ObservedNames(products, c, o);
    forall k | Has(after, k) ensures Adds(Get(after, k).value, log + [o]) && NamedBy(after, k) {
      assert Adds(Get(products, k).value, log);
      assert k != c ==> o.requested !in NamesOf(products, k);
      ObservedAdds(products, log, c, o, k);
      ObservedNamed(products, log, after, c, o, newest, k);
    }
    ObservedCovered(products, log, after, c, o);
    ObservedApart(products, after, c, o);
    SameKeysSameQuality(products, after);
  }

  lemma ObservedNames(products: Products, c: Key, o: Observation)
    requires Has(products, c)
    ensures var after := Put(products, c, ObserveProduct(Get(products, c).value, o));
      && (forall k :: Has(after, k) <==> Has(products, k))
      && (forall k :: NamesOf(after, k) == NamesWith(products, c, o, k))
  {
    var p := ObserveProduct(Get(products, c).value, o);
    var after := Put(products, c, p);
    forall k
      ensures Has(after, k) <==> Has(products, k)
      ensures NamesOf(after, k) == NamesWith(products, c, o, k)
    {
      GetPut(products, c, p, k);
    }
  }

  lemma SameKeysSameQuality(products: Products, after: Products)
    requires EqualQuality(products) && forall k :: Has(after, k) <==> Has(products, k)
    ensures EqualQuality(after)
  {
  }

  lemma ObservedApart(products: Products, after: Products, c: Key, o: Observation)
    requires Apart(products) && forall k :: Has(after, k) <==> Has(products, k)
    requires o.requested in NamesOf(products, c) || forall k :: o.requested !in NamesOf(products, k)
    requires forall k :: NamesOf(after, k) == NamesWith(products, c, o, k)
    ensures Apart(after)
  {
    forall k, j | Has(after, k) && Has(after, j) && k != j ensures NamesOf(after, k) !! NamesOf(after, j) {
      assert NamesOf(products, k) !! NamesOf(products, j);
    }
  }

  lemma OtherAdds(p: Product, log: seq<Observation>, o: Observation)
    requires Adds(p, log) && o.requested !in Names(p)
    ensures Adds(p, log + [o])
  {
    TallyNext(log, o, Names(p));
  }

  lemma ObservedAdds(products: Products, log: seq<Observation>, c: Key, o: Observation, k: Key)
    requires Has(products, c) && Has(products, k) && Adds(Get(products, k).value, log)
    requires k == c ==> o.requested in NamesOf(products, c) || !Recorded(log, o.requested)
    requires k != c ==> o.requested !in NamesOf(products, k)
    ensures var after := Put(products, c, ObserveProduct(Get(products, c).value, o));
      Has(after, k) && Adds(Get(after, k).value, log + [o])
  {
    GetPut(products, c, ObserveProduct(Get(products, c).value, o), k);
    if k == c { ObserveAdds(Get(products, c).value, log, o); } else { OtherAdds(Get(products, k).value, log, o); }
  }

  lemma ObservedNamed(
      products: Products, log: seq<Observation>, after: Products, c: Key, o: Observation, newest: Option<Key>, k: Key)
    requires Sound(products, log, newest) && Has(products, k)
    requires o.requested != c ==> Quality(o.requested) < Quality(c)
    requires newest.Some? ==> newest.value == c && c == o.requested
    requires NamesOf(after, k) == NamesWith(products, c, o, k)
    ensures NamedBy(after, k)
  {
    if newest != Some(k) { assert NamedBy(products, k); }
  }

  lemma ObservedCovered(products: Products, log: seq<Observation>, after: Products, c: Key, o: Observation)
    requires Covered(products, log)
    requires forall k :: NamesOf(after, k) == NamesWith(products, c, o, k)
    ensures Covered(after, log + [o])
  {
    forall key ensures Recorded(log + [o], key) <==> exists k :: key in NamesOf(after, k) {
      if Recorded(log, key) {
        var k :| key in NamesOf(products, k);
        assert key in NamesOf(after, k);
        var e :| e in log && e.requested == key;
        assert e in log + [o];
      }
      if key == o.requested { assert key in NamesOf(after, c) && o in log + [o]; }
      if k :| key in NamesOf(after, k) && key != o.requested { assert key in NamesOf(products, k); }
    }
  }

  /** One observation keeps everything, and no name ever leaves the product
      that holds it except together with that product. */
  lemma RecordSound(products: Products, log: seq<Observation>, o: Observation)
    requires Inv(products, log)
    ensures Inv(Record(products, o), log + [o])
    ensures var c, after := Canonical(products, o.requested), Record(products, o);
      && Has(after, c) && o.requested in NamesOf(after, c)
      && (forall k :: Has(products, k) ==> NamesOf(products, k) <= NamesOf(after, if Has(after, k) then k else c))
  {
    var c := Canonical(products, o.requested);
    var gathered := Gathered(products, o);
    GatheredSound(products, log, o);
    CanonicalMeans(products, o.requested);
    ObservedSound(gathered, log, c, o, if Has(products, c) then None else Some(c));
    var observed := Put(gathered, c, ObserveProduct(Get(gathered, c).value, o));
    RefreshSound(observed, log + [o], Keys(observed));
    RefreshKeeps(observed, Keys(observed));
  }

  // ------------------------------------------------------- every reachable memory

  lemma EmptySound()
    ensures Inv([], [])
  {
  }

  lemma RecordKeeps(products: Products, log: seq<Observation>, o: Observation)
    requires Inv(products, log)
    ensures Inv(Record(products, o), log + [o])
  {
    RecordSound(products, log, o);
  }

  lemma RecordAllNext(log: seq<Observation>, o: Observation)
    ensures RecordAll([], log + [o]) == Record(RecordAll([], log), o)
  {
    assert (log + [o])[..|log|] == log;
  }

  lemma ReachableNext(log: seq<Observation>, o: Observation)
    requires Inv(RecordAll([], log), log)
    ensures Inv(RecordAll([], log + [o]), log + [o])
  {
    RecordKeeps(RecordAll([], log), log, o);
    RecordAllNext(log, o);
  }

  lemma {:induction false} ReachableSound(log: seq<Observation>)
    ensures Inv(RecordAll([], log), log)
  {
    if log == [] {
      EmptySound();
    } else {
      var init, o := log[..|log| - 1], log[|log| - 1];
      ReachableSound(init);
      assert log == init + [o];
      ReachableNext(init, o);
    }
  }

  /** Products judged compatible have equal identity quality, in whatever order
      keys, alias hits and merges came. */
  lemma CompatibleProductsHaveEqualQuality(log: seq<Observation>, a: Key, b: Key)
    requires Has(RecordAll([], log), a) && Has(RecordAll([], log), b) && Compatible(a, b, None)
    ensures Quality(a) == Quality(b)
  {
    ReachableSound(log);
  }

  /** Every identity ever recorded is an alias of exactly one product, its own or
      a strictly better one; looking it up finds that product. */
  lemma AliasesPartitionWhatWasRecorded(log: seq<Observation>, key: Key)
    requires Recorded(log, key)
    ensures var products := RecordAll([], log); var owner := Canonical(products, key);
      && key in NamesOf(products, owner)
      && (forall k :: key in NamesOf(products, k) ==> k == owner)
      && (key != owner ==> Quality(key) < Quality(owner))
      && Lookup(products, key) == Get(products, owner) && Lookup(products, key).Some?
  {
    var products := RecordAll([], log);
    ReachableSound(log);
    FirstWithAliasMeans(products, key);
    var owner := Canonical(products, key);
    var k :| key in NamesOf(products, k);
    assert NamedBy(products, owner);
  }

  /** Nothing else is an alias: a product answers only for what was recorded. */
  lemma OnlyRecordedIdentitiesAreAliases(log: seq<Observation>, owner: Key, key: Key)
    requires key in NamesOf(RecordAll([], log), owner)
    ensures Recorded(log, key)
  {
    ReachableSound(log);
  }

  lemma LookupAfterOne(log: seq<Observation>, o: Observation, key: Key)
    requires Recorded(log, key)
    ensures Recorded(log + [o], key)
    ensures Lookup(RecordAll([], log), key).Some? && Lookup(RecordAll([], log + [o]), key).Some?
    ensures Names(Lookup(RecordAll([], log), key).value) <= Names(Lookup(RecordAll([], log + [o]), key).value)
  {
    var before, after := RecordAll([], log), RecordAll([], log + [o]);
    assert (log + [o])[..|log|] == log;
    assert after == Record(before, o);
    var e :| e in log && e.requested == key;
    assert e in log + [o];
    AliasesPartitionWhatWasRecorded(log, key);
    AliasesPartitionWhatWasRecorded(log + [o], key);
    ReachableSound(log);
    RecordSound(before, log, o);
    var owner := Canonical(before, key);
    var heir := if Has(after, owner) then owner else Canonical(before, o.requested);
    assert NamesOf(before, owner) <= NamesOf(after, heir);
    assert heir == Canonical(after, key);
  }

  /** A later lookup finds the product that absorbed the earlier one: it has all
      its names, however many merges happened in between. */
  lemma {:induction false} LookupFollowsMerges(log: seq<Observation>, more: seq<Observation>, key: Key)
    requires Recorded(log, key)
    ensures Recorded(log + more, key)
    ensures Lookup(RecordAll([], log), key).Some? && Lookup(RecordAll([], log + more), key).Some?
    ensures Names(Lookup(RecordAll([], log), key).value) <= Names(Lookup(RecordAll([], log + more), key).value)
    decreases |more|
  {
    if more == [] {
      assert log + more == log;
      AliasesPartitionWhatWasRecorded(log, key);
    } else {
      var init, last := log + more[..|more| - 1], more[|more| - 1];
      assert log + more == init + [last];
      LookupFollowsMerges(log, more[..|more| - 1], key);
      LookupAfterOne(init, last, key);
    }
  }

  /** The ledger: a product has as many observations as recordings of its names
      were made; so has each of its versions; the versions add up to the product
      and every count map of a version to that version. */
  lemma ObservationsAreConserved(log: seq<Observation>, key: Key)
    requires Has(RecordAll([], log), key)
    ensures var p := Get(RecordAll([], log), key).value;
      && p.observations == Tally(log, Names(p)) == Observed(p.versions)
      && (forall v :: ObservedAt(p.versions, v) == TallyAt(log, Names(p), v))
      && (forall v, f, t :: TaggedAt(p.versions, v, f, t) == TallyTag(log, Names(p), v, f, t))
      && (forall v :: Has(p.versions, v) ==> Balanced(Get(p.versions, v).value))
      && |p.sessions| <= SESSIONS && |p.merged| <= MERGES
  {
    ReachableSound(log);
  }

  /** The identities listed as related are the other compatible products, and
      all of the same quality. */
  lemma RelatedIdentitiesAreEquals(log: seq<Observation>, key: Key, other: Key)
    requires log != [] && Has(RecordAll([], log), key)
    ensures var products := RecordAll([], log);
      (other in Get(products, key).value.related <==>
        Has(products, other) && other != key && Compatible(other, key, None))
    ensures other in Get(RecordAll([], log), key).value.related ==> Quality(other) == Quality(key)
  {
    var init, o := log[..|log| - 1], log[|log| - 1];
    ReachableSound(init);
    ReachableSound(log);
    GatheredSound(RecordAll([], init), init, o);
    var c, gathered := Canonical(RecordAll([], init), o.requested), Gathered(RecordAll([], init), o);
    var observed := Put(gathered, c, ObserveProduct(Get(gathered, c).value, o));
    RefreshKeeps(observed, Keys(observed));
    KeysMeans(observed, other);
  }

  /** A profile never recorded is answered from memory exactly when a strictly
      better compatible product is known. */
  lemma UnseenProfilesBorrowFromBetterProducts(log: seq<Observation>, key: Key)
    requires !Recorded(log, key)
    ensures var products := RecordAll([], log);
      Lookup(products, key).Some? <==>
        exists k :: Has(products, k) && Compatible(k, key, None) && Quality(k) > Quality(key)
  {
    var products := RecordAll([], log);
    ReachableSound(log);
    assert forall k :: key !in NamesOf(products, k);
    CanonicalMeans(products, key);
    var c := Canonical(products, key);
    if Has(products, c) {
      assert NamedBy(products, c);
      assert Has(products, c) && Compatible(c, key, None) && Quality(c) > Quality(key);
    }
  }

  /** What was just observed is the newest entry of the product's sessions and of
      the version's three histories, however full they were. */
  lemma NewestEntriesAreKept(log: seq<Observation>, o: Observation)
    ensures var products := RecordAll([], log); var c := Canonical(products, o.requested);
      var after := Record(products, o);
      && Has(after, c)
      && var p := Get(after, c).value;
      && p.sessions != [] && p.sessions[|p.sessions| - 1] == o.session
      && Has(p.versions, o.version)
      && var v := Get(p.versions, o.version).value;
      && v.artifacts != [] && v.artifacts[|v.artifacts| - 1] == o.artifact
      && v.sources != [] && v.sources[|v.sources| - 1] == o.source
      && v.restores != [] && v.restores[|v.restores| - 1] == o.restore
  {
    var products := RecordAll([], log);
    ReachableSound(log);
    GatheredSound(products, log, o);
    var c, gathered := Canonical(products, o.requested), Gathered(products, o);
    var p := ObserveProduct(Get(gathered, c).value, o);
    var observed := Put(gathered, c, p);
    GetPut(gathered, c, p, c);
    RefreshKeeps(observed, Keys(observed));
    GetPut(Get(gathered, c).value.versions, o.version,
      ObserveVersion(VersionOf(Get(gathered, c).value, o.version), o), o.version);
  }
}
