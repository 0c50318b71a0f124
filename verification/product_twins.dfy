/** Which recorded identities end up as one product and which stay apart, said by
    the parts that are known of them. */
module ProductTwins {
  import opened Common
  import opened Ordered
  import opened ProductIdentity
  import opened ProductMemory
  import opened ProductLedger

  /** Which parts of an identity say something. */
  datatype Parts = Parts(maker: bool, model: bool, codename: bool)

  const EVERYTHING := Parts(true, true, true)

  function Known(k: Key): Parts {
    Parts(Specific(k.manufacturer), Specific(k.model), Specific(k.codename))
  }

  /** The first knows nothing the second does not, and less. */
  predicate Poorer(p: Parts, q: Parts) {
    p != q && (p.maker ==> q.maker) && (p.model ==> q.model) && (p.codename ==> q.codename)
  }

  function Amount(p: Parts): nat {
    (if p.maker then 1 else 0) + (if p.model then 1 else 0) + (if p.codename then 1 else 0)
  }

  /** Two identities share a known codename, or a known maker and model. */
  predicate SameDevice(a: Key, b: Key) {
    || (Known(a).codename && a.codename == b.codename)
    || (Known(a).maker && Known(a).model && a.manufacturer == b.manufacturer && a.model == b.model)
  }

  // ------------------------------------------------------------------ the order

  /** One identity is better than another if and only if it knows all the other does
      and more, or alone knows the codename and knows at least as many parts. */
  lemma BetterMeans(a: Key, b: Key)
    ensures Quality(a) < Quality(b) <==>
      || Poorer(Known(a), Known(b))
      || (Known(b).codename && !Known(a).codename && Amount(Known(a)) <= Amount(Known(b)))
  {
  }

  // ------------------------------------------------------------- what coexists

  /** Two products of one device know equally much; two of the same known maker and
      model know the same parts, so never the codename of only one of them. */
  lemma PoorerTwinsNeverCoexist(log: seq<Observation>, a: Key, b: Key)
    requires Has(RecordAll([], log), a) && Has(RecordAll([], log), b) && SameDevice(a, b)
    ensures Amount(Known(a)) == Amount(Known(b))
    ensures a.manufacturer == b.manufacturer && a.model == b.model ==> Known(a) == Known(b)
  {
    CompatibleProductsHaveEqualQuality(log, a, b);
  }

  /** A fully known identity, once recorded, is a product; no poorer identity of the
      same device is one any longer, though its observations are still found. */
  lemma FullIdentityAbsorbs(log: seq<Observation>, full: Key, other: Key)
    requires Recorded(log, full) && Known(full) == EVERYTHING
    requires Recorded(log, other) && SameDevice(other, full) && Known(other) != EVERYTHING
    ensures var products := RecordAll([], log);
      && Has(products, full) && !Has(products, other)
      && Lookup(products, other).Some? && other in Lookup(products, other).value.aliases
  {
    var products := RecordAll([], log);
    AliasesPartitionWhatWasRecorded(log, full);
    AliasesPartitionWhatWasRecorded(log, other);
    BetterMeans(full, Canonical(products, full));
    if Has(products, other) { PoorerTwinsNeverCoexist(log, other, full); }
  }

  /** What is asked about a device that is known better than it is asked for is
      answered, even if it never was recorded in these words. */
  lemma PoorerProfilesAreAnswered(log: seq<Observation>, known: Key, asked: Key)
    requires Has(RecordAll([], log), known) && SameDevice(known, asked) && Poorer(Known(asked), Known(known))
    ensures Lookup(RecordAll([], log), asked).Some?
  {
    if Recorded(log, asked) {
      AliasesPartitionWhatWasRecorded(log, asked);
    } else {
      UnseenProfilesBorrowFromBetterProducts(log, asked);
      BetterMeans(asked, known);
    }
  }

  // ------------------------------------------------------------- what stays apart

  /** Nothing else recorded could be the same device. */
  ghost predicate Alone(log: seq<Observation>, key: Key) {
    forall other | Recorded(log, other) && other != key :: !SameDevice(other, key)
  }

  lemma {:induction false} MergingLeaves(
      products: Products, canonical: Key, codename: string, keys: seq<Key>, k: Key)
    requires !Weaker(k, canonical, codename)
    requires k == canonical ==>
      forall other | other in keys && Has(products, other) :: !Weaker(other, canonical, codename)
    ensures Get(MergeWeaker(products, canonical, codename, keys), k) == Get(products, k)
    decreases |keys|
  {
    if keys != [] {
      if Weaker(keys[0], canonical, codename) && Has(products, canonical) && Has(products, keys[0]) {
        AbsorbNames(products, canonical, keys[0], k);
        MergingLeaves(Absorb(products, canonical, keys[0]), canonical, codename, keys[1..], k);
      } else {
        MergingLeaves(products, canonical, codename, keys[1..], k);
      }
    }
  }

  lemma ProductsAreRecorded(products: Products, log: seq<Observation>, k: Key)
    requires Inv(products, log) && Has(products, k)
    ensures Recorded(log, k)
  {
    assert NamedBy(products, k);
  }

  lemma GatheringLeavesAlone(products: Products, log: seq<Observation>, o: Observation, key: Key)
    requires Inv(products, log) && Alone(log + [o], key)
    requires Has(products, key) ==> NamesOf(products, key) == {key}
    requires forall k :: key in NamesOf(products, k) ==> k == key
    ensures Canonical(products, o.requested) == key <==> o.requested == key
    ensures NamesOf(Gathered(products, o), key) == NamesOf(products, key)
    ensures Has(products, key) ==> Has(Gathered(products, o), key)
  {
    var c := Canonical(products, o.requested);
    var present := WithProduct(products, c);
    CanonicalMeans(products, o.requested);
    WithProductSound(products, log, o.requested);
    assert o in log + [o] && Recorded(log + [o], o.requested);
    forall k | Has(products, k) && k != key ensures !SameDevice(k, key) {
      ProductsAreRecorded(products, log, k);
      var e :| e in log && e.requested == k;
      assert e in log + [o];
    }
    assert c != key ==> !SameDevice(c, key);
    forall k | k in Keys(present) ensures Has(present, k) { KeysMeans(present, k); }
    MergingLeaves(present, c, o.requested.codename, Keys(present), key);
  }

  lemma RecordingLeavesAlone(products: Products, log: seq<Observation>, o: Observation, key: Key)
    requires Inv(products, log) && Alone(log + [o], key)
    requires Has(products, key) ==> NamesOf(products, key) == {key}
    requires forall k :: key in NamesOf(products, k) ==> k == key
    ensures Has(Record(products, o), key) ==> NamesOf(Record(products, o), key) == {key}
    ensures Has(products, key) ==> Has(Record(products, o), key)
  {
    var c, gathered := Canonical(products, o.requested), Gathered(products, o);
    GatheringLeavesAlone(products, log, o, key);
    GatheredSound(products, log, o);
    ObservedNames(gathered, c, o);
    var observed := Put(gathered, c, ObserveProduct(Get(gathered, c).value, o));
    RefreshKeeps(observed, Keys(observed));
    assert NamesOf(Record(products, o), key) == NamesOf(observed, key);
  }

  /** The key is a product under its own name and nobody else's alias. */
  ghost predicate OwnProduct(products: Products, key: Key) {
    && Has(products, key) && NamesOf(products, key) == {key}
    && forall k :: key in NamesOf(products, k) ==> k == key
  }

  ghost predicate NoProduct(products: Products, key: Key) {
    !Has(products, key) && forall k :: key !in NamesOf(products, k)
  }

  lemma UnrecordedHasNoProduct(products: Products, log: seq<Observation>, key: Key)
    requires Inv(products, log) && !Recorded(log, key)
    ensures NoProduct(products, key)
  {
    assert forall k :: key !in NamesOf(products, k);
    assert Has(products, key) ==> NamedBy(products, key);
  }

  lemma NobodyElsesAlias(products: Products, log: seq<Observation>, key: Key)
    requires Inv(products, log) && Has(products, key) && NamesOf(products, key) == {key}
    ensures OwnProduct(products, key)
  {
    assert Apart(products);
  }

  lemma RecordingKeepsOwn(products: Products, log: seq<Observation>, o: Observation, key: Key)
    requires Inv(products, log) && Alone(log + [o], key)
    requires if Recorded(log, key) then OwnProduct(products, key) else NoProduct(products, key)
    requires Recorded(log + [o], key)
    ensures OwnProduct(Record(products, o), key)
  {
    RecordingLeavesAlone(products, log, o, key);
    RecordSound(products, log, o);
    if key == o.requested { GatheringLeavesAlone(products, log, o, key); } else { assert Recorded(log, key); }
    NobodyElsesAlias(Record(products, o), log + [o], key);
  }

  /** An identity that shares neither a known codename nor a known maker and model
      with anything else recorded has a product of its own, under its name alone. */
  lemma {:induction false} UnrelatedIdentitiesStayApart(log: seq<Observation>, key: Key)
    requires Alone(log, key) && Recorded(log, key)
    ensures OwnProduct(RecordAll([], log), key)
  {
    var init, o := log[..|log| - 1], log[|log| - 1];
    assert log == init + [o];
    ReachableSound(init);
    forall other | Recorded(init, other) ensures Recorded(log, other) {
      var e :| e in init && e.requested == other;
      assert e in log;
    }
    if Recorded(init, key) {
      UnrelatedIdentitiesStayApart(init, key);
    } else {
      UnrecordedHasNoProduct(RecordAll([], init), init, key);
    }
    RecordingKeepsOwn(RecordAll([], init), init, o, key);
  }

  // -------------------------------------------------------- what is merged is the same

  /** The second is the same device as the first by the best the first knows: its
      codename, or else its maker and model. */
  predicate Agrees(a: Key, b: Key) {
    if Known(a).codename then a.codename == b.codename
    else Known(a).maker && Known(a).model && a.manufacturer == b.manufacturer && a.model == b.model
  }

  lemma AgreementPasses(a: Key, b: Key, c: Key)
    requires Agrees(a, b) && Agrees(b, c) && Quality(a) < Quality(b) < Quality(c)
    ensures Agrees(a, c)
  {
  }

  lemma WeakerAgrees(other: Key, canonical: Key, codename: string)
    requires Weaker(other, canonical, codename) && (Specific(codename) ==> canonical.codename == codename)
    ensures Agrees(other, canonical)
  {
  }

  ghost predicate Faithful(products: Products) {
    forall k, a :: a in NamesOf(products, k) && a != k ==> Agrees(a, k) && Quality(a) < Quality(k)
  }

  lemma AbsorbFaithful(products: Products, canonical: Key, other: Key)
    requires Faithful(products) && Has(products, canonical) && Has(products, other) && other != canonical
    requires Agrees(other, canonical) && Quality(other) < Quality(canonical)
    ensures Faithful(Absorb(products, canonical, other)) && Has(Absorb(products, canonical, other), canonical)
  {
    var next := Absorb(products, canonical, other);
    AbsorbNames(products, canonical, other, canonical);
    forall k, a | a in NamesOf(next, k) && a != k ensures Agrees(a, k) && Quality(a) < Quality(k) {
      AbsorbNames(products, canonical, other, k);
      if k == canonical && a in NamesOf(products, other) && a != other { AgreementPasses(a, other, canonical); }
    }
  }

  lemma {:induction false} MergingIsFaithful(products: Products, canonical: Key, codename: string, keys: seq<Key>)
    requires Faithful(products) && Has(products, canonical)
    requires Specific(codename) ==> canonical.codename == codename
    ensures Faithful(MergeWeaker(products, canonical, codename, keys))
    decreases |keys|
  {
    if keys != [] {
      if Weaker(keys[0], canonical, codename) && Has(products, keys[0]) {
        WeakerAgrees(keys[0], canonical, codename);
        AbsorbFaithful(products, canonical, keys[0]);
        MergingIsFaithful(Absorb(products, canonical, keys[0]), canonical, codename, keys[1..]);
      } else {
        MergingIsFaithful(products, canonical, codename, keys[1..]);
      }
    }
  }

  /** The canonical key is the same device as the requested one. */
  lemma CanonicalAgrees(products: Products, requested: Key)
    requires Faithful(products) && UniqueKeys(products)
    ensures var c := Canonical(products, requested);
      c != requested ==> Agrees(requested, c) && Quality(requested) < Quality(c)
  {
    CanonicalMeans(products, requested);
  }

  lemma GatheringIsFaithful(products: Products, log: seq<Observation>, o: Observation)
    requires Faithful(products) && Inv(products, log)
    ensures Faithful(Gathered(products, o))
  {
    var c := Canonical(products, o.requested);
    var present := WithProduct(products, c);
    CanonicalAgrees(products, o.requested);
    WithProductSound(products, log, o.requested);
    MergingIsFaithful(present, c, o.requested.codename, Keys(present));
  }

  /** Adding an observation under its canonical name. */
  lemma ObservingIsFaithful(products: Products, after: Products, c: Key, o: Observation)
    requires Faithful(products)
    requires c != o.requested ==> Agrees(o.requested, c) && Quality(o.requested) < Quality(c)
    requires forall k :: NamesOf(after, k) == NamesWith(products, c, o, k)
    ensures Faithful(after)
  {
    forall k, a | a in NamesOf(after, k) && a != k ensures Agrees(a, k) && Quality(a) < Quality(k) {
      assert a in NamesOf(products, k) || (k == c && a == o.requested);
    }
  }

  lemma RecordingIsFaithful(products: Products, log: seq<Observation>, o: Observation)
    requires Faithful(products) && Inv(products, log)
    ensures Faithful(Record(products, o))
  {
    var c, gathered := Canonical(products, o.requested), Gathered(products, o);
    CanonicalAgrees(products, o.requested);
    GatheringIsFaithful(products, log, o);
    GatheredSound(products, log, o);
    ObservedNames(gathered, c, o);
    var observed := Put(gathered, c, ObserveProduct(Get(gathered, c).value, o));
    RefreshedNames(observed, Keys(observed));
    ObservingIsFaithful(gathered, Record(products, o), c, o);
  }

  lemma RefreshedNames(products: Products, keys: seq<Key>)
    ensures forall k :: NamesOf(Refresh(products, keys), k) == NamesOf(products, k)
  {
    forall k ensures NamesOf(Refresh(products, keys), k) == NamesOf(products, k) { RefreshAt(products, keys, k); }
  }

  lemma {:induction false} ReachableFaithful(log: seq<Observation>)
    ensures Faithful(RecordAll([], log))
  {
    if log != [] {
      var init := log[..|log| - 1];
      ReachableFaithful(init);
      ReachableSound(init);
      RecordingIsFaithful(RecordAll([], init), init, log[|log| - 1]);
    }
  }

  /** Nothing foreign is ever merged: whatever came in between, a recorded identity is
      a product itself or belongs to a better one of its own codename or, if it has
      none, of its own maker and model. */
  lemma OwnersAreTheSameDevice(log: seq<Observation>, key: Key)
    requires Recorded(log, key)
    ensures var owner := Canonical(RecordAll([], log), key);
      && Has(RecordAll([], log), owner) && key in NamesOf(RecordAll([], log), owner)
      && (owner == key || (Agrees(key, owner) && Amount(Known(key)) < Amount(Known(owner))))
  {
    AliasesPartitionWhatWasRecorded(log, key);
    ReachableFaithful(log);
  }
}
