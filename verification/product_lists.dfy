/** The name and session lists of the products of a memory. */
module ProductLists {
  import opened Common
  import opened Ordered
  import opened ProductIdentity
  import opened ProductMemory
  import opened ProductLedger

  lemma AppendUniqueDistinct<T>(values: seq<T>, value: T)
    requires Distinct(values)
    ensures Distinct(AppendUnique(values, value))
  {
  }

  lemma {:induction false} AppendAllDistinct<T(!new)>(values: seq<T>, more: seq<T>)
    requires Distinct(values)
    ensures Distinct(AppendAll(values, more)) && values <= AppendAll(values, more)
    decreases |more|
  {
    if more != [] {
      AppendUniqueDistinct(values, more[0]);
      AppendAllDistinct(AppendUnique(values, more[0]), more[1..]);
    }
  }

  /** Of values without repetition, the others in their order. */
  lemma {:induction false} RemoveFirstDistinct<T>(values: seq<T>, value: T)
    requires Distinct(values)
    ensures var r := RemoveFirst(values, value);
      && Distinct(r) && value !in r && |r| == (if value in values then |values| - 1 else |values|)
      && forall x :: x in r <==> x in values && x != value
  {
    if values != [] {
      var rest := values[1..];
      assert forall i, j :: 0 <= i < j < |rest| ==> rest[i] == values[i + 1] && rest[j] == values[j + 1];
      assert values[0] !in rest;
      RemoveFirstDistinct(rest, value);
      assert values == [values[0]] + rest;
    }
  }

  ghost predicate Tidy(p: Product) {
    Distinct(p.sessions) && Distinct(p.aliases)
  }

  ghost predicate AllTidy(products: Products) {
    forall k :: Has(products, k) ==> Tidy(Get(products, k).value)
  }

  lemma MergeTidy(target: Product, source: Product, sourceKey: Key)
    requires Tidy(target)
    ensures Tidy(MergeProduct(target, source, sourceKey))
  {
    AppendAllDistinct(target.sessions, Named(source.sessions));
    AppendUniqueDistinct(target.aliases, sourceKey);
    AppendAllDistinct(AppendUnique(target.aliases, sourceKey), source.aliases);
  }

  lemma {:induction false} MergeWeakerTidy(products: Products, canonical: Key, codename: string, keys: seq<Key>)
    requires AllTidy(products)
    ensures AllTidy(MergeWeaker(products, canonical, codename, keys))
    decreases |keys|
  {
    if keys != [] {
      if Weaker(keys[0], canonical, codename) && Has(products, canonical) && Has(products, keys[0]) {
        MergeTidy(Get(products, canonical).value, Get(products, keys[0]).value, keys[0]);
        var next := Absorb(products, canonical, keys[0]);
        forall k | Has(next, k) ensures Tidy(Get(next, k).value) {
          AbsorbNames(products, canonical, keys[0], k);
        }
        MergeWeakerTidy(next, canonical, codename, keys[1..]);
      } else {
        MergeWeakerTidy(products, canonical, codename, keys[1..]);
      }
    }
  }

  lemma ObserveTidy(p: Product, o: Observation)
    requires Tidy(p)
    ensures Tidy(ObserveProduct(p, o))
  {
    RemoveFirstDistinct(p.sessions, o.session);
    AppendUniqueDistinct(p.aliases, o.requested);
  }

  lemma PutTidy(products: Products, k: Key, p: Product)
    requires AllTidy(products) && Tidy(p)
    ensures AllTidy(Put(products, k, p))
  {
    forall j | Has(Put(products, k, p), j) ensures Tidy(Get(Put(products, k, p), j).value) {
      GetPut(products, k, p, j);
    }
  }

  lemma RecordTidy(products: Products, o: Observation)
    requires AllTidy(products)
    ensures AllTidy(Record(products, o))
  {
    var c, gathered := Canonical(products, o.requested), Gathered(products, o);
    PutTidy(products, c, NEW_PRODUCT);
    MergeWeakerTidy(WithProduct(products, c), c, o.requested.codename, Keys(WithProduct(products, c)));
    if Has(gathered, c) {
      var p := ObserveProduct(Get(gathered, c).value, o);
      ObserveTidy(Get(gathered, c).value, o);
      PutTidy(gathered, c, p);
      RefreshKeeps(Put(gathered, c, p), Keys(Put(gathered, c, p)));
    }
  }

  /** In every reachable memory no session and no name is listed twice. */
  lemma {:induction false} NothingIsListedTwice(log: seq<Observation>, k: Key)
    requires Has(RecordAll([], log), k)
    ensures var p := Get(RecordAll([], log), k).value; Distinct(p.sessions) && Distinct(p.aliases)
  {
    ReachableTidy(log);
  }

  lemma {:induction false} ReachableTidy(log: seq<Observation>)
    ensures AllTidy(RecordAll([], log))
  {
    if log != [] {
      ReachableTidy(log[..|log| - 1]);
      RecordTidy(RecordAll([], log[..|log| - 1]), log[|log| - 1]);
    }
  }
}
