/** Insertion-ordered dictionaries and bounded lists, as the engine's nested
    Python dictionaries and lists behave. */
module Ordered {
  import opened Common

  type Dict<K, V> = seq<(K, V)>

  function Get<K(==), V>(d: Dict<K, V>, k: K): Option<V> {
    if d == [] then None else if d[0].0 == k then Some(d[0].1) else Get(d[1..], k)
  }

  /** Assigning to a present key keeps its place; a new key goes last. */
  function Put<K(==), V>(d: Dict<K, V>, k: K, v: V): Dict<K, V> {
    if d == [] then [(k, v)]
    else if d[0].0 == k then [(k, v)] + d[1..]
    else [d[0]] + Put(d[1..], k, v)
  }

  function Drop<K(==), V>(d: Dict<K, V>, k: K): Dict<K, V> {
    if d == [] then [] else if d[0].0 == k then Drop(d[1..], k) else [d[0]] + Drop(d[1..], k)
  }

  function Keys<K, V>(d: Dict<K, V>): (keys: seq<K>)
    ensures |keys| == |d| && forall i :: 0 <= i < |d| ==> keys[i] == d[i].0
  {
    if d == [] then [] else [d[0].0] + Keys(d[1..])
  }

  predicate Has<K(==), V>(d: Dict<K, V>, k: K) {
    Get(d, k).Some?
  }

  ghost predicate UniqueKeys<K, V>(d: Dict<K, V>) {
    forall i, j :: 0 <= i < j < |d| ==> d[i].0 != d[j].0
  }

  lemma {:induction false} GetPut<K, V>(d: Dict<K, V>, k: K, v: V, j: K)
    ensures Get(Put(d, k, v), j) == if j == k then Some(v) else Get(d, j)
  {
    if d != [] && d[0].0 != k { GetPut(d[1..], k, v, j); }
  }

  lemma {:induction false} GetDrop<K, V>(d: Dict<K, V>, k: K, j: K)
    ensures Get(Drop(d, k), j) == if j == k then None else Get(d, j)
  {
    if d != [] { GetDrop(d[1..], k, j); }
  }

  lemma {:induction false} GetMeansPresent<K, V>(d: Dict<K, V>, k: K)
    ensures Has(d, k) <==> exists i :: 0 <= i < |d| && d[i].0 == k
  {
    if d != [] {
      GetMeansPresent(d[1..], k);
      if Has(d, k) && d[0].0 != k {
        var i :| 0 <= i < |d[1..]| && d[1..][i].0 == k;
        assert d[i + 1].0 == k;
      }
      if i :| 0 <= i < |d| && d[i].0 == k && d[0].0 != k {
        assert d[1..][i - 1].0 == k;
      }
    }
  }

  lemma {:induction false} GetAt<K, V>(d: Dict<K, V>, i: nat)
    requires UniqueKeys(d) && i < |d|
    ensures Get(d, d[i].0) == Some(d[i].1)
  {
    if i > 0 {
      assert UniqueKeys(d[1..]);
      GetAt(d[1..], i - 1);
    }
  }

  lemma {:induction false} PutUnique<K, V>(d: Dict<K, V>, k: K, v: V)
    requires UniqueKeys(d)
    ensures UniqueKeys(Put(d, k, v))
  {
    if d != [] && d[0].0 != k {
      PutUnique(d[1..], k, v);
      var r := Put(d[1..], k, v);
      forall j | 0 <= j < |r| ensures r[j].0 != d[0].0 {
        GetMeansPresent(r, d[0].0);
        GetPut(d[1..], k, v, d[0].0);
        GetMeansPresent(d[1..], d[0].0);
      }
    }
  }

  lemma {:induction false} DropUnique<K, V>(d: Dict<K, V>, k: K)
    requires UniqueKeys(d)
    ensures UniqueKeys(Drop(d, k))
  {
    if d != [] {
      DropUnique(d[1..], k);
      var r := Drop(d[1..], k);
      forall j | 0 <= j < |r| ensures r[j].0 != d[0].0 {
        GetMeansPresent(r, d[0].0);
        GetDrop(d[1..], k, d[0].0);
        GetMeansPresent(d[1..], d[0].0);
      }
    }
  }

  function Total(counts: Dict<string, nat>): nat {
    if counts == [] then 0 else counts[0].1 + Total(counts[1..])
  }

  function Or(n: Option<nat>): nat {
    if n.Some? then n.value else 0
  }

  lemma {:induction false} TotalPut(counts: Dict<string, nat>, k: string, n: nat)
    ensures Total(Put(counts, k, n)) == Total(counts) - Or(Get(counts, k)) + n
    ensures Or(Get(counts, k)) <= Total(counts)
  {
    if counts != [] && counts[0].0 != k { TotalPut(counts[1..], k, n); }
  }

  function AppendUnique<T(==)>(values: seq<T>, value: T): seq<T> {
    if value in values then values else values + [value]
  }

  function AppendAll<T(==,!new)>(values: seq<T>, more: seq<T>): (r: seq<T>)
    ensures forall x :: x in r <==> x in values || x in more
    decreases |more|
  {
    if more == [] then values else AppendAll(AppendUnique(values, more[0]), more[1..])
  }

  function Latest<T>(values: seq<T>, limit: nat): (r: seq<T>)
    ensures |r| <= limit && |r| <= |values| && r == values[|values| - |r|..]
    ensures |r| < limit ==> r == values
  {
    if |values| <= limit then values else values[|values| - limit..]
  }

  function RemoveFirst<T(==)>(values: seq<T>, value: T): seq<T> {
    if values == [] then []
    else if values[0] == value then values[1..]
    else [values[0]] + RemoveFirst(values[1..], value)
  }
}

/** The identity of a product: a slug for its maker, its model and its codename. */
module ProductIdentity {
  import opened Common

  predicate IsSpace(c: char) {
    c == ' ' || '\t' <= c <= '\r' || 28 as char <= c <= 31 as char
  }

  /** The words of a string, joined by one dash each; `begun` says that a word came before. */
  function Joined(s: string, begun: bool, inWord: bool): string {
    if s == [] then []
    else if IsSpace(s[0]) then Joined(s[1..], begun, false)
    else (if begun && !inWord then ['-'] else []) +
         [if s[0] == '_' then '-' else Lower(s[0])] + Joined(s[1..], true, true)
  }

  function Slug(s: string): string {
    var joined := Joined(s, false, false);
    if joined == [] then "unknown" else joined
  }

  predicate Settled(s: string) {
    forall c | c in s :: !IsSpace(c) && c != '_' && Lower(c) == c
  }

  lemma {:induction false} JoinedIsSettled(s: string, begun: bool, inWord: bool)
    ensures Settled(Joined(s, begun, inWord))
  {
    if s != [] {
      JoinedIsSettled(s[1..], begun, false);
      JoinedIsSettled(s[1..], true, true);
    }
  }

  lemma {:induction false} JoinedKeepsSettled(s: string, begun: bool)
    requires Settled(s)
    ensures Joined(s, begun, begun) == s
  {
    if s != [] {
      assert s[0] in s;
      assert Settled(s[1..]);
      JoinedKeepsSettled(s[1..], true);
    }
  }

  /** Parts of a key are slugs already, so testing them through `_slug` again is harmless. */
  lemma SlugTwice(s: string)
    ensures Slug(Slug(s)) == Slug(s) && Slug(s) != ""
  {
    JoinedIsSettled(s, false, false);
    assert Settled("unknown");
    JoinedKeepsSettled(Slug(s), false);
  }

  predicate Blank(s: string) {
    forall c | c in s :: IsSpace(c)
  }

  /** Whether a word came before, and whether one is under way, after a string. */
  ghost function After(s: string, begun: bool, inWord: bool): (bool, bool) {
    if s == [] then (begun, inWord)
    else if IsSpace(s[0]) then After(s[1..], begun, false)
    else After(s[1..], true, true)
  }

  lemma {:induction false} JoinedAppend(a: string, b: string, begun: bool, inWord: bool)
    ensures var (begun', inWord') := After(a, begun, inWord);
      Joined(a + b, begun, inWord) == Joined(a, begun, inWord) + Joined(b, begun', inWord')
  {
    if a == [] {
      assert a + b == b;
    } else {
      assert (a + b)[1..] == a[1..] + b;
      if IsSpace(a[0]) { JoinedAppend(a[1..], b, begun, false); } else { JoinedAppend(a[1..], b, true, true); }
    }
  }

  lemma {:induction false} JoinedBlank(s: string, begun: bool, inWord: bool)
    ensures Joined(s, begun, inWord) == [] <==> Blank(s)
    ensures After(s, begun, inWord).0 <==> begun || !Blank(s)
    ensures Blank(s) && s != [] ==> !After(s, begun, inWord).1
  {
    if s != [] {
      assert s[0] in s && Blank(s) == (IsSpace(s[0]) && Blank(s[1..])) by {
        assert forall c :: c in s <==> c == s[0] || c in s[1..];
      }
      if IsSpace(s[0]) { JoinedBlank(s[1..], begun, false); } else { JoinedBlank(s[1..], true, true); }
    }
  }

  /** A word that follows blanks is set off by a dash if one came before. */
  lemma {:induction false} JoinedAfterBlank(s: string)
    requires !Blank(s)
    ensures Joined(s, true, false) == "-" + Joined(s, false, false)
  {
    if IsSpace(s[0]) {
      assert s == [s[0]] + s[1..];
      JoinedAfterBlank(s[1..]);
    }
  }

  lemma JoinedAcrossBlanks(a: string, blank: string, b: string)
    requires blank != [] && Blank(blank)
    ensures Joined(a + (blank + b), false, false) == Joined(a, false, false) + Joined(b, !Blank(a), false)
  {
    var (begun, inWord) := After(a, false, false);
    JoinedAppend(a, blank + b, false, false);
    JoinedAppend(blank, b, begun, inWord);
    JoinedBlank(a, false, false);
    JoinedBlank(blank, begun, inWord);
  }

  lemma JoinedSecond(begun: bool, b: string)
    ensures Joined(b, begun, false) ==
      if Blank(b) then [] else if begun then "-" + Joined(b, false, false) else Joined(b, false, false)
  {
    JoinedBlank(b, begun, false);
    if !Blank(b) && begun { JoinedAfterBlank(b); }
  }

  /** Words are joined by one dash, whichever and however many blanks part them. */
  lemma SlugJoinsWords(a: string, blank: string, b: string)
    requires blank != [] && Blank(blank)
    ensures Slug(a + (blank + b)) ==
      if Blank(a) then Slug(b) else if Blank(b) then Slug(a) else Slug(a) + "-" + Slug(b)
  {
    var first, second := Joined(a, false, false), Joined(b, false, false);
    JoinedAcrossBlanks(a, blank, b);
    JoinedBlank(a, false, false);
    JoinedBlank(b, false, false);
    JoinedSecond(!Blank(a), b);
    var none: string := [];
    assert first + none == first && none + second == second;
    assert first + ("-" + second) == first + "-" + second;
  }

  lemma {:induction false} JoinedWord(s: string, begun: bool, i: nat)
    requires forall c | c in s :: !IsSpace(c)
    ensures |Joined(s, begun, begun)| == |s|
    ensures i < |s| ==> Joined(s, begun, begun)[i] == if s[i] == '_' then '-' else Lower(s[i])
  {
    if s != [] { JoinedWord(s[1..], true, if i == 0 then 0 else i - 1); }
  }

  /** A word keeps its letters, in lower case, and an underscore becomes a dash. */
  lemma SlugOfWord(s: string, i: nat)
    requires s != [] && forall c | c in s :: !IsSpace(c)
    ensures |Slug(s)| == |s| && (i < |s| ==> Slug(s)[i] == if s[i] == '_' then '-' else Lower(s[i]))
  {
    JoinedWord(s, false, i);
  }

  datatype Key = Key(manufacturer: string, model: string, codename: string)

  const VAGUE: set<string> :=
    {"", "unknown", "none", "null", "usb-attached-android", "android", "generic", "device"}

  predicate Specific(part: string) {
    Slug(part) !in VAGUE
  }

  function Quality(k: Key): nat {
    (if Specific(k.manufacturer) then 1 else 0) +
    (if Specific(k.model) then 1 else 0) +
    (if Specific(k.codename) then 2 else 0)
  }

  /** `codename` is the profile's, when there is a profile. */
  predicate Compatible(existing: Key, requested: Key, codename: Option<string>) {
    || (Specific(existing.codename) && existing.codename == requested.codename)
    || (&& Specific(existing.manufacturer) && Specific(existing.model)
        && existing.manufacturer == requested.manufacturer && existing.model == requested.model)
    || (codename.Some? && Specific(codename.value) && existing.codename == codename.value)
  }

  lemma CompatibleIsSymmetric(a: Key, b: Key)
    ensures Compatible(a, b, None) == Compatible(b, a, None)
  {
  }

  /** Two products that a third one is compatible with need not be compatible
      with each other: one lacks a codename, the other everything else. */
  lemma CompatibleIsNotTransitive(maker: string, model: string, codename: string, vague: string)
    requires Specific(maker) && Specific(model) && Specific(codename) && !Specific(vague)
    ensures var a, b, c := Key(maker, model, vague), Key(maker, model, codename), Key(vague, vague, codename);
      Compatible(a, b, None) && Compatible(b, c, None) && !Compatible(a, c, None)
  {
  }
}
