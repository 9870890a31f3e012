/** A JavaScript `Map` as a value: its keys in insertion order and the value
    stored under each key. `set` on a present key replaces the value and
    keeps the key where it is; on a new key it appends the key. Building a
    `Map` from an iterable of entries (`new Map(entries)`) sets the entries
    one after the other, and spreading a `Map` (`[...m]`) lists its entries
    in key order. */
module OrderedMaps {
  import opened Seqs

  datatype OrderedMap<K(==,!new), V> = OrderedMap(keys: seq<K>, values: map<K, V>)
  {
    /** Each key is listed once, and the listed keys are exactly the stored ones. */
    ghost predicate Valid()
    {
      Distinct(keys) && forall k :: k in values <==> k in keys
    }

    /** `Map.prototype.set`. */
    function Set(k: K, v: V): OrderedMap<K, V>
    {
      OrderedMap(if k in values then keys else keys + [k], values[k := v])
    }

    /** `[...m]`: the `[key, value]` pairs in key order. */
    function Entries(): seq<(K, V)>
      requires Valid()
    {
      seq(|keys|, i requires 0 <= i < |keys| => (keys[i], values[keys[i]]))
    }
  }

  /** `new Map()`. */
  function Empty<K(==,!new), V>(): OrderedMap<K, V>
  {
    OrderedMap([], map[])
  }

  /** The keys of a list of entries, in order and with repetitions. */
  function KeysOf<K, V>(es: seq<(K, V)>): seq<K>
  {
    if es == [] then [] else [es[0].0] + KeysOf(es[1..])
  }

  /** `m` after `set` has been called with each entry of `es` in turn. */
  function SetAll<K(==,!new), V>(m: OrderedMap<K, V>, es: seq<(K, V)>): OrderedMap<K, V>
    decreases |es|
  {
    if es == [] then m
    else SetAll(m.Set(es[0].0, es[0].1), es[1..])
  }

  /** `new Map(es)`. */
  function FromEntries<K(==,!new), V>(es: seq<(K, V)>): OrderedMap<K, V>
  {
    SetAll(Empty(), es)
  }

  /** `new Map([...a, ...b])`. */
  function Merge<K(==,!new), V>(a: OrderedMap<K, V>, b: OrderedMap<K, V>): OrderedMap<K, V>
    requires a.Valid() && b.Valid()
  {
    FromEntries(a.Entries() + b.Entries())
  }

  lemma {:induction false} KeysOfIndex<K, V>(es: seq<(K, V)>)
    ensures |KeysOf(es)| == |es|
    ensures forall i :: 0 <= i < |es| ==> KeysOf(es)[i] == es[i].0
  {
    if es != [] {
      KeysOfIndex(es[1..]);
    }
  }

  /** `set` keeps a map valid. */
  lemma SetValid<K(!new), V>(m: OrderedMap<K, V>, k: K, v: V)
    requires m.Valid()
    ensures m.Set(k, v).Valid()
  {
    if k !in m.values {
      assert k !in m.keys;
      assert Distinct(m.keys + [k]);
    }
  }

  lemma {:induction false} SetAllValid<K(!new), V>(m: OrderedMap<K, V>, es: seq<(K, V)>)
    requires m.Valid()
    ensures SetAll(m, es).Valid()
    decreases |es|
  {
    if es != [] {
      SetValid(m, es[0].0, es[0].1);
      SetAllValid(m.Set(es[0].0, es[0].1), es[1..]);
    }
  }

  /** Setting a list of entries adds exactly the keys of the entries. */
  lemma {:induction false} SetAllKeySet<K(!new), V>(m: OrderedMap<K, V>, es: seq<(K, V)>)
    ensures forall k :: k in SetAll(m, es).values <==> k in m.values || k in KeysOf(es)
    decreases |es|
  {
    if es != [] {
      SetAllKeySet(m.Set(es[0].0, es[0].1), es[1..]);
    }
  }

  /** Keys that no entry mentions keep their values. */
  lemma {:induction false} SetAllUntouched<K(!new), V>(m: OrderedMap<K, V>, es: seq<(K, V)>, k: K)
    requires k in m.values && k !in KeysOf(es)
    ensures k in SetAll(m, es).values && SetAll(m, es).values[k] == m.values[k]
    decreases |es|
  {
    if es != [] {
      SetAllUntouched(m.Set(es[0].0, es[0].1), es[1..], k);
    }
  }

  /** `set` appends the key exactly when it is new. */
  lemma SetKeys<K(!new), V>(m: OrderedMap<K, V>, k: K, v: V)
    ensures k in m.values ==> m.Set(k, v).keys == m.keys
    ensures k !in m.values ==> m.Set(k, v).keys == m.keys + [k]
    ensures m.Set(k, v).values.Keys == m.values.Keys + {k}
  {
  }

  /** The keys not yet present are appended in the order of their first
      occurrence among the entries. */
  lemma {:induction false} SetAllKeyOrder<K(!new), V>(m: OrderedMap<K, V>, es: seq<(K, V)>)
    decreases |es|
    ensures SetAll(m, es).keys == m.keys + NewElements(KeysOf(es), m.values.Keys)
  {
    if es == [] {
      assert KeysOf(es) == [];
    } else {
      SetAllKeyOrder(m.Set(es[0].0, es[0].1), es[1..]);
      SetAllKeyOrderStep(m, es);
    }
  }

  lemma SetAllKeyOrderStep<K(!new), V>(m: OrderedMap<K, V>, es: seq<(K, V)>)
    requires es != []
    requires var m' := m.Set(es[0].0, es[0].1);
      SetAll(m', es[1..]).keys == m'.keys + NewElements(KeysOf(es[1..]), m'.values.Keys)
    ensures SetAll(m, es).keys == m.keys + NewElements(KeysOf(es), m.values.Keys)
  {
    var k, v := es[0].0, es[0].1;
    var m' := m.Set(k, v);
    assert SetAll(m, es).keys == SetAll(m', es[1..]).keys;
    assert KeysOf(es) == [k] + KeysOf(es[1..]);
    SetKeys(m, k, v);
    AppendNewKey(m.keys, m.values.Keys, k, KeysOf(es[1..]), m'.keys, m'.values.Keys);
  }

  /** One step of the key order: the keys of `set(k, v)` followed by the new
      keys of the rest. */
  lemma AppendNewKey<K>(ks: seq<K>, M: set<K>, k: K, rest: seq<K>, ks': seq<K>, M': set<K>)
    requires k in M ==> ks' == ks
    requires k !in M ==> ks' == ks + [k]
    requires M' == M + {k}
    ensures ks' + NewElements(rest, M') == ks + NewElements([k] + rest, M)
  {
    NewElementsCons(k, rest, M);
    if k in M {
      assert M + {k} == M;
    } else {
      var r := NewElements(rest, M + {k});
      assert (ks + [k]) + r == ks + ([k] + r);
    }
  }

  /** The value stored under a key is that of the last entry with the key. */
  lemma {:induction false} SetAllLastWriter<K(!new), V>(m: OrderedMap<K, V>, es: seq<(K, V)>, i: nat)
    requires i < |es|
    requires forall j :: i < j < |es| ==> es[j].0 != es[i].0
    ensures es[i].0 in SetAll(m, es).values
    ensures SetAll(m, es).values[es[i].0] == es[i].1
    decreases |es|
  {
    var m' := m.Set(es[0].0, es[0].1);
    if i == 0 {
      KeysOfIndex(es[1..]);
      assert es[0].0 !in KeysOf(es[1..]);
      SetAllUntouched(m', es[1..], es[0].0);
    } else {
      SetAllLastWriter(m', es[1..], i - 1);
    }
  }

  /** Setting two lists of entries one after the other is setting their concatenation. */
  lemma {:induction false} SetAllConcat<K(!new), V>(m: OrderedMap<K, V>, e1: seq<(K, V)>, e2: seq<(K, V)>)
    ensures SetAll(m, e1 + e2) == SetAll(SetAll(m, e1), e2)
    decreases |e1|
  {
    if e1 == [] {
      assert e1 + e2 == e2;
    } else {
      assert (e1 + e2)[0] == e1[0] && (e1 + e2)[1..] == e1[1..] + e2;
      SetAllConcat(m.Set(e1[0].0, e1[0].1), e1[1..], e2);
    }
  }

  /** `KeysOf` recovers the key order of a map from its entries. */
  lemma KeysOfEntries<K(!new), V>(m: OrderedMap<K, V>)
    requires m.Valid()
    ensures KeysOf(m.Entries()) == m.keys
  {
    KeysOfIndex(m.Entries());
  }

  lemma FromEntriesKeys<K(!new), V>(m: OrderedMap<K, V>)
    requires m.Valid()
    ensures FromEntries(m.Entries()).keys == m.keys
  {
    var e, es := Empty<K, V>(), m.Entries();
    KeysOfEntries(m);
    SetAllKeyOrder(e, es);
    assert e.values.Keys == {};
    NewElementsOfDistinct(m.keys, {});
  }

  /** Setting the entries of a valid map `b` on `m` stores `b`'s value under
      each key of `b`. */
  lemma SetAllOverrides<K(!new), V>(m: OrderedMap<K, V>, b: OrderedMap<K, V>, k: K)
    requires b.Valid() && k in b.values
    ensures k in SetAll(m, b.Entries()).values
    ensures SetAll(m, b.Entries()).values[k] == b.values[k]
  {
    var i :| 0 <= i < |b.keys| && b.keys[i] == k;
    SetAllLastWriter(m, b.Entries(), i);
  }

  lemma SetAllEntriesValues<K(!new), V>(m: OrderedMap<K, V>, b: OrderedMap<K, V>)
    requires b.Valid()
    ensures SetAll(m, b.Entries()).values == m.values + b.values
  {
    var es := b.Entries();
    var r := SetAll(m, es);
    KeysOfEntries(b);
    SetAllKeySet(m, es);
    forall k | k in b.values
      ensures r.values[k] == b.values[k]
    {
      SetAllOverrides(m, b, k);
    }
    forall k | k in m.values && k !in b.values
      ensures r.values[k] == m.values[k]
    {
      SetAllUntouched(m, es, k);
    }
  }

  lemma FromEntriesValues<K(!new), V>(m: OrderedMap<K, V>)
    requires m.Valid()
    ensures FromEntries(m.Entries()).values == m.values
  {
    var e := Empty<K, V>();
    SetAllEntriesValues(e, m);
    assert e.values + m.values == m.values;
  }

  /** `new Map([...m])` is `m` again. */
  lemma FromEntriesOfEntries<K(!new), V>(m: OrderedMap<K, V>)
    requires m.Valid()
    ensures FromEntries(m.Entries()) == m
  {
    FromEntriesKeys(m);
    FromEntriesValues(m);
  }

  /** Spreading `a` and then `b` into a new `Map` sets `b`'s entries on `a`. */
  lemma MergeIsSetAll<K(!new), V>(a: OrderedMap<K, V>, b: OrderedMap<K, V>)
    requires a.Valid() && b.Valid()
    ensures Merge(a, b) == SetAll(a, b.Entries())
  {
    SetAllConcat(Empty(), a.Entries(), b.Entries());
    FromEntriesOfEntries(a);
  }

  lemma MergeValues<K(!new), V>(a: OrderedMap<K, V>, b: OrderedMap<K, V>)
    requires a.Valid() && b.Valid()
    ensures Merge(a, b).values == a.values + b.values
  {
    MergeIsSetAll(a, b);
    SetAllEntriesValues(a, b);
  }

  lemma MergeKeys<K(!new), V>(a: OrderedMap<K, V>, b: OrderedMap<K, V>)
    requires a.Valid() && b.Valid()
    ensures Merge(a, b).Valid()
    ensures Merge(a, b).keys == a.keys + NewElements(b.keys, a.values.Keys)
  {
    var es := b.Entries();
    MergeIsSetAll(a, b);
    KeysOfEntries(b);
    SetAllValid(a, es);
    SetAllKeyOrder(a, es);
  }

  /** The outcome of `new Map([...a, ...b])`: a valid map holding `b`'s value
      under each key of `b` and `a`'s value under the other keys of `a`, with
      `a`'s keys in their order followed by the keys of `b` that `a` lacks, in
      `b`'s order. */
  lemma MergeSpec<K(!new), V>(a: OrderedMap<K, V>, b: OrderedMap<K, V>)
    requires a.Valid() && b.Valid()
    ensures Merge(a, b).Valid()
    ensures Merge(a, b).values == a.values + b.values
    ensures Merge(a, b).keys == a.keys + NewElements(b.keys, a.values.Keys)
  {
    MergeValues(a, b);
    MergeKeys(a, b);
  }

  /** Merging nothing into a map gives the map. */
  lemma MergeEmptyRight<K(!new), V>(m: OrderedMap<K, V>)
    requires m.Valid()
    ensures Merge(m, Empty()) == m
  {
    var e := Empty<K, V>();
    var r := Merge(m, e);
    assert r.keys == m.keys by {
      MergeKeys(m, e);
    }
    assert r.values == m.values by {
      MergeValues(m, e);
    }
  }

  /** Merging a map into nothing gives the map. */
  lemma MergeEmptyLeft<K(!new), V>(m: OrderedMap<K, V>)
    requires m.Valid()
    ensures Merge(Empty(), m) == m
  {
    var e := Empty<K, V>();
    var r := Merge(e, m);
    assert r.keys == m.keys by {
      MergeKeys(e, m);
      assert e.values.Keys == {};
      NewElementsOfDistinct(m.keys, {});
    }
    assert r.values == m.values by {
      MergeValues(e, m);
    }
  }

  lemma MapUnionAssociative<K, V>(a: map<K, V>, b: map<K, V>, c: map<K, V>)
    ensures (a + b) + c == a + (b + c)
  {
  }

  /** The key-order half of associativity, on the key lists alone. */
  lemma NewKeysAssociative<K(!new)>(ak: seq<K>, bk: seq<K>, ck: seq<K>, A: set<K>, B: set<K>)
    requires B == Elements(bk)
    ensures (ak + NewElements(bk, A)) + NewElements(ck, A + B)
         == ak + NewElements(bk + NewElements(ck, B), A)
  {
    NewElementsConcat(bk, NewElements(ck, B), A);
    NewElementsTwice(ck, B, A + B);
  }

  lemma MergeAssociativeKeys<K(!new), V>(a: OrderedMap<K, V>, b: OrderedMap<K, V>, c: OrderedMap<K, V>)
    requires a.Valid() && b.Valid() && c.Valid()
    ensures Merge(a, b).Valid() && Merge(b, c).Valid()
    ensures Merge(Merge(a, b), c).keys == Merge(a, Merge(b, c)).keys
  {
    var A, B := a.values.Keys, b.values.Keys;
    var ab, bc := Merge(a, b), Merge(b, c);
    assert ab.Valid() && ab.keys == a.keys + NewElements(b.keys, A) by {
      MergeKeys(a, b);
    }
    assert bc.Valid() && bc.keys == b.keys + NewElements(c.keys, B) by {
      MergeKeys(b, c);
    }
    assert Merge(ab, c).keys == (a.keys + NewElements(b.keys, A)) + NewElements(c.keys, A + B) by {
      MergeValues(a, b);
      assert ab.values.Keys == A + B;
      MergeKeys(ab, c);
    }
    assert Merge(a, bc).keys == a.keys + NewElements(b.keys + NewElements(c.keys, B), A) by {
      MergeKeys(a, bc);
    }
    assert B == Elements(b.keys);
    NewKeysAssociative(a.keys, b.keys, c.keys, A, B);
  }

  lemma MergeAssociativeValues<K(!new), V>(a: OrderedMap<K, V>, b: OrderedMap<K, V>, c: OrderedMap<K, V>)
    requires a.Valid() && b.Valid() && c.Valid()
    ensures Merge(a, b).Valid() && Merge(b, c).Valid()
    ensures Merge(Merge(a, b), c).values == Merge(a, Merge(b, c)).values
  {
    MergeKeys(a, b);
    MergeKeys(b, c);
    MergeValues(a, b);
    MergeValues(b, c);
    MergeValues(Merge(a, b), c);
    MergeValues(a, Merge(b, c));
    MapUnionAssociative(a.values, b.values, c.values);
  }

  /** Merging `b` then `c` into `a` is merging `b` merged with `c` into `a`:
      the same keys, in the same order, with the same values. */
  lemma MergeAssociative<K(!new), V>(a: OrderedMap<K, V>, b: OrderedMap<K, V>, c: OrderedMap<K, V>)
    requires a.Valid() && b.Valid() && c.Valid()
    ensures Merge(a, b).Valid() && Merge(b, c).Valid()
    ensures Merge(Merge(a, b), c) == Merge(a, Merge(b, c))
  {
    MergeAssociativeKeys(a, b, c);
    MergeAssociativeValues(a, b, c);
  }
}
