/** Insertion-ordered dictionaries, the behaviour of a JavaScript `Map`: a `Map`
    remembers the order in which each key was first set, and iterating over it
    (`entries()`, `for ... of`) visits keys in that order. Here that order is
    an explicit sequence of keys beside an ordinary Dafny map. */
module OrderedMaps {
  import opened Wrappers

  /** No element of `s` occurs twice. */
  predicate Distinct<T(==)>(s: seq<T>)
  {
    forall i, j :: 0 <= i < j < |s| ==> s[i] != s[j]
  }

  /** The elements of `s` in the order of their first occurrence. */
  function Dedup<T(==)>(s: seq<T>): (r: seq<T>)
    ensures forall x :: x in r ==> x in s
    ensures forall x :: x in s ==> x in r
    ensures |r| <= |s|
  {
    if s == [] then []
    else
      var d := Dedup(s[..|s| - 1]);
      if s[|s| - 1] in s[..|s| - 1] then d else d + [s[|s| - 1]]
  }

  /** The first-occurrence order has no repeats. */
  lemma {:induction false} DedupIsDistinct<T>(s: seq<T>)
    ensures Distinct(Dedup(s))
  {
    if s != [] {
      DedupIsDistinct(s[..|s| - 1]);
    }
  }

  /** Appending one element extends the first-occurrence order only when the
      element is new. */
  lemma DedupSnoc<T>(s: seq<T>, x: T)
    ensures Dedup(s + [x]) == if x in s then Dedup(s) else Dedup(s) + [x]
  {
    assert (s + [x])[..|s + [x]| - 1] == s;
  }

  /** The first-occurrence order of a prefix is a prefix of the first-occurrence
      order of the whole: keys seen first stay first. */
  lemma {:induction false} DedupPrefix<T>(a: seq<T>, b: seq<T>)
    ensures Dedup(a) <= Dedup(a + b)
    ensures forall x :: x in Dedup(a + b)[|Dedup(a)|..] ==> x in b && x !in a
    ensures forall x :: x in b && x !in a ==> x in Dedup(a + b)[|Dedup(a)|..]
  {
    if b == [] {
      assert a + b == a;
    } else {
      var b' := b[..|b| - 1];
      var x := b[|b| - 1];
      DedupPrefix(a, b');
      assert a + b == (a + b') + [x];
      DedupSnoc(a + b', x);
      var d, d' := Dedup(a + b), Dedup(a + b');
      var n := |Dedup(a)|;
      if x in a + b' {
        assert d == d';
      } else {
        assert d == d' + [x];
        assert d[n..] == d'[n..] + [x];
      }
    }
  }

  /** A `Map` whose keys are iterated in insertion order. */
  datatype OrderedMap<K(==), V> = OrderedMap(keys: seq<K>, values: map<K, V>)
  {
    /** Every bound key is listed exactly once, and only bound keys are listed. */
    ghost predicate Valid()
    {
      && Distinct(keys)
      && (forall k :: k in values ==> k in keys)
      && (forall k :: k in keys ==> k in values)
    }

    /** `Map.prototype.has`. */
    predicate Has(k: K)
    {
      k in values
    }

    /** `Map.prototype.get`: the bound value, or nothing. */
    function Get(k: K): (r: Option<V>)
      ensures r.Some? <==> k in values
      ensures r.Some? ==> r.value == values[k]
    {
      if k in values then Some(values[k]) else None
    }

    /** `get(k) ?? d`: the value bound to `k`, or `d` when `k` is unset. */
    function GetOrElse(k: K, d: V): (r: V)
      ensures k in values ==> r == values[k]
      ensures k !in values ==> r == d
    {
      if k in values then values[k] else d
    }

    /** `Map.prototype.set`: rebinding a key keeps its position; a new key goes last. */
    function Set(k: K, v: V): (m: OrderedMap<K, V>)
      ensures Valid() ==> m.Valid()
      ensures m.values == values[k := v]
      ensures Valid() ==> m.keys == if k in keys then keys else keys + [k]
    {
      if k in values then OrderedMap(keys, values[k := v])
      else OrderedMap(keys + [k], values[k := v])
    }
  }

  /** Setting a key on a map whose keys are the first-occurrence order of `s`
      gives the first-occurrence order of `s` followed by that key. */
  lemma SetFollowsDedup<K, V>(m: OrderedMap<K, V>, s: seq<K>, k: K, v: V)
    requires m.Valid() && m.keys == Dedup(s)
    ensures m.Set(k, v).Valid()
    ensures m.Set(k, v).keys == Dedup(s + [k])
  {
    DedupSnoc(s, k);
    DedupIsDistinct(s + [k]);
  }

  /** The same, for the next entry of `s` after a prefix. */
  lemma SetFollowsDedupAt<K, V>(m: OrderedMap<K, V>, s: seq<K>, i: nat, v: V)
    requires i < |s| && m.Valid() && m.keys == Dedup(s[..i])
    ensures m.Set(s[i], v).Valid()
    ensures m.Set(s[i], v).keys == Dedup(s[..i + 1])
  {
    assert s[..i + 1] == s[..i] + [s[i]];
    SetFollowsDedup(m, s[..i], s[i], v);
  }

  /** The same for two keys set one after the other. */
  lemma SetPairFollowsDedup<K, V>(m: OrderedMap<K, V>, s: seq<K>, a: K, va: V, b: K, vb: V)
    requires m.Valid() && m.keys == Dedup(s)
    ensures m.Set(a, va).Set(b, vb).Valid()
    ensures m.Set(a, va).Set(b, vb).keys == Dedup(s + [a, b])
  {
    SetFollowsDedup(m, s, a, va);
    SetFollowsDedup(m.Set(a, va), s + [a], b, vb);
    assert s + [a] + [b] == s + [a, b];
  }

  /** The empty `Map`. */
  function Empty<K(==), V>(): (m: OrderedMap<K, V>)
    ensures m.Valid() && m.keys == []
  {
    OrderedMap([], map[])
  }
}
