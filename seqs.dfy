/**
 * Array and Map operations from the JavaScript library that the palette uses:
 * `filter`, `slice(0, n)`, `indexOf` + `splice(i, 1)`, and a `Map` that
 * remembers the order in which its keys were first inserted.
 */
module Seqs {
  import opened Wrappers

  /** `a` is obtained from `b` by deleting elements, order kept. */
  ghost predicate IsSubseq<T>(a: seq<T>, b: seq<T>)
    decreases |b|
  {
    a == [] || (b != [] && ((a[0] == b[0] && IsSubseq(a[1..], b[1..])) || IsSubseq(a, b[1..])))
  }

  lemma AppendAssoc<T>(x: seq<T>, y: seq<T>, z: seq<T>)
    ensures (x + y) + z == x + (y + z)
  {
  }

  /** The index of the first element satisfying `p` (`findIndex`), if any. */
  function FirstWhere<T>(s: seq<T>, p: T -> bool): (r: Option<nat>)
    ensures r.Some? ==> r.value < |s| && p(s[r.value])
    ensures r.Some? ==> forall j :: 0 <= j < r.value ==> !p(s[j])
    ensures r.None? <==> forall j :: 0 <= j < |s| ==> !p(s[j])
  {
    if s == [] then None
    else if p(s[0]) then Some(0)
    else match FirstWhere(s[1..], p)
      case None => None
      case Some(j) => Some(j + 1)
  }

  /** An element found in `a` is still the first one in `a + b`. */
  lemma FirstWhereAppend<T>(a: seq<T>, b: seq<T>, p: T -> bool)
    requires FirstWhere(a, p).Some?
    ensures FirstWhere(a + b, p) == FirstWhere(a, p)
  {
    var i := FirstWhere(a, p).value;
    assert (a + b)[i] == a[i];
    assert forall j :: 0 <= j < i ==> (a + b)[j] == a[j];
  }

  /** When nothing in `a` satisfies `p`, the first element of `a + b` that does is the first of `b`. */
  lemma FirstWhereAfter<T>(a: seq<T>, b: seq<T>, p: T -> bool)
    requires FirstWhere(a, p).None?
    ensures FirstWhere(a + b, p) ==
      if FirstWhere(b, p).Some? then Some(|a| + FirstWhere(b, p).value) else None
  {
    var ab := a + b;
    var rb := FirstWhere(b, p);
    var n := if rb.Some? then |a| + rb.value else |ab|;
    forall j | 0 <= j < n
      ensures !p(ab[j])
    {
      if j < |a| {
        assert ab[j] == a[j];
      } else {
        assert ab[j] == b[j - |a|];
      }
    }
    if rb.Some? {
      assert ab[n] == b[rb.value];
      FirstWhereAt(ab, p, n);
    }
  }

  /** The first element satisfying `p` is the one that does with none before it. */
  lemma FirstWhereAt<T>(s: seq<T>, p: T -> bool, i: nat)
    requires i < |s| && p(s[i])
    requires forall j :: 0 <= j < i ==> !p(s[j])
    ensures FirstWhere(s, p) == Some(i)
  {
    var r := FirstWhere(s, p);
    assert r.Some?;
    assert !(r.value < i);
  }

  /** `s.filter(p)`: exactly the elements satisfying `p`, in their order. */
  function Filter<T(!new)>(s: seq<T>, p: T -> bool): (r: seq<T>)
    ensures |r| <= |s|
    ensures forall x :: x in r <==> x in s && p(x)
    ensures IsSubseq(r, s)
  {
    if s == [] then []
    else if p(s[0]) then [s[0]] + Filter(s[1..], p)
    else Filter(s[1..], p)
  }

  lemma {:induction false} FilterAppend<T(!new)>(a: seq<T>, b: seq<T>, p: T -> bool)
    ensures Filter(a + b, p) == Filter(a, p) + Filter(b, p)
    decreases |a|
  {
    if a != [] {
      FilterAppend(a[1..], b, p);
      assert (a + b)[0] == a[0];
      assert (a + b)[1..] == a[1..] + b;
      if p(a[0]) {
        assert Filter(a + b, p) == [a[0]] + (Filter(a[1..], p) + Filter(b, p));
      }
    } else {
      assert a + b == b;
    }
  }

  /** Filtering by a predicate every element satisfies changes nothing. */
  lemma {:induction false} FilterAllPass<T(!new)>(s: seq<T>, p: T -> bool)
    requires forall i :: 0 <= i < |s| ==> p(s[i])
    ensures Filter(s, p) == s
    decreases |s|
  {
    if s != [] {
      FilterAllPass(s[1..], p);
    }
  }

  /** Filtering keeps the elements distinct. */
  lemma {:induction false} FilterDistinct<T(!new)>(s: seq<T>, p: T -> bool)
    requires Distinct(s)
    ensures Distinct(Filter(s, p))
    decreases |s|
  {
    if s != [] {
      FilterDistinct(s[1..], p);
      if p(s[0]) {
        var r := Filter(s, p);
        assert r == [s[0]] + Filter(s[1..], p);
        assert s[0] !in s[1..];
        forall i, j | 0 <= i < j < |r| ensures r[i] != r[j] {
          if i == 0 {
            assert r[j] in Filter(s[1..], p);
          } else {
            assert r[i] == Filter(s[1..], p)[i - 1] && r[j] == Filter(s[1..], p)[j - 1];
          }
        }
      }
    }
  }

  /** `s.slice(0, n)`: the first `n` elements, or all of them. */
  function Take<T>(s: seq<T>, n: nat): (r: seq<T>)
    ensures |r| == if n < |s| then n else |s|
    ensures r == s[..|r|]
  {
    if n < |s| then s[..n] else s
  }

  /** `s.findIndex(p)`: the first position whose element satisfies `p`, if any. */
  function FirstIndex<T>(s: seq<T>, p: T -> bool): (r: Option<nat>)
    ensures r.Some? ==> r.value < |s| && p(s[r.value])
    ensures r.Some? ==> forall k :: 0 <= k < r.value ==> !p(s[k])
    ensures r.None? <==> forall k :: 0 <= k < |s| ==> !p(s[k])
  {
    if s == [] then None
    else if p(s[0]) then Some(0)
    else match FirstIndex(s[1..], p)
      case None => None
      case Some(k) => Some(k + 1)
  }

  /** `s.indexOf(x)`: the first position of `x`, if any. */
  function Find<T(==)>(s: seq<T>, x: T): (r: Option<nat>)
    ensures r.Some? ==> r.value < |s| && s[r.value] == x && x !in s[..r.value]
    ensures r.None? <==> x !in s
  {
    if s == [] then None
    else if s[0] == x then Some(0)
    else match Find(s[1..], x)
      case None => None
      case Some(k) => Some(k + 1)
  }

  /** `i = s.indexOf(x); if (i !== -1) s.splice(i, 1)`. */
  function RemoveFirst<T(==)>(s: seq<T>, x: T): (r: seq<T>)
    ensures x !in s ==> r == s
    ensures x in s ==> |r| == |s| - 1
  {
    match Find(s, x)
    case None => s
    case Some(i) => s[..i] + s[i + 1..]
  }

  /** Removes the first occurrence of each element of `xs`, in order. */
  function RemoveEach<T(==)>(s: seq<T>, xs: seq<T>): seq<T>
    decreases |xs|
  {
    if xs == [] then s else RemoveEach(RemoveFirst(s, xs[0]), xs[1..])
  }

  ghost predicate Distinct<T>(s: seq<T>)
  {
    forall i, j :: 0 <= i < j < |s| ==> s[i] != s[j]
  }

  /**
   * Removing, one by one, distinct elements that make up the front of a list
   * leaves exactly the rest of the list.
   */
  lemma {:induction false} RemoveEachPrefix<T>(xs: seq<T>, rest: seq<T>)
    requires Distinct(xs)
    ensures RemoveEach(xs + rest, xs) == rest
    decreases |xs|
  {
    if xs != [] {
      assert Find(xs + rest, xs[0]) == Some(0);
      assert RemoveFirst(xs + rest, xs[0]) == xs[1..] + rest;
      RemoveEachPrefix(xs[1..], rest);
    }
  }

  /** Removing, in turn, the first occurrence of each element of `xs + [x]`. */
  lemma {:induction false} RemoveEachSnoc<T>(s: seq<T>, xs: seq<T>, x: T)
    ensures RemoveEach(s, xs + [x]) == RemoveFirst(RemoveEach(s, xs), x)
    decreases |xs|
  {
    if xs == [] {
      assert xs + [x] == [x];
    } else {
      assert (xs + [x])[1..] == xs[1..] + [x];
      RemoveEachSnoc(RemoveFirst(s, xs[0]), xs[1..], x);
    }
  }

  /**
   * A JavaScript `Map`: `keys` in first-insertion order, `values` the
   * current binding of each key.
   */
  datatype OrderedMap<K(!new), V> = OrderedMap(keys: seq<K>, values: map<K, V>) {

    ghost predicate Valid()
    {
      Distinct(keys) && (forall k :: k in keys <==> k in values)
    }

    /** `m.get(k)`. */
    function Get(k: K): Option<V>
    {
      if k in values then Some(values[k]) else None
    }

    /**
     * `m.set(k, v)`: a new key goes to the end of the order, an existing
     * key keeps its place and takes the new value.
     */
    function Put(k: K, v: V): (m: OrderedMap<K, V>)
      requires Valid()
      ensures m.Valid()
      ensures m.values == values[k := v]
      ensures m.keys == if k in values then keys else keys + [k]
    {
      if k in values then OrderedMap(keys, values[k := v]) else OrderedMap(keys + [k], values[k := v])
    }
  }

  function EmptyMap<K(!new), V>(): (m: OrderedMap<K, V>)
    ensures m.Valid() && m.keys == []
  {
    OrderedMap([], map[])
  }

  /** `m.set(k, v)` for each pair of `ops`, in order. */
  function PutAll<K(!new), V>(m: OrderedMap<K, V>, ops: seq<(K, V)>): (r: OrderedMap<K, V>)
    requires m.Valid()
    ensures r.Valid()
    decreases |ops|
  {
    if ops == [] then m
    else PutAll(m, ops[..|ops| - 1]).Put(ops[|ops| - 1].0, ops[|ops| - 1].1)
  }

  /** The value the last pair for `k` in `ops` carries, if there is one. */
  function LastValue<K(==), V>(ops: seq<(K, V)>, k: K): (r: Option<V>)
    ensures r.None? <==> forall i :: 0 <= i < |ops| ==> ops[i].0 != k
    ensures r.Some? ==> exists i :: 0 <= i < |ops| && ops[i] == (k, r.value)
    decreases |ops|
  {
    if ops == [] then None
    else if ops[|ops| - 1].0 == k then Some(ops[|ops| - 1].1)
    else LastValue(ops[..|ops| - 1], k)
  }

  /** A key written by exactly one pair last carries that pair's value. */
  lemma {:induction false} LastValueOnly<K, V>(ops: seq<(K, V)>, i: nat, k: K)
    requires i < |ops| && ops[i].0 == k
    requires forall j :: 0 <= j < |ops| && j != i ==> ops[j].0 != k
    ensures LastValue(ops, k) == Some(ops[i].1)
    decreases |ops|
  {
    if i < |ops| - 1 {
      LastValueOnly(ops[..|ops| - 1], i, k);
    }
  }

  /** After the writes, a key holds its last written value, or its old one if never written. */
  lemma {:induction false} PutAllGet<K(!new), V>(m: OrderedMap<K, V>, ops: seq<(K, V)>, k: K)
    requires m.Valid()
    ensures PutAll(m, ops).Get(k) == if LastValue(ops, k).Some? then LastValue(ops, k) else m.Get(k)
    decreases |ops|
  {
    if ops != [] {
      PutAllGet(m, ops[..|ops| - 1], k);
    }
  }

  /** Writing only keys already present leaves the key order alone. */
  lemma {:induction false} PutAllKeysPresent<K(!new), V>(m: OrderedMap<K, V>, ops: seq<(K, V)>)
    requires m.Valid()
    requires forall i :: 0 <= i < |ops| ==> ops[i].0 in m.values
    ensures PutAll(m, ops).keys == m.keys
    decreases |ops|
  {
    if ops != [] {
      PutAllKeysPresent(m, ops[..|ops| - 1]);
      PutAllGet(m, ops[..|ops| - 1], ops[|ops| - 1].0);
    }
  }

  /** The keys written by `ops`, in order. */
  function KeysOf<K, V>(ops: seq<(K, V)>): (r: seq<K>)
    ensures |r| == |ops| && forall i :: 0 <= i < |ops| ==> r[i] == ops[i].0
    decreases |ops|
  {
    if ops == [] then [] else KeysOf(ops[..|ops| - 1]) + [ops[|ops| - 1].0]
  }

  /** The keys of two runs of writes are the keys of each, in order. */
  lemma KeysOfAppend<K, V>(a: seq<(K, V)>, b: seq<(K, V)>)
    ensures KeysOf(a + b) == KeysOf(a) + KeysOf(b)
  {
    assert forall i :: 0 <= i < |a| + |b| ==> (KeysOf(a) + KeysOf(b))[i] == (a + b)[i].0;
  }

  /** Writing distinct keys none of which is present appends them in order. */
  lemma {:induction false} PutAllKeysFresh<K(!new), V>(m: OrderedMap<K, V>, ops: seq<(K, V)>)
    requires m.Valid()
    requires forall i, j :: 0 <= i < j < |ops| ==> ops[i].0 != ops[j].0
    requires forall i :: 0 <= i < |ops| ==> ops[i].0 !in m.values
    ensures PutAll(m, ops).keys == m.keys + KeysOf(ops)
    decreases |ops|
  {
    if ops != [] {
      var init := ops[..|ops| - 1];
      var k := ops[|ops| - 1].0;
      PutAllKeysFresh(m, init);
      PutAllGet(m, init, k);
      assert LastValue(init, k).None?;
      assert m.keys + KeysOf(ops) == (m.keys + KeysOf(init)) + [k];
    }
  }

  /** Two maps that agree on every key are the same map. */
  lemma SameGet<K(!new), V>(a: OrderedMap<K, V>, b: OrderedMap<K, V>)
    requires a.keys == b.keys
    requires forall k :: a.Get(k) == b.Get(k)
    ensures a == b
  {
    assert forall k :: k in a.values <==> k in b.values by {
      forall k ensures k in a.values <==> k in b.values {
        assert a.Get(k).Some? <==> b.Get(k).Some?;
      }
    }
    assert forall k :: k in a.values ==> a.values[k] == b.values[k] by {
      forall k | k in a.values ensures a.values[k] == b.values[k] {
        assert a.Get(k) == b.Get(k);
      }
    }
  }

  /** Repeating the same writes changes nothing. */
  lemma PutAllTwice<K(!new), V>(m: OrderedMap<K, V>, ops: seq<(K, V)>)
    requires m.Valid()
    ensures PutAll(PutAll(m, ops), ops) == PutAll(m, ops)
  {
    var once := PutAll(m, ops);
    forall i | 0 <= i < |ops| ensures ops[i].0 in once.values {
      PutAllGet(m, ops, ops[i].0);
    }
    PutAllKeysPresent(once, ops);
    forall k ensures PutAll(once, ops).Get(k) == once.Get(k) {
      PutAllGet(once, ops, k);
      PutAllGet(m, ops, k);
    }
    SameGet(PutAll(once, ops), once);
  }

  /** Writing `a` then `b` is writing `a + b`. */
  lemma {:induction false} PutAllAppend<K(!new), V>(m: OrderedMap<K, V>, a: seq<(K, V)>, b: seq<(K, V)>)
    requires m.Valid()
    ensures PutAll(PutAll(m, a), b) == PutAll(m, a + b)
    decreases |b|
  {
    if b != [] {
      PutAllAppend(m, a, b[..|b| - 1]);
      assert (a + b)[..|a + b| - 1] == a + b[..|b| - 1];
    } else {
      assert a + b == a;
    }
  }

  /** Writes only ever append keys: the old key order is a prefix of the new one. */
  lemma {:induction false} PutAllKeysExtend<K(!new), V>(m: OrderedMap<K, V>, ops: seq<(K, V)>)
    requires m.Valid()
    ensures |m.keys| <= |PutAll(m, ops).keys| && PutAll(m, ops).keys[..|m.keys|] == m.keys
    decreases |ops|
  {
    if ops != [] {
      PutAllKeysExtend(m, ops[..|ops| - 1]);
    }
  }
}
