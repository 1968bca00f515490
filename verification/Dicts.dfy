/** Insertion-ordered dictionaries, as Python's `dict`: a key keeps its place when its value is
    replaced, and a new key goes to the end. */
module Dicts {
  import opened Wrappers
  import opened Sorting

  type Dict<K, V> = seq<(K, V)>

  function Put<K(==), V>(d: Dict<K, V>, k: K, v: V): Dict<K, V> {
    if d == [] then [(k, v)]
    else if d[0].0 == k then [(k, v)] + d[1..]
    else [d[0]] + Put(d[1..], k, v)
  }

  function Get<K(==), V>(d: Dict<K, V>, k: K): Option<V> {
    if d == [] then None else if d[0].0 == k then Some(d[0].1) else Get(d[1..], k)
  }

  /** `items` stored one after the other. */
  function PutAll<K(==), V>(d: Dict<K, V>, items: seq<(K, V)>): Dict<K, V> {
    if items == [] then d
    else
      var n := |items| - 1;
      Put(PutAll(d, items[..n]), items[n].0, items[n].1)
  }

  function Values<K, V>(d: Dict<K, V>): (r: seq<V>)
    ensures |r| == |d| && forall i :: 0 <= i < |d| ==> r[i] == d[i].1
  {
    if d == [] then [] else [d[0].1] + Values(d[1..])
  }

  ghost predicate UniqueKeys<K, V>(d: Dict<K, V>) {
    forall i, j :: 0 <= i < j < |d| ==> d[i].0 != d[j].0
  }

  ghost predicate HasKey<K, V>(d: Dict<K, V>, k: K) {
    exists i :: 0 <= i < |d| && d[i].0 == k
  }

  lemma {:induction false} GetIff<K, V>(d: Dict<K, V>, k: K)
    ensures Get(d, k).Some? <==> HasKey(d, k)
    ensures Get(d, k).Some? ==> (k, Get(d, k).value) in d
  {
    if d != [] {
      GetIff(d[1..], k);
      assert HasKey(d[1..], k) ==> HasKey(d, k) by {
        if i :| 0 <= i < |d[1..]| && d[1..][i].0 == k { assert d[i + 1].0 == k; }
      }
      if i :| 0 <= i < |d| && d[i].0 == k && i > 0 { assert d[1..][i - 1].0 == k; }
    }
  }

  lemma {:induction false} GetByMember<K, V>(d: Dict<K, V>, i: nat)
    requires UniqueKeys(d) && i < |d|
    ensures Get(d, d[i].0) == Some(d[i].1)
  {
    if i > 0 { GetByMember(d[1..], i - 1); }
  }

  lemma {:induction false} PutKeeps<K, V>(d: Dict<K, V>, k: K, v: V)
    ensures forall x :: x in Put(d, k, v) ==> x == (k, v) || (x in d && x.0 != k) || x in d
    ensures forall j :: HasKey(Put(d, k, v), j) <==> j == k || HasKey(d, j)
    ensures UniqueKeys(d) ==> UniqueKeys(Put(d, k, v))
  {
    var r := Put(d, k, v);
    if d == [] {
      assert r[0].0 == k;
    } else if d[0].0 == k {
      assert forall i :: 0 <= i < |d| ==> r[i].0 == d[i].0;
    } else {
      PutKeeps(d[1..], k, v);
      var t := Put(d[1..], k, v);
      forall j ensures HasKey(r, j) <==> j == k || HasKey(d, j) {
        assert HasKey(r, j) <==> d[0].0 == j || HasKey(t, j) by { HasKeyCons(d[0], t, j); }
        assert d == [d[0]] + d[1..];
        HasKeyCons(d[0], d[1..], j);
      }
      if UniqueKeys(d) {
        forall i | 0 <= i < |t| ensures t[i].0 != d[0].0 {
          assert HasKey(t, t[i].0);
        }
      }
    }
  }

  lemma HasKeyCons<K, V>(x: (K, V), d: Dict<K, V>, k: K)
    ensures HasKey([x] + d, k) <==> x.0 == k || HasKey(d, k)
  {
    if i :| 0 <= i < |d| && d[i].0 == k { assert ([x] + d)[i + 1].0 == k; }
    if x.0 == k { assert ([x] + d)[0].0 == k; }
    if i :| 0 <= i < |[x] + d| && ([x] + d)[i].0 == k && i > 0 { assert d[i - 1].0 == k; }
  }

  lemma {:induction false} GetOfPut<K, V>(d: Dict<K, V>, k: K, v: V, j: K)
    ensures Get(Put(d, k, v), j) == if j == k then Some(v) else Get(d, j)
  {
    if d != [] && d[0].0 != k { GetOfPut(d[1..], k, v, j); }
  }

  lemma {:induction false} PutNew<K, V>(d: Dict<K, V>, k: K, v: V)
    requires !HasKey(d, k)
    ensures Put(d, k, v) == d + [(k, v)]
  {
    if d != [] {
      assert d[0].0 != k;
      assert forall i :: 0 <= i < |d[1..]| ==> d[1..][i] == d[i + 1];
      PutNew(d[1..], k, v);
    }
  }

  /** A key that is there keeps its place, a new one goes to the end; all else stays. */
  lemma {:induction false} PutIs<K, V>(d: Dict<K, V>, k: K, v: V, i: nat)
    requires i <= |d| && (i < |d| ==> d[i].0 == k) && forall j :: 0 <= j < i ==> d[j].0 != k
    ensures Put(d, k, v) == if i < |d| then d[i := (k, v)] else d + [(k, v)]
  {
    if i > 0 {
      PutIs(d[1..], k, v, i - 1);
      assert d == [d[0]] + d[1..];
    }
  }

  lemma {:induction false} PutKeepsPlaces<K, V>(d: Dict<K, V>, k: K, v: V)
    ensures |Put(d, k, v)| == if HasKey(d, k) then |d| else |d| + 1
    ensures forall i :: 0 <= i < |d| ==> Put(d, k, v)[i].0 == d[i].0
    ensures !HasKey(d, k) ==> Put(d, k, v)[|d|].0 == k
  {
    if d != [] {
      PutKeepsPlaces(d[1..], k, v);
      assert d == [d[0]] + d[1..];
      HasKeyCons(d[0], d[1..], k);
    }
  }

  lemma {:induction false} PutAllConcat<K, V>(d: Dict<K, V>, a: seq<(K, V)>, b: seq<(K, V)>)
    ensures PutAll(d, a + b) == PutAll(PutAll(d, a), b)
    decreases |b|
  {
    if b == [] {
      assert a + b == a;
    } else {
      var n := |b| - 1;
      PutAllConcat(d, a, b[..n]);
      assert (a + b)[..|a| + n] == a + b[..n];
    }
  }

  lemma {:induction false} PutAllUnique<K, V>(d: Dict<K, V>, items: seq<(K, V)>)
    requires UniqueKeys(d)
    ensures UniqueKeys(PutAll(d, items))
    ensures forall x :: x in PutAll(d, items) ==> x in d || x in items
    decreases |items|
  {
    if items != [] {
      var n := |items| - 1;
      PutAllUnique(d, items[..n]);
      PutKeeps(PutAll(d, items[..n]), items[n].0, items[n].1);
      assert (items[n].0, items[n].1) == items[n];
    }
  }

  /** A dictionary's own items rebuild it. */
  lemma {:induction false} PutAllOwnItems<K, V>(d: Dict<K, V>)
    requires UniqueKeys(d)
    ensures PutAll([], d) == d
  {
    if d != [] {
      var n := |d| - 1;
      PutAllOwnItems(d[..n]);
      assert !HasKey(d[..n], d[n].0);
      PutNew(d[..n], d[n].0, d[n].1);
      assert d == d[..n] + [(d[n].0, d[n].1)];
    }
  }

  /** The value stored last under `k`. */
  function Last<K(==), V>(items: seq<(K, V)>, k: K): Option<V> {
    if items == [] then None
    else
      var n := |items| - 1;
      if items[n].0 == k then Some(items[n].1) else Last(items[..n], k)
  }

  lemma {:induction false} GetOfPutAll<K, V>(items: seq<(K, V)>, k: K)
    ensures Get(PutAll([], items), k) == Last(items, k)
  {
    if items != [] {
      var n := |items| - 1;
      GetOfPutAll(items[..n], k);
      GetOfPut(PutAll([], items[..n]), items[n].0, items[n].1, k);
    }
  }

  lemma {:induction false} LastOfConcat<K, V>(a: seq<(K, V)>, b: seq<(K, V)>, k: K)
    ensures Last(a + b, k) == if Last(b, k).Some? then Last(b, k) else Last(a, k)
    decreases |b|
  {
    if b == [] {
      assert a + b == a;
    } else {
      var n := |b| - 1;
      LastOfConcat(a, b[..n], k);
      assert (a + b)[..|a| + n] == a + b[..n];
    }
  }

  lemma {:induction false} LastIff<K, V>(items: seq<(K, V)>, k: K)
    ensures Last(items, k).Some? <==> exists v :: (k, v) in items
    ensures Last(items, k).Some? ==> (k, Last(items, k).value) in items
  {
    if items != [] {
      var n := |items| - 1;
      LastIff(items[..n], k);
      assert items == items[..n] + [items[n]];
      assert items[n] == (items[n].0, items[n].1);
    }
  }

  /** The concatenation of what `f` makes of each element. */
  function FlatMap<A, B>(f: A -> seq<B>, s: seq<A>): seq<B> {
    if s == [] then [] else FlatMap(f, s[..|s| - 1]) + f(s[|s| - 1])
  }

  lemma FlatMapOneMore<A, B>(f: A -> seq<B>, s: seq<A>, x: A)
    ensures FlatMap(f, s + [x]) == FlatMap(f, s) + f(x)
  {
    assert (s + [x])[..|s|] == s;
  }

  lemma {:induction false} FlatMapConcat<A, B>(f: A -> seq<B>, s: seq<A>, t: seq<A>)
    ensures FlatMap(f, s + t) == FlatMap(f, s) + FlatMap(f, t)
    decreases |t|
  {
    if t == [] {
      assert s + t == s;
    } else {
      hide FlatMap;
      var front, x := t[..|t| - 1], t[|t| - 1];
      assert t == front + [x];
      Associates(s, front, [x]);
      FlatMapConcat(f, s, front);
      FlatMapOneMore(f, s + front, x);
      FlatMapOneMore(f, front, x);
      Associates(FlatMap(f, s), FlatMap(f, front), f(x));
    }
  }
}
