// Definitions every component uses.
module Common {

  datatype Option<+T> = None | Some(value: T)

  newtype byte = x: int | 0 <= x < 256

  function Max(a: int, b: int): (m: int)
    ensures m >= a && m >= b && (m == a || m == b)
  {
    if a >= b then a else b
  }

  ghost predicate NoDup<T>(s: seq<T>) {
    forall i, j :: 0 <= i < j < |s| ==> s[i] != s[j]
  }

  // The entry of a table whose missing keys read as the empty list, as in Python's defaultdict.
  function At<K, T>(m: map<K, seq<T>>, k: K): seq<T> {
    if k in m then m[k] else []
  }

  // The state after a run of operations, one by one.
  function Fold<X, A>(f: (X, A) -> X, x: X, run: seq<A>): X
    decreases |run|
  {
    if run == [] then x else Fold(f, f(x, run[0]), run[1..])
  }

  lemma {:induction false} FoldJoin<X, A>(f: (X, A) -> X, x: X, a: seq<A>, b: seq<A>)
    ensures Fold(f, x, a + b) == Fold(f, Fold(f, x, a), b)
    decreases |a|
  {
    if a == [] {
      assert a + b == b;
    } else {
      FoldJoin(f, f(x, a[0]), a[1..], b);
      assert (a + b)[1..] == a[1..] + b;
    }
  }

  // The values of a function at some keys; None when it has none at one of them.
  function Tabulate<K, V>(keys: seq<K>, f: K -> Option<V>): Option<map<K, V>> {
    if keys == [] then Some(map[]) else
      var last := keys[|keys| - 1];
      var rest := Tabulate(keys[..|keys| - 1], f);
      if rest.None? || f(last).None? then None else Some(rest.value[last := f(last).value])
  }

  lemma {:induction false} TabulateStops<K, V>(keys: seq<K>, n: nat, f: K -> Option<V>)
    requires n <= |keys| && Tabulate(keys[..n], f).None?
    ensures Tabulate(keys, f).None?
    decreases |keys|
  {
    if n == |keys| {
      assert keys[..n] == keys;
    } else {
      assert keys[..|keys| - 1][..n] == keys[..n];
      TabulateStops(keys[..|keys| - 1], n, f);
    }
  }

  lemma {:induction false} TabulateIs<K, V>(keys: seq<K>, f: K -> Option<V>)
    ensures Tabulate(keys, f).None? <==> exists k :: k in keys && f(k).None?
    ensures Tabulate(keys, f).Some? ==> forall k :: k in Tabulate(keys, f).value <==> k in keys
    ensures Tabulate(keys, f).Some? ==> forall k :: k in keys ==> f(k) == Some(Tabulate(keys, f).value[k])
  {
    if keys != [] {
      var n := |keys| - 1;
      TabulateIs(keys[..n], f);
      assert keys == keys[..n] + [keys[n]];
      assert forall k :: k in keys <==> k in keys[..n] || k == keys[n];
    }
  }

  lemma Assoc<T>(a: seq<T>, b: seq<T>, c: seq<T>)
    ensures a + (b + c) == a + b + c
  {
  }

  lemma Tail<T>(a: seq<T>, x: T, b: seq<T>)
    ensures var all := a + [x] + b;
      if a == [] then all[0] == x && all[1..] == b else all[0] == a[0] && all[1..] == a[1..] + [x] + b
  {
  }

  // The sum of the values of a table.
  ghost function Sum<K>(m: map<K, nat>): nat
    decreases |m.Keys|
  {
    if m.Keys == {} then 0 else
      var k :| k in m;
      assert (m - {k}).Keys == m.Keys - {k};
      m[k] + Sum(m - {k})
  }

  // Sum does not depend on the order in which it visits the keys.
  lemma {:induction false} SumWithout<K>(m: map<K, nat>, k: K)
    requires k in m
    ensures Sum(m) == m[k] + Sum(m - {k})
    decreases |m.Keys|
  {
    assert (m - {k}).Keys == m.Keys - {k};
    var j :| j in m && Sum(m) == m[j] + Sum(m - {j});
    if j != k {
      assert (m - {j}).Keys == m.Keys - {j};
      SumWithout(m - {j}, k);
      SumWithout(m - {k}, j);
      assert m - {j} - {k} == m - {k} - {j};
    }
  }

  lemma SumUpdate<K>(m: map<K, nat>, k: K, v: nat)
    ensures Sum(m[k := v]) == Sum(m - {k}) + v
    ensures k in m ==> Sum(m[k := v]) == Sum(m) - m[k] + v
    ensures k !in m ==> Sum(m[k := v]) == Sum(m) + v
  {
    SumWithout(m[k := v], k);
    assert m[k := v] - {k} == m - {k};
    if k in m { SumWithout(m, k); } else { assert m - {k} == m; }
  }

  ghost function Lengths<K, T>(m: map<K, seq<T>>): map<K, nat> {
    map k | k in m :: |m[k]|
  }

  // The number of elements in all the lists of a table.
  ghost function Total<K, T>(m: map<K, seq<T>>): nat {
    Sum(Lengths(m))
  }

  lemma TotalUpdate<K, T>(m: map<K, seq<T>>, k: K, v: seq<T>)
    ensures Total(m[k := v]) == Total(m) - |At(m, k)| + |v|
  {
    SumUpdate(Lengths(m), k, |v|);
    assert Lengths(m[k := v]) == Lengths(m)[k := |v|];
  }
}
