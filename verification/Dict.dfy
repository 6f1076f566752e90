/** A Python `dict`: key-value pairs in insertion order, each key at most once. */
module Dict {

  datatype Option<+T> = None | Some(value: T)

  type Dict<K, V> = seq<(K, V)>

  ghost predicate Unique<K, V>(d: Dict<K, V>) {
    forall i, j :: 0 <= i < j < |d| ==> d[i].0 != d[j].0
  }

  function Get<K(==), V>(d: Dict<K, V>, k: K): (v: Option<V>)
    ensures v.Some? <==> exists i :: 0 <= i < |d| && d[i].0 == k
    ensures v.Some? ==> (k, v.value) in d
  {
    if d == [] then None
    else if d[0].0 == k then Some(d[0].1)
    else
      var v := Get(d[1..], k);
      assert v.Some? ==> exists i :: 0 <= i < |d[1..]| && d[1..][i].0 == k;
      assert forall i :: 0 < i < |d| ==> d[i] == d[1..][i - 1];
      v
  }

  /** `d[k] = v`: overwrites in place, or appends a new key. */
  function Put<K(==), V>(d: Dict<K, V>, k: K, v: V): Dict<K, V> {
    if d == [] then [(k, v)]
    else if d[0].0 == k then [(k, v)] + d[1..]
    else [d[0]] + Put(d[1..], k, v)
  }

  /** `d.pop(k, None)` */
  function Pop<K(==), V>(d: Dict<K, V>, k: K): Dict<K, V> {
    if d == [] then []
    else if d[0].0 == k then Pop(d[1..], k)
    else [d[0]] + Pop(d[1..], k)
  }

  lemma {:induction false} GetPut<K, V>(d: Dict<K, V>, k: K, v: V, x: K)
    ensures Get(Put(d, k, v), x) == if x == k then Some(v) else Get(d, x)
  {
    if d == [] {
    } else if d[0].0 == k {
      assert ([(k, v)] + d[1..])[1..] == d[1..];
    } else {
      GetPut(d[1..], k, v, x);
      assert Put(d, k, v)[1..] == Put(d[1..], k, v);
    }
  }

  lemma {:induction false} GetPop<K, V>(d: Dict<K, V>, k: K, x: K)
    ensures Get(Pop(d, k), x) == if x == k then None else Get(d, x)
  {
    if d == [] {
    } else {
      GetPop(d[1..], k, x);
      if d[0].0 != k {
        assert Pop(d, k)[1..] == Pop(d[1..], k);
      }
    }
  }

  lemma {:induction false} PutUnique<K, V>(d: Dict<K, V>, k: K, v: V)
    requires Unique(d)
    ensures Unique(Put(d, k, v))
    ensures Get(d, k).None? ==> Put(d, k, v) == d + [(k, v)]
    ensures forall e :: e in Put(d, k, v) ==> e == (k, v) || e in d
  {
    if d == [] {
    } else if d[0].0 == k {
      assert d[0].0 == k;
    } else {
      assert Unique(d[1..]);
      PutUnique(d[1..], k, v);
      var rest := Put(d[1..], k, v);
      forall j | 0 <= j < |rest|
        ensures rest[j].0 != d[0].0
      {
        assert rest[j] in rest;
      }
      assert d == [d[0]] + d[1..];
    }
  }

  lemma {:induction false} PopUnique<K, V>(d: Dict<K, V>, k: K)
    requires Unique(d)
    ensures Unique(Pop(d, k))
    ensures forall e :: e in Pop(d, k) ==> e in d && e.0 != k
    ensures forall e :: e in d && e.0 != k ==> e in Pop(d, k)
  {
    if d == [] {
    } else {
      assert Unique(d[1..]);
      PopUnique(d[1..], k);
      assert d == [d[0]] + d[1..];
      if d[0].0 != k {
        var rest := Pop(d[1..], k);
        forall j | 0 <= j < |rest|
          ensures rest[j].0 != d[0].0
        {
          var e := rest[j];
          assert e in rest && e in d[1..];
          var i :| 0 <= i < |d[1..]| && d[1..][i] == e;
          assert d[i + 1].0 != d[0].0;
        }
      }
    }
  }

  /** In a unique dictionary an entry is what lookup finds. */
  lemma {:induction false} GetEntry<K, V>(d: Dict<K, V>, i: nat)
    requires Unique(d) && i < |d|
    ensures Get(d, d[i].0) == Some(d[i].1)
  {
    if i > 0 {
      assert d[0].0 != d[i].0;
      GetEntry(d[1..], i - 1);
    }
  }

  lemma {:induction false} GetConcat<K, V>(a: Dict<K, V>, b: Dict<K, V>, x: K)
    ensures Get(a + b, x) == if Get(a, x).Some? then Get(a, x) else Get(b, x)
  {
    if a == [] {
      assert a + b == b;
    } else {
      assert (a + b)[1..] == a[1..] + b;
      GetConcat(a[1..], b, x);
    }
  }

  /** Lookup from the last entry backwards. */
  lemma GetLast<K, V>(d: Dict<K, V>, x: K)
    requires Unique(d) && d != []
    ensures var n := |d| - 1;
      && Get(d[..n], d[n].0).None?
      && Get(d, x) == if x == d[n].0 then Some(d[n].1) else Get(d[..n], x)
  {
    var n := |d| - 1;
    assert d == d[..n] + [d[n]];
    GetConcat(d[..n], [d[n]], x);
    assert Get([d[n]], x) == if d[n].0 == x then Some(d[n].1) else None;
    assert forall i :: 0 <= i < n ==> d[..n][i].0 != d[n].0;
  }
}
