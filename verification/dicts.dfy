/** Python dicts with str keys, kept as their entries in insertion order, so
    that results which must not depend on that order can be proved so. */
module Dicts {
  import opened Wrappers
  import opened Seqs

  type Dict<V> = seq<(string, V)>

  /** The keys in insertion order, Python's `list(d.keys())`. */
  function Keys<V>(d: Dict<V>): (ks: seq<string>)
    ensures |ks| == |d|
    ensures forall i :: 0 <= i < |d| ==> ks[i] == d[i].0
  {
    seq(|d|, i requires 0 <= i < |d| => d[i].0)
  }

  /** A real Python dict never holds a key twice. */
  predicate Distinct<V>(d: Dict<V>) {
    forall i, j :: 0 <= i < j < |d| ==> d[i].0 != d[j].0
  }

  /** The mapping a dict denotes (a later entry would win over an earlier one). */
  function ToMap<V>(d: Dict<V>): (m: map<string, V>)
    ensures forall k :: k in m <==> k in Keys(d)
  {
    if d == [] then map[]
    else
      var n := |d| - 1;
      assert Keys(d) == Keys(d[..n]) + [d[n].0];
      ToMap(d[..n])[d[n].0 := d[n].1]
  }

  /** `d.get(k)`. */
  function Get<V>(d: Dict<V>, k: string): Option<V> {
    if k in ToMap(d) then Some(ToMap(d)[k]) else None
  }

  /** Every entry whose key is `k` gets value `v`; position is kept. */
  function Replace<V>(d: Dict<V>, k: string, v: V): (r: Dict<V>)
    ensures |r| == |d|
    ensures forall i :: 0 <= i < |d| ==> r[i] == (if d[i].0 == k then (k, v) else d[i])
  {
    seq(|d|, i requires 0 <= i < |d| => if d[i].0 == k then (k, v) else d[i])
  }

  /** Appending an entry updates the mapping at its key. */
  lemma ToMapAppend<V>(a: Dict<V>, e: (string, V))
    ensures ToMap(a + [e]) == ToMap(a)[e.0 := e.1]
  {
    assert (a + [e])[..|a|] == a;
  }

  lemma {:induction false} ReplaceMap<V>(d: Dict<V>, k: string, v: V)
    requires k in Keys(d)
    ensures ToMap(Replace(d, k, v)) == ToMap(d)[k := v]
    decreases |d|
  {
    var n := |d| - 1;
    var r := Replace(d, k, v);
    var p := Replace(d[..n], k, v);
    assert r == p + [r[n]];
    assert d == d[..n] + [d[n]];
    ToMapAppend(p, r[n]);
    ToMapAppend(d[..n], d[n]);
    var m := ToMap(d[..n]);
    if d[n].0 == k {
      assert r[n] == (k, v);
      if k in Keys(d[..n]) {
        ReplaceMap(d[..n], k, v);
        UpdateTwice(m, k, v, v);
      } else {
        assert p == d[..n];
      }
      UpdateTwice(m, k, d[n].1, v);
    } else {
      assert r[n] == d[n];
      assert k in Keys(d[..n]);
      ReplaceMap(d[..n], k, v);
      UpdateCommute(m, k, v, d[n].0, d[n].1);
    }
  }

  lemma UpdateTwice<V>(m: map<string, V>, k: string, a: V, b: V)
    ensures m[k := a][k := b] == m[k := b]
  {
  }

  lemma UpdateCommute<V>(m: map<string, V>, k: string, a: V, x: string, b: V)
    requires x != k
    ensures m[k := a][x := b] == m[x := b][k := a]
  {
  }

  /** Removing one key commutes with setting another. */
  lemma RemoveUpdate<V>(m: map<string, V>, k: string, x: string, y: V)
    requires x != k
    ensures (m - {k})[x := y] == m[x := y] - {k}
  {
  }

  /** `d[k] = v`: an existing key keeps its position, a new key goes last. */
  function Put<V>(d: Dict<V>, k: string, v: V): (r: Dict<V>)
    ensures ToMap(r) == ToMap(d)[k := v]
    ensures k in Keys(d) ==> Keys(r) == Keys(d)
    ensures k !in Keys(d) ==> Keys(r) == Keys(d) + [k]
    ensures Distinct(d) ==> Distinct(r)
  {
    if k in Keys(d) then
      ReplaceMap(d, k, v);
      Replace(d, k, v)
    else
      d + [(k, v)]
  }

  /** `del d[k]` / `d.pop(k)`: the key is gone and the rest keep their order. */
  function Del<V>(d: Dict<V>, k: string): (r: Dict<V>)
    ensures ToMap(r) == ToMap(d) - {k}
  {
    if d == [] then []
    else
      var n := |d| - 1;
      var rest := Del(d[..n], k);
      DelStep(d, k, rest);
      if d[n].0 == k then rest else rest + [d[n]]
  }

  /** The inductive step of `Del`: the last entry is dropped when it has the key and
      kept otherwise. */
  lemma DelStep<V>(d: Dict<V>, k: string, rest: Dict<V>)
    requires d != [] && ToMap(rest) == ToMap(d[..|d| - 1]) - {k}
    ensures ToMap(d) - {k} == if d[|d| - 1].0 == k then ToMap(rest) else ToMap(rest + [d[|d| - 1]])
  {
    var n := |d| - 1;
    assert d == d[..n] + [d[n]];
    ToMapAppend(d[..n], d[n]);
    if d[n].0 != k {
      ToMapAppend(rest, d[n]);
      RemoveUpdate(ToMap(d[..n]), k, d[n].0, d[n].1);
    }
  }

  /** Deleting a key that is not there changes nothing. */
  lemma {:induction false} DelMissing<V>(d: Dict<V>, k: string)
    requires k !in Keys(d)
    ensures Del(d, k) == d
    decreases |d|
  {
    if d != [] {
      var n := |d| - 1;
      forall i | 0 <= i < n ensures Keys(d[..n])[i] != k {
        assert Keys(d[..n])[i] == Keys(d)[i];
      }
      DelMissing(d[..n], k);
      assert d == d[..n] + [d[n]];
    }
  }

  /** Deleting a key that is not there changes nothing, and deleting an appended
      entry undoes the append. */
  lemma DelAbsent<V>(d: Dict<V>, k: string, v: V)
    requires k !in Keys(d)
    ensures Del(d, k) == d
    ensures Del(d + [(k, v)], k) == d
  {
    DelMissing(d, k);
    var e := d + [(k, v)];
    assert e[..|e| - 1] == d;
    assert e[|e| - 1].0 == k;
  }

  /** Adding a new key and deleting it again gives back the original dict. */
  lemma DelUndoesPut<V>(d: Dict<V>, k: string, v: V)
    requires k !in Keys(d)
    ensures Del(Put(d, k, v), k) == d
  {
    DelAbsent(d, k, v);
  }

  /** Deleting a key and putting it back gives the same mapping as overwriting it. */
  lemma PutAfterDel<V>(d: Dict<V>, k: string, v: V)
    ensures ToMap(Put(Del(d, k), k, v)) == ToMap(d)[k := v]
  {
  }

  lemma {:induction false} DelDistinct<V>(d: Dict<V>, k: string)
    requires Distinct(d)
    ensures Distinct(Del(d, k))
    decreases |d|
  {
    if d != [] {
      var n := |d| - 1;
      DistinctLast(d);
      DelDistinct(d[..n], k);
      if d[n].0 != k {
        assert d[n].0 !in ToMap(Del(d[..n], k));
        DistinctAppend(Del(d[..n], k), d[n]);
      }
    }
  }

  /** The prefix of a dict without repeated keys has none, and misses the last key. */
  lemma DistinctLast<V>(d: Dict<V>)
    requires Distinct(d) && d != []
    ensures Distinct(d[..|d| - 1]) && d[|d| - 1].0 !in Keys(d[..|d| - 1])
  {
    var n := |d| - 1;
    forall i | 0 <= i < n ensures Keys(d[..n])[i] != d[n].0 {
      assert Keys(d[..n])[i] == d[i].0;
    }
  }

  /** Appending a new key keeps the keys distinct. */
  lemma DistinctAppend<V>(d: Dict<V>, e: (string, V))
    requires Distinct(d) && e.0 !in Keys(d)
    ensures Distinct(d + [e])
  {
    var r := d + [e];
    forall i, j | 0 <= i < j < |r| ensures r[i].0 != r[j].0 {
      if j < |d| {
        assert r[i] == d[i] && r[j] == d[j];
      } else {
        assert Keys(d)[i] == r[i].0;
      }
    }
  }


  /** `d.update(e)`: the entries of `e` are put one by one, in order. */
  function Update<V>(d: Dict<V>, e: Dict<V>): (r: Dict<V>)
    ensures ToMap(r) == ToMap(d) + ToMap(e)
    ensures Distinct(d) ==> Distinct(r)
  {
    if e == [] then d
    else
      var n := |e| - 1;
      assert ToMap(d) + ToMap(e) == (ToMap(d) + ToMap(e[..n]))[e[n].0 := e[n].1];
      Put(Update(d, e[..n]), e[n].0, e[n].1)
  }

  /** In a dict without repeated keys every entry is what its key maps to. */
  lemma {:induction false} EntryInMap<V>(d: Dict<V>, i: int)
    requires Distinct(d)
    requires 0 <= i < |d|
    ensures d[i].0 in ToMap(d) && ToMap(d)[d[i].0] == d[i].1
    decreases |d|
  {
    var n := |d| - 1;
    if i < n {
      EntryInMap(d[..n], i);
    }
  }

  /** Two dicts with the same contents hold the same entries, in some order. */
  lemma SameContentIsPermutation<V>(d1: Dict<V>, d2: Dict<V>)
    requires Distinct(d1) && Distinct(d2)
    requires ToMap(d1) == ToMap(d2)
    ensures multiset(d1) == multiset(d2)
    ensures multiset(Keys(d1)) == multiset(Keys(d2))
  {
    forall x ensures x in d1 ==> x in d2 {
      if x in d1 {
        SameEntry(d1, d2, x);
      }
    }
    forall x ensures x in d2 ==> x in d1 {
      if x in d2 {
        SameEntry(d2, d1, x);
      }
    }
    SameMembersSameMultiset(d1, d2);
    SameMembersSameMultiset(Keys(d1), Keys(d2));
  }

  lemma SameEntry<V>(d1: Dict<V>, d2: Dict<V>, x: (string, V))
    requires Distinct(d1) && Distinct(d2)
    requires ToMap(d1) == ToMap(d2)
    requires x in d1
    ensures x in d2
  {
    var i :| 0 <= i < |d1| && d1[i] == x;
    EntryInMap(d1, i);
    assert x.0 in Keys(d2);
    var j :| 0 <= j < |d2| && Keys(d2)[j] == x.0;
    EntryInMap(d2, j);
    assert d2[j] == x;
  }
}
