/**
 * JavaScript's `Map` as used by the virtual file system and the user database: an
 * insertion-ordered association list. `set` on a present key replaces its value where it stands,
 * on a new key appends; `delete` removes the pair and keeps the order of the rest.
 */
module OrdMap {
  import opened Wrappers

  type Entries<K, V> = seq<(K, V)>

  function Keys<K, V>(m: Entries<K, V>): (r: seq<K>)
    ensures |r| == |m| && forall i :: 0 <= i < |m| ==> r[i] == m[i].0
  {
    if |m| == 0 then [] else [m[0].0] + Keys(m[1..])
  }

  /** No key occurs twice, as in a real `Map`. */
  predicate Distinct<K(==), V>(m: Entries<K, V>)
  {
    forall i, j :: 0 <= i < j < |m| ==> m[i].0 != m[j].0
  }

  predicate HasKey<K(==), V>(m: Entries<K, V>, k: K)
  {
    exists i :: 0 <= i < |m| && m[i].0 == k
  }

  /** `m.get(k)`: the value of the first pair with key `k`. */
  function Get<K(==), V>(m: Entries<K, V>, k: K): (r: Option<V>)
    ensures r.Some? <==> HasKey(m, k)
    ensures r.Some? ==> exists i :: 0 <= i < |m| && m[i] == (k, r.value)
  {
    if |m| == 0 then None
    else if m[0].0 == k then Some(m[0].1)
    else
      var r := Get(m[1..], k);
      assert r.Some? ==> m[1..][IndexWhere(m[1..], k, r.value)] == (k, r.value);
      assert HasKey(m[1..], k) ==> HasKey(m, k) by {
        if HasKey(m[1..], k) {
          var i :| 0 <= i < |m[1..]| && m[1..][i].0 == k;
          assert m[i + 1].0 == k;
        }
      }
      r
  }

  ghost function IndexWhere<K, V>(m: Entries<K, V>, k: K, v: V): (i: nat)
    requires exists i :: 0 <= i < |m| && m[i] == (k, v)
    ensures i < |m| && m[i] == (k, v)
  {
    if m[0] == (k, v) then 0
    else
      assert exists i :: 0 <= i < |m[1..]| && m[1..][i] == (k, v) by {
        var j :| 0 <= j < |m| && m[j] == (k, v);
        assert m[1..][j - 1] == m[j];
      }
      1 + IndexWhere(m[1..], k, v)
  }

  /** `m.set(k, v)`. */
  function Set<K(==), V>(m: Entries<K, V>, k: K, v: V): (r: Entries<K, V>)
    ensures HasKey(m, k) ==> |r| == |m| && forall i :: 0 <= i < |m| ==> r[i] == (if m[i].0 == k then (k, v) else m[i])
    ensures !HasKey(m, k) ==> r == m + [(k, v)]
  {
    if |m| == 0 then [(k, v)]
    else if m[0].0 == k then [(k, v)] + SetAll(m[1..], k, v)
    else
      assert HasKey(m, k) <==> HasKey(m[1..], k) by {
        if HasKey(m, k) {
          var i :| 0 <= i < |m| && m[i].0 == k;
          assert m[1..][i - 1].0 == k;
        }
        if HasKey(m[1..], k) {
          var i :| 0 <= i < |m[1..]| && m[1..][i].0 == k;
          assert m[i + 1].0 == k;
        }
      }
      [m[0]] + Set(m[1..], k, v)
  }

  /** Replaces the value of every pair with key `k` (in a distinct map there is at most one). */
  function SetAll<K(==), V>(m: Entries<K, V>, k: K, v: V): (r: Entries<K, V>)
    ensures |r| == |m| && forall i :: 0 <= i < |m| ==> r[i] == (if m[i].0 == k then (k, v) else m[i])
  {
    if |m| == 0 then [] else [if m[0].0 == k then (k, v) else m[0]] + SetAll(m[1..], k, v)
  }

  /** `m.delete(k)`: every pair with key `k` is removed, the others keep their order. */
  function Delete<K(==), V>(m: Entries<K, V>, k: K): (r: Entries<K, V>)
    ensures |r| <= |m|
    ensures !HasKey(r, k)
    ensures forall i :: 0 <= i < |r| ==> r[i] in m && r[i].0 != k
    ensures forall i :: 0 <= i < |m| && m[i].0 != k ==> m[i] in r
  {
    if |m| == 0 then []
    else if m[0].0 == k then Delete(m[1..], k)
    else [m[0]] + Delete(m[1..], k)
  }

  /** `new Map(entries)`: the pairs inserted one after the other. */
  function FromEntries<K(==), V>(es: Entries<K, V>): (r: Entries<K, V>)
  {
    if |es| == 0 then [] else Set(FromEntries(es[..|es| - 1]), es[|es| - 1].0, es[|es| - 1].1)
  }

  lemma SetFind<K, V>(m: Entries<K, V>, k: K, v: V, k': K)
    requires Distinct(m)
    ensures Distinct(Set(m, k, v))
    ensures Get(Set(m, k, v), k') == if k' == k then Some(v) else Get(m, k')
  {
    var r := Set(m, k, v);
    assert Keys(r) == Keys(m) || Keys(r) == Keys(m) + [k];
    GetUnique(r, k');
    GetUnique(m, k');
    if HasKey(r, k') {
      var i :| 0 <= i < |r| && r[i].0 == k';
      if i < |m| && m[i].0 != k {
        assert m[i] == r[i];
      }
    }
    if HasKey(m, k') && k' != k {
      var i :| 0 <= i < |m| && m[i].0 == k';
      assert r[i] == m[i];
    }
  }

  /** In a distinct map the value `Get` returns is the one of the pair with that key. */
  lemma GetUnique<K, V>(m: Entries<K, V>, k: K)
    ensures Distinct(m) ==> forall i :: 0 <= i < |m| && m[i].0 == k ==> Get(m, k) == Some(m[i].1)
  {
    if Distinct(m) {
      forall i | 0 <= i < |m| && m[i].0 == k
        ensures Get(m, k) == Some(m[i].1)
      {
        var j := IndexWhere(m, k, Get(m, k).value);
      }
    }
  }

  lemma DeleteFind<K, V>(m: Entries<K, V>, k: K, k': K)
    requires Distinct(m)
    ensures Distinct(Delete(m, k))
    ensures Get(Delete(m, k), k') == if k' == k then None else Get(m, k')
  {
    var r := Delete(m, k);
    DeleteDistinct(m, k);
    GetUnique(r, k');
    GetUnique(m, k');
    if k' != k {
      if HasKey(m, k') {
        var i :| 0 <= i < |m| && m[i].0 == k';
        assert m[i] in r;
      }
      if HasKey(r, k') {
        var i :| 0 <= i < |r| && r[i].0 == k';
        assert r[i] in m;
      }
    }
  }

  lemma {:induction false} DeleteDistinct<K, V>(m: Entries<K, V>, k: K)
    requires Distinct(m)
    ensures Distinct(Delete(m, k))
  {
    if |m| > 0 {
      DeleteDistinct(m[1..], k);
      if m[0].0 != k {
        var r := Delete(m[1..], k);
        forall j | 0 <= j < |r| ensures r[j].0 != m[0].0 {
          assert r[j] in m[1..];
        }
      }
    }
  }

  /** Building a `Map` from pairs whose keys are distinct keeps them as they are. */
  lemma {:induction false} FromDistinctEntries<K, V>(es: Entries<K, V>)
    requires Distinct(es)
    ensures FromEntries(es) == es
  {
    if |es| > 0 {
      var init := es[..|es| - 1];
      FromDistinctEntries(init);
      assert !HasKey(init, es[|es| - 1].0);
      assert init + [es[|es| - 1]] == es;
    }
  }

  /** Every pair after `set` is the new one or was there before. */
  lemma SetMembers<K, V>(m: Entries<K, V>, k: K, v: V)
    ensures forall e | e in Set(m, k, v) :: e == (k, v) || e in m
  {
    var r := Set(m, k, v);
    forall e | e in r
      ensures e == (k, v) || e in m
    {
      var i :| 0 <= i < |r| && r[i] == e;
      if HasKey(m, k) && m[i].0 != k {
        assert r[i] == m[i];
      }
    }
  }

  /** The value of the last pair with key `k`, if any. */
  function LastWith<K(==), V>(es: Entries<K, V>, k: K): (r: Option<V>)
  {
    if |es| == 0 then None
    else if es[|es| - 1].0 == k then Some(es[|es| - 1].1)
    else LastWith(es[..|es| - 1], k)
  }

  /** `new Map(entries)` has no duplicate key, and a later pair overrides an earlier one with the same key. */
  lemma {:induction false} FromEntriesGet<K, V>(es: Entries<K, V>, k: K)
    ensures Distinct(FromEntries(es))
    ensures Get(FromEntries(es), k) == LastWith(es, k)
  {
    if |es| > 0 {
      var init := es[..|es| - 1];
      FromEntriesGet(init, k);
      SetFind(FromEntries(init), es[|es| - 1].0, es[|es| - 1].1, k);
    }
  }

  /** The pair at `k` gives the value of its key when no later pair has that key. */
  lemma {:induction false} LastWithAt<K, V>(es: Entries<K, V>, k: nat)
    requires k < |es| && forall j :: k < j < |es| ==> es[j].0 != es[k].0
    ensures LastWith(es, es[k].0) == Some(es[k].1)
    decreases |es|
  {
    if k < |es| - 1 {
      LastWithAt(es[..|es| - 1], k);
    }
  }

  /** A key no pair carries has no value. */
  lemma {:induction false} LastWithNone<K, V>(es: Entries<K, V>, key: K)
    requires forall j :: 0 <= j < |es| ==> es[j].0 != key
    ensures LastWith(es, key) == None
    decreases |es|
  {
    if |es| > 0 {
      LastWithNone(es[..|es| - 1], key);
    }
  }

  /** Every pair of `new Map(entries)` is one of the entries. */
  lemma {:induction false} FromEntriesFrom<K, V>(es: Entries<K, V>)
    ensures forall e | e in FromEntries(es) :: e in es
    decreases |es|
  {
    if |es| > 0 {
      var init := es[..|es| - 1];
      FromEntriesFrom(init);
      SetMembers(FromEntries(init), es[|es| - 1].0, es[|es| - 1].1);
      forall e | e in init
        ensures e in es
      {
        var i :| 0 <= i < |init| && init[i] == e;
        assert es[i] == e;
      }
    }
  }
}
