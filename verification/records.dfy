/**
 * JavaScript plain objects used as dictionaries (`Record<string, V>`):
 * an ordered list of entries with distinct keys, in insertion order, as
 * `Object.entries` and `Object.keys` enumerate them.
 */
module Records {
  import opened Wrappers

  datatype Entry<V> = Entry(key: string, value: V)

  type Record<V> = seq<Entry<V>>

  /** `Object.keys(r)`. */
  function Keys<V>(r: Record<V>): (ks: seq<string>)
    ensures |ks| == |r|
    ensures forall i :: 0 <= i < |r| ==> ks[i] == r[i].key
  {
    if r == [] then [] else [r[0].key] + Keys(r[1..])
  }

  predicate HasKey<V>(r: Record<V>, k: string) {
    exists i :: 0 <= i < |r| && r[i].key == k
  }

  /** A JavaScript object never holds a key twice. */
  predicate DistinctKeys<V>(r: Record<V>) {
    forall i, j :: 0 <= i < j < |r| ==> r[i].key != r[j].key
  }

  /** `r[k]`, or None when `k` is not a key. */
  function Find<V>(r: Record<V>, k: string): (o: Option<V>)
    ensures o.None? <==> !HasKey(r, k)
  {
    if r == [] then None
    else if r[0].key == k then Some(r[0].value)
    else
      var o := Find(r[1..], k);
      assert HasKey(r, k) <==> HasKey(r[1..], k) by {
        if HasKey(r[1..], k) {
          var i :| 0 <= i < |r[1..]| && r[1..][i].key == k;
          assert r[i + 1].key == k;
        }
        if HasKey(r, k) {
          var i :| 0 <= i < |r| && r[i].key == k;
          assert r[1..][i - 1].key == k;
        }
      }
      o
  }

  /** `r[k] = v`: an existing key keeps its place, a new key goes last. */
  function Assign<V>(r: Record<V>, k: string, v: V): Record<V> {
    if r == [] then [Entry(k, v)]
    else if r[0].key == k then [Entry(k, v)] + r[1..]
    else [r[0]] + Assign(r[1..], k, v)
  }

  /** `delete r[k]`. */
  function Remove<V>(r: Record<V>, k: string): Record<V> {
    if r == [] then []
    else if r[0].key == k then Remove(r[1..], k)
    else [r[0]] + Remove(r[1..], k)
  }

  lemma {:induction false} AssignKeys<V>(r: Record<V>, k: string, v: V)
    ensures Keys(Assign(r, k, v)) == if HasKey(r, k) then Keys(r) else Keys(r) + [k]
  {
    if r != [] && r[0].key != k {
      AssignKeys(r[1..], k, v);
      assert HasKey(r, k) <==> HasKey(r[1..], k) by {
        assert Find(r, k) == Find(r[1..], k);
      }
    }
  }

  lemma {:induction false} AssignFind<V>(r: Record<V>, k: string, v: V, j: string)
    ensures Find(Assign(r, k, v), j) == if j == k then Some(v) else Find(r, j)
  {
    if r != [] && r[0].key != k {
      AssignFind(r[1..], k, v, j);
    }
  }

  lemma {:induction false} AssignDistinct<V>(r: Record<V>, k: string, v: V)
    requires DistinctKeys(r)
    ensures DistinctKeys(Assign(r, k, v))
  {
    AssignKeys(r, k, v);
    var a := Assign(r, k, v);
    var ka := Keys(a);
    var kr := Keys(r);
    forall i, j | 0 <= i < j < |a| ensures a[i].key != a[j].key {
      if !HasKey(r, k) && j == |r| {
        assert ka[j] == k;
        assert ka[i] == kr[i] == r[i].key;
      } else {
        assert ka[i] == kr[i] && ka[j] == kr[j];
      }
    }
  }

  lemma {:induction false} RemoveFind<V>(r: Record<V>, k: string, j: string)
    ensures Find(Remove(r, k), j) == if j == k then None else Find(r, j)
  {
    if r != [] {
      RemoveFind(r[1..], k, j);
    }
  }

  /** Deleting a key keeps the order of the others: removal is a subsequence. */
  lemma {:induction false} RemoveNotFound<V>(r: Record<V>, k: string)
    requires !HasKey(r, k)
    ensures Remove(r, k) == r
  {
    if r != [] {
      assert Find(r, k) == Find(r[1..], k);
      RemoveNotFound(r[1..], k);
    }
  }

  /** Assigning each pair in turn, as `pairs.forEach(([k, v]) => { r[k] = v })`. */
  function AssignAll<V>(r: Record<V>, pairs: seq<Entry<V>>): Record<V>
    decreases |pairs|
  {
    if pairs == [] then r
    else AssignAll(Assign(r, pairs[0].key, pairs[0].value), pairs[1..])
  }

  /** Assigning the entries of an object, in order, into an empty object rebuilds it. */
  lemma {:induction false} AssignAllDistinct<V>(r: Record<V>, pairs: seq<Entry<V>>)
    requires DistinctKeys(r + pairs)
    ensures AssignAll(r, pairs) == r + pairs
    decreases |pairs|
  {
    if pairs != [] {
      var p := pairs[0];
      forall i | 0 <= i < |r| ensures r[i].key != p.key {
        assert (r + pairs)[i] == r[i] && (r + pairs)[|r|] == p;
      }
      AssignAppend(r, p.key, p.value);
      assert r + pairs == (r + [p]) + pairs[1..];
      AssignAllDistinct(r + [p], pairs[1..]);
    }
  }

  lemma {:induction false} AssignAppend<V>(r: Record<V>, k: string, v: V)
    requires !HasKey(r, k)
    ensures Assign(r, k, v) == r + [Entry(k, v)]
  {
    if r != [] {
      assert Find(r, k) == Find(r[1..], k);
      AssignAppend(r[1..], k, v);
    }
  }

  /** Assigning into an object keeps its keys distinct. */
  lemma {:induction false} AssignAllKeepsDistinct<V>(r: Record<V>, pairs: seq<Entry<V>>)
    requires DistinctKeys(r)
    ensures DistinctKeys(AssignAll(r, pairs))
    decreases |pairs|
  {
    if pairs != [] {
      AssignDistinct(r, pairs[0].key, pairs[0].value);
      AssignAllKeepsDistinct(Assign(r, pairs[0].key, pairs[0].value), pairs[1..]);
    }
  }

  /** Deleting a key that sits, once, between two other runs of entries. */
  lemma {:induction false} RemoveMiddle<V>(a: Record<V>, x: Entry<V>, b: Record<V>)
    requires !HasKey(a, x.key) && !HasKey(b, x.key)
    ensures Remove(a + [x] + b, x.key) == a + b
  {
    if a == [] {
      assert ([x] + b)[1..] == b;
      RemoveNotFound(b, x.key);
    } else {
      assert (a + [x] + b)[1..] == a[1..] + [x] + b;
      assert Find(a, x.key) == Find(a[1..], x.key);
      RemoveMiddle(a[1..], x, b);
    }
  }

  lemma {:induction false} FindAppend<V>(r: Record<V>, x: Entry<V>, k: string)
    ensures Find(r + [x], k) == if Find(r, k).Some? then Find(r, k) else if x.key == k then Some(x.value) else None
  {
    if r != [] {
      assert (r + [x])[1..] == r[1..] + [x];
      FindAppend(r[1..], x, k);
    }
  }

  /** In an object with distinct keys, the last entry's key is not among the earlier ones. */
  lemma LastKeyFresh<V>(r: Record<V>)
    requires DistinctKeys(r) && r != []
    ensures Find(r[..|r| - 1], r[|r| - 1].key).None?
    ensures DistinctKeys(r[..|r| - 1])
  {
    var init := r[..|r| - 1];
    forall i | 0 <= i < |init| ensures init[i].key != r[|r| - 1].key {
      assert init[i] == r[i];
    }
  }
}
