/**
 * Plain JavaScript objects used as dictionaries (carriers, baggage, tag sets):
 * their own string keys in insertion order, each key at most once.
 */
module Dict {
  import opened Wrappers

  type Entries<V> = seq<(string, V)>

  predicate DistinctKeys<V>(d: Entries<V>) {
    forall i, j :: 0 <= i < j < |d| ==> d[i].0 != d[j].0
  }

  /** `d[k]` for an own key `k`, or `undefined`. */
  function Get<V>(d: Entries<V>, k: string): (r: Option<V>)
    ensures r.None? <==> forall i :: 0 <= i < |d| ==> d[i].0 != k
  {
    if d == [] then None
    else if d[0].0 == k then Some(d[0].1)
    else Get(d[1..], k)
  }

  /**
   * `d[k] = v`: an existing key keeps its position and takes the new value,
   * a new key is appended.
   */
  function Put<V>(d: Entries<V>, k: string, v: V): (r: Entries<V>)
    ensures Get(r, k) == Some(v)
    ensures forall k' :: k' != k ==> Get(r, k') == Get(d, k')
    ensures Get(d, k).None? ==> r == d + [(k, v)]
    ensures Get(d, k).Some? ==> |r| == |d|
  {
    if d == [] then [(k, v)]
    else if d[0].0 == k then [(k, v)] + d[1..]
    else [d[0]] + Put(d[1..], k, v)
  }

  /** Assignment keeps every key unique. */
  lemma PutKeepsDistinct<V>(d: Entries<V>, k: string, v: V)
    requires DistinctKeys(d)
    ensures DistinctKeys(Put(d, k, v))
  {
    if Get(d, k).Some? {
      PutKeepsKeys(d, k, v);
    }
  }

  /** Assigning to an existing key changes no key at any position. */
  lemma {:induction false} PutKeepsKeys<V>(d: Entries<V>, k: string, v: V)
    requires Get(d, k).Some?
    ensures |Put(d, k, v)| == |d|
    ensures forall j :: 0 <= j < |d| ==> Put(d, k, v)[j].0 == d[j].0
  {
    if d[0].0 != k {
      PutKeepsKeys(d[1..], k, v);
    }
  }

  /** Assigning every entry of `items` in order, as a `for ... in` loop of assignments does. */
  function PutAll<V>(d: Entries<V>, items: Entries<V>): Entries<V>
  {
    if items == [] then d
    else
      var last := items[|items| - 1];
      Put(PutAll(d, items[..|items| - 1]), last.0, last.1)
  }

  /** Assigning distinct fresh keys appends them in order. */
  lemma {:induction false} PutAllFresh<V>(d: Entries<V>, items: Entries<V>)
    requires DistinctKeys(items)
    requires forall i, j :: 0 <= i < |d| && 0 <= j < |items| ==> d[i].0 != items[j].0
    ensures PutAll(d, items) == d + items
  {
    if items != [] {
      var init := items[..|items| - 1];
      var last := items[|items| - 1];
      PutAllFresh(d, init);
      assert Get(d + init, last.0).None? by {
        forall i | 0 <= i < |d + init| ensures (d + init)[i].0 != last.0 {
          if i >= |d| { assert (d + init)[i] == items[i - |d|]; }
        }
      }
      assert init + [last] == items;
    }
  }

  /** With distinct keys, looking up the key of an entry finds that entry's value. */
  lemma {:induction false} GetAt<V>(d: Entries<V>, i: nat)
    requires DistinctKeys(d) && i < |d|
    ensures Get(d, d[i].0) == Some(d[i].1)
  {
    if i > 0 {
      GetAt(d[1..], i - 1);
      assert d[1..][i - 1] == d[i];
    }
  }

  /** Assigning keys other than `k` leaves what `k` reads unchanged. */
  lemma {:induction false} PutAllOther<V>(d: Entries<V>, items: Entries<V>, k: string)
    requires forall i :: 0 <= i < |items| ==> items[i].0 != k
    ensures Get(PutAll(d, items), k) == Get(d, k)
  {
    if items != [] {
      PutAllOther(d, items[..|items| - 1], k);
    }
  }
}
