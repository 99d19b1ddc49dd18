/**
 * Go's `for k, v := range m` visits the keys of a map in an order the runtime chooses afresh on
 * every run. What such a loop appends is therefore specified here as a multiset: the sum, over
 * every key, of what the loop body appends for that key.
 */
module Bags {

  /** The multiset sum of `f(k)` over the keys in `keys`, in no particular order. */
  ghost function Union<K, T>(keys: set<K>, f: K -> multiset<T>): multiset<T>
    decreases keys
  {
    if keys == {} then multiset{}
    else
      var k :| k in keys;
      f(k) + Union(keys - {k}, f)
  }

  /** Any key may be taken out first: the sum does not depend on the visiting order. */
  lemma {:induction false} UnionRemove<K, T>(keys: set<K>, f: K -> multiset<T>, k: K)
    requires k in keys
    ensures Union(keys, f) == f(k) + Union(keys - {k}, f)
    decreases keys
  {
    var j :| j in keys && Union(keys, f) == f(j) + Union(keys - {j}, f);
    if j != k {
      UnionRemove(keys - {j}, f, k);
      UnionRemove(keys - {k}, f, j);
      assert keys - {j} - {k} == keys - {k} - {j};
    }
  }

  /**
   * One pass of a map loop: when the body appends `f(k)` for the key `k` it picked from the
   * keys still to visit, what has been appended plus what is left to append stays the total.
   */
  lemma UnionStep<K, T>(keys: set<K>, todo: set<K>, f: K -> multiset<T>, k: K, done: multiset<T>, added: multiset<T>)
    requires k in todo && added == f(k)
    requires done + Union(todo, f) == Union(keys, f)
    ensures (done + added) + Union(todo - {k}, f) == Union(keys, f)
  {
    UnionRemove(todo, f, k);
  }

  /**
   * A map loop that stops early, having appended only part of what the body appends for the
   * key it stopped at, has appended part of the total.
   */
  lemma UnionPartial<K, T>(keys: set<K>, todo: set<K>, f: K -> multiset<T>, k: K, done: multiset<T>, part: multiset<T>)
    requires k in todo && part <= f(k)
    requires done + Union(todo, f) == Union(keys, f)
    ensures done + part <= Union(keys, f)
  {
    UnionRemove(todo, f, k);
  }

  /** An element is in the sum exactly when some key contributes it. */
  lemma {:induction false} UnionMember<K, T>(keys: set<K>, f: K -> multiset<T>, x: T)
    ensures x in Union(keys, f) <==> exists k :: k in keys && x in f(k)
    decreases keys
  {
    if keys != {} {
      var k :| k in keys && Union(keys, f) == f(k) + Union(keys - {k}, f);
      UnionMember(keys - {k}, f, x);
    }
  }

  /** Summing over no keys, or over keys that all contribute nothing, gives nothing. */
  lemma {:induction false} UnionEmpty<K, T>(keys: set<K>, f: K -> multiset<T>)
    requires forall k :: k in keys ==> f(k) == multiset{}
    ensures Union(keys, f) == multiset{}
    decreases keys
  {
    if keys != {} {
      var k :| k in keys && Union(keys, f) == f(k) + Union(keys - {k}, f);
      UnionEmpty(keys - {k}, f);
    }
  }
}
