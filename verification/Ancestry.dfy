/** Parent references, shared by plan nodes and Tasks: the k-th ancestor, and forests of
    bounded depth. */
module Ancestry {
  import opened Prelude

  type Parents<K> = map<K, Option<K>>

  /** The k-th ancestor. A reference to an absent row still counts as one step. */
  function Up<K(==)>(parents: Parents<K>, id: K, k: nat): Option<K>
    decreases k
  {
    if k == 0 then Some(id)
    else if id in parents && parents[id].Some? then Up(parents, parents[id].value, k - 1)
    else None
  }

  /** Every parent reference names a row. */
  predicate Closed<K(==)>(parents: Parents<K>) {
    forall id :: id in parents && parents[id].Some? ==> parents[id].value in parents
  }

  /** No row has more than `depth` parent edges above it. */
  predicate Within<K(==)>(parents: Parents<K>, depth: nat) {
    forall id :: id in parents ==> Up(parents, id, depth + 1).None?
  }

  lemma {:induction false} UpSplit<K>(parents: Parents<K>, id: K, a: nat, b: nat)
    ensures Up(parents, id, a).Some? ==> Up(parents, id, a + b) == Up(parents, Up(parents, id, a).value, b)
    ensures Up(parents, id, a).None? ==> Up(parents, id, a + b).None?
    decreases a
  {
    if a > 0 && id in parents && parents[id].Some? {
      UpSplit(parents, parents[id].value, a - 1, b);
    }
  }

  lemma OneStepUp<K>(parents: Parents<K>, id: K, k: nat, ancestor: K)
    requires Up(parents, id, k) == Some(ancestor) && ancestor in parents
    ensures Up(parents, id, k + 1) == parents[ancestor]
  {
    UpSplit(parents, id, k, 1);
    if parents[ancestor].Some? {
      assert Up(parents, parents[ancestor].value, 0) == parents[ancestor];
    }
  }

  /** A row below which the chain ends stays ended further up. */
  lemma UpEnds<K>(parents: Parents<K>, id: K, a: nat, b: nat)
    requires a <= b
    ensures Up(parents, id, a).None? ==> Up(parents, id, b).None?
  {
    UpSplit(parents, id, a, b - a);
  }

  lemma {:induction false} CycleNeverEnds<K>(parents: Parents<K>, id: K, k: nat, n: nat)
    requires k > 0 && Up(parents, id, k) == Some(id)
    ensures Up(parents, id, n).Some?
    decreases n
  {
    if n <= k {
      UpEnds(parents, id, n, k);
    } else {
      UpSplit(parents, id, k, n - k);
      CycleNeverEnds(parents, id, k, n - k);
    }
  }

  /** Bounded depth already rules out cycles: no row is its own proper ancestor. */
  lemma BoundedIsAcyclic<K>(parents: Parents<K>, depth: nat, id: K, k: nat)
    requires Within(parents, depth) && id in parents && k > 0
    ensures Up(parents, id, k) != Some(id)
  {
    if Up(parents, id, k) == Some(id) {
      CycleNeverEnds(parents, id, k, depth + 1);
    }
  }

  /** A chain that ends has a top. */
  lemma {:induction false} LevelExists<K>(parents: Parents<K>, id: K, k: nat) returns (level: nat)
    requires Up(parents, id, k + 1).None?
    ensures level <= k && Up(parents, id, level).Some? && Up(parents, id, level + 1).None?
  {
    if Up(parents, id, k).Some? { level := k; } else { level := LevelExists(parents, id, k - 1); }
  }
}
