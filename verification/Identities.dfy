/** The name tables with auto-incremented ids, filled on first use. */
module Identities {

  /** `of` maps a name to its id; `next` is the next id the table hands out. */
  datatype Ids<K> = Ids(of: map<K, nat>, next: nat)

  ghost predicate Valid<K(!new)>(t: Ids<K>) {
    && 0 < t.next
    && (forall k | k in t.of :: 0 < t.of[k] < t.next)
    && forall j, k | j in t.of && k in t.of && t.of[j] == t.of[k] :: j == k
  }

  /** Looks the name up, inserts it when it is missing. */
  function Have<K(==)>(t: Ids<K>, k: K): Ids<K> {
    if k in t.of then t else Ids(t.of[k := t.next], t.next + 1)
  }

  /** Every name of `t` keeps its id. */
  ghost predicate Extends<K(!new)>(t: Ids<K>, t': Ids<K>) {
    forall k | k in t.of :: k in t'.of && t'.of[k] == t.of[k]
  }

  /** After a lookup the name has a positive id, distinct from every other name's, and no name has
      changed its own. */
  lemma HaveKeeps<K(!new)>(t: Ids<K>, k: K)
    requires Valid(t)
    ensures Valid(Have(t, k)) && Extends(t, Have(t, k))
    ensures Have(t, k).of.Keys == t.of.Keys + {k} && Have(t, k).of[k] > 0
    ensures k !in t.of ==> forall j | j in t.of :: t.of[j] != Have(t, k).of[k]
  {}
}
