/** Sets and maps with the same members are equal; a set that is not empty has one. */
module Collections {

  lemma SomeMember<T>(s: set<T>) returns (x: T)
    requires s != {}
    ensures x in s
  {
    x :| x in s;
  }

  lemma SameSet<T(!new)>(a: set<T>, b: set<T>)
    requires forall x :: x in a <==> x in b
    ensures a == b
  {
  }

  lemma SameMap<K(!new), V>(a: map<K, V>, b: map<K, V>)
    requires forall k :: k in a <==> k in b
    requires forall k :: k in a ==> a[k] == b[k]
    ensures a == b
  {
  }
}
