/** Finite sets, as the keys of a map that is iterated over. */
module Sets {
  lemma SomeMember<T>(s: set<T>) returns (x: T)
    requires s != {}
    ensures x in s
  {
    x :| x in s;
  }
}
