// A string-keyed store that hands back a fallback for a missing key
// (BaseLibrary/DataBag.h). The C++ bag erases the value type behind
// `shared_ptr<void>`; here one bag holds values of one type V.

module Bags {

  /** The value `get` hands back: the one stored under key, else the fallback. */
  function Lookup<V>(m: map<string, V>, key: string, fallback: V): (v: V)
    ensures key in m ==> v == m[key]
    ensures key !in m ==> v == fallback
  {
    if key in m then m[key] else fallback
  }

  class DataBag<V> {
    /** `_map`, with each stored copy held by value. */
    var entries: map<string, V>

    constructor()
      ensures entries == map[]
    {
      entries := map[];
    }

    /** `put`: a copy of value replaces whatever was stored under key. */
    method Put(key: string, value: V)
      modifies this
      ensures entries == old(entries)[key := value]
      ensures forall fallback :: Get(key, fallback) == value
    {
      entries := entries[key := value];
    }

    /** `get`: a read-only lookup with a fallback. */
    function Get(key: string, fallback: V): (v: V)
      reads this
      ensures key in entries ==> v == entries[key]
      ensures key !in entries ==> v == fallback
    {
      Lookup(entries, key, fallback)
    }
  }

  /** A put changes what one key reads and leaves every other key's reading alone. */
  lemma LookupAfterPut<V>(m: map<string, V>, key: string, value: V, other: string, fallback: V)
    ensures Lookup(m[key := value], key, fallback) == value
    ensures other != key ==> Lookup(m[key := value], other, fallback) == Lookup(m, other, fallback)
  {
  }

  /** Putting a key twice keeps only the second value. */
  lemma PutTwice<V>(m: map<string, V>, key: string, first: V, second: V)
    ensures m[key := first][key := second] == m[key := second]
  {
  }
}
