/** The cache the scan matcher reads map probabilities through: a flat table
    keyed by flattened cell index. The concrete cache class is not part of
    this model; it is described by the three operations the matcher uses:
    look up, store, and reset. */
module GridCache {

  class GridMapCache {
    /** The cached probabilities, by flattened cell index. */
    var entries: map<int, real>

    constructor ()
      ensures entries == map[]
    {
      entries := map[];
    }

    /** `containsCachedData`: whether `index` is cached and, if so, its value. */
    method ContainsCachedData(index: int) returns (found: bool, val: real)
      ensures found <==> index in entries
      ensures found ==> val == entries[index]
    {
      found := index in entries;
      val := if found then entries[index] else 0.0;
    }

    /** `cacheData`: store `val` under `index`; every other entry is kept. */
    method CacheData(index: int, val: real)
      modifies this
      ensures entries == old(entries)[index := val]
    {
      entries := entries[index := val];
    }

    /** `resetCache`: nothing stays cached. */
    method ResetCache()
      modifies this
      ensures entries == map[]
    {
      entries := map[];
    }
  }
}
