/** `cacheService`: a time-limited cache over `localStorage` whose keys
    carry the prefix `sweethome_cache_`, with a default lifetime of thirty
    minutes. */
module CacheService {
  import opened Text
  import opened JsValue
  import opened LocalStorage

  const CACHE_PREFIX := "sweethome_cache_"
  const CACHE_EXPIRY := 30 * 60 * 1000

  /** `set(key, data, expiryMs)` at instant `now`; a call without
      `expiryMs` passes `CACHE_EXPIRY`. */
  method Set(ls: Storage, key: string, data: Value, expiryMs: int, now: int, quotaExceeded: bool)
    modifies ls
    ensures quotaExceeded ==> ls.items == old(ls.items)
    ensures !quotaExceeded ==> ls.items == old(ls.items)[CACHE_PREFIX + key := Entry(data, now + expiryMs)]
  {
    SetEntry(ls, CACHE_PREFIX, key, data, expiryMs, now, quotaExceeded);
  }

  /** `get(key)` at instant `now`. */
  method Get(ls: Storage, key: string, now: int) returns (r: Value)
    modifies ls
    ensures r == Lookup(old(ls.items), CACHE_PREFIX + key, now)
    ensures ls.items == AfterLookup(old(ls.items), CACHE_PREFIX + key, now)
  {
    r := GetEntry(ls, CACHE_PREFIX, key, now);
  }

  /** `remove(key)`. */
  method Remove(ls: Storage, key: string)
    modifies ls
    ensures ls.items == old(ls.items) - {CACHE_PREFIX + key}
  {
    RemoveEntry(ls, CACHE_PREFIX, key);
  }

  /** `clear()`. */
  method Clear(ls: Storage)
    modifies ls
    ensures ls.items == Cleared(old(ls.items), CACHE_PREFIX)
  {
    ClearPrefixed(ls, CACHE_PREFIX);
  }

  /** Stored with the default lifetime at `t`, a value reads back up to and
      including `t` plus thirty minutes, and as `null` (its entry deleted)
      one millisecond later. */
  lemma DefaultLifetime(items: map<string, Item>, key: string, data: Value, t: int)
    ensures var stored := items[CACHE_PREFIX + key := Entry(data, t + CACHE_EXPIRY)];
      && Lookup(stored, CACHE_PREFIX + key, t + 1800000) == data
      && Lookup(stored, CACHE_PREFIX + key, t + 1800001) == Null
      && AfterLookup(stored, CACHE_PREFIX + key, t + 1800001) == items - {CACHE_PREFIX + key}
  {
    ReadAfterStore(items, CACHE_PREFIX + key, data, t + CACHE_EXPIRY, t + 1800000);
    ReadAfterStore(items, CACHE_PREFIX + key, data, t + CACHE_EXPIRY, t + 1800001);
  }
}
