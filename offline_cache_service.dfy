/** `offlineCacheService`: the point-of-sale cache over `localStorage`,
    under the prefix `pdv_cache_`, with a fixed lifetime of thirty minutes
    and a read-only expiry test. */
module OfflineCacheService {
  import opened Text
  import opened JsValue
  import opened LocalStorage
  import CacheService

  const CACHE_KEY_PREFIX := "pdv_cache_"
  const CACHE_DURATION := 30 * 60 * 1000

  /** `set(key, data)` at instant `now`. */
  method Set(ls: Storage, key: string, data: Value, now: int, quotaExceeded: bool)
    modifies ls
    ensures quotaExceeded ==> ls.items == old(ls.items)
    ensures !quotaExceeded ==> ls.items == old(ls.items)[CACHE_KEY_PREFIX + key := Entry(data, now + CACHE_DURATION)]
  {
    SetEntry(ls, CACHE_KEY_PREFIX, key, data, CACHE_DURATION, now, quotaExceeded);
  }

  /** `get(key)` at instant `now`. */
  method Get(ls: Storage, key: string, now: int) returns (r: Value)
    modifies ls
    ensures r == Lookup(old(ls.items), CACHE_KEY_PREFIX + key, now)
    ensures ls.items == AfterLookup(old(ls.items), CACHE_KEY_PREFIX + key, now)
  {
    r := GetEntry(ls, CACHE_KEY_PREFIX, key, now);
  }

  /** `remove(key)`. */
  method Remove(ls: Storage, key: string)
    modifies ls
    ensures ls.items == old(ls.items) - {CACHE_KEY_PREFIX + key}
  {
    RemoveEntry(ls, CACHE_KEY_PREFIX, key);
  }

  /** `clear()`. */
  method Clear(ls: Storage)
    modifies ls
    ensures ls.items == Cleared(old(ls.items), CACHE_KEY_PREFIX)
  {
    ClearPrefixed(ls, CACHE_KEY_PREFIX);
  }

  /** `isExpired(key)` at instant `now`: true for a missing key or unreadable
      text, else whether `now` is past the expiry. It deletes nothing. */
  function IsExpired(items: map<string, Item>, key: string, now: int): bool {
    var k := CACHE_KEY_PREFIX + key;
    k !in items || items[k].Other? || now > items[k].expiry
  }

  /** For a key that holds an entry whose value is not `null`, `isExpired`
      is true exactly when `get` returns `null`; and a missing key is both
      expired and read as `null`. A stored `null` reads as `null` while not
      expired, so for it the two disagree. */
  lemma IsExpiredMatchesGet(items: map<string, Item>, key: string, now: int)
    ensures var k := CACHE_KEY_PREFIX + key;
      (k in items && items[k].Entry? && items[k].value != Null) ==>
        (IsExpired(items, key, now) <==> Lookup(items, k, now) == Null)
    ensures CACHE_KEY_PREFIX + key !in items ==> IsExpired(items, key, now) && Lookup(items, CACHE_KEY_PREFIX + key, now) == Null
    ensures var stored := items[CACHE_KEY_PREFIX + key := Entry(Null, now)];
      !IsExpired(stored, key, now) && Lookup(stored, CACHE_KEY_PREFIX + key, now) == Null
  {
  }

  /** The two caches do not share keys: clearing either one leaves every
      key of the other in place. */
  lemma CachesIndependent(items: map<string, Item>, k: string)
    requires k in items
    ensures IsPrefix(CacheService.CACHE_PREFIX, k) ==> k in Cleared(items, CACHE_KEY_PREFIX)
    ensures IsPrefix(CACHE_KEY_PREFIX, k) ==> k in Cleared(items, CacheService.CACHE_PREFIX)
  {
    if IsPrefix(CacheService.CACHE_PREFIX, k) {
      assert k[0] == 's';
      assert !IsPrefix(CACHE_KEY_PREFIX, k);
    }
    if IsPrefix(CACHE_KEY_PREFIX, k) {
      assert k[0] == 'p';
      assert !IsPrefix(CacheService.CACHE_PREFIX, k);
    }
  }
}
