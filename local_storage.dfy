/** The browser's `localStorage` as the two front-end caches use it, and the
    operations both caches perform on it under a key prefix: store a value
    with an expiry instant, read it back with lazy expiry, remove one key,
    and remove every key under the prefix.

    Items are kept as what the cache wrote (`Entry`) or as other text. The
    JSON text of an entry is not modelled: an entry holds the value and the
    expiry themselves. */
module LocalStorage {
  import opened Text
  import opened JsValue

  datatype Item =
    | Entry(value: Value, expiry: int)
    /** Text that is not the JSON of an entry: `JSON.parse` rejects it. */
    | Other(text: string)

  /** The storage area, key by key. */
  class Storage {
    var items: map<string, Item>

    constructor()
      ensures items == map[]
    {
      items := map[];
    }
  }

  // ------------------------------------------------------------ specification

  /** What a read of key `k` at instant `now` returns: the value of an entry
      that has not expired, and `null` for a missing key, an expired entry or
      unreadable text. */
  function Lookup(items: map<string, Item>, k: string, now: int): Value {
    if k in items && items[k].Entry? && now <= items[k].expiry then items[k].value else Null
  }

  /** The storage after that read: an expired entry is deleted. */
  function AfterLookup(items: map<string, Item>, k: string, now: int): map<string, Item> {
    if k in items && items[k].Entry? && now > items[k].expiry then items - {k} else items
  }

  /** The storage without the keys that start with `prefix`. */
  function Cleared(items: map<string, Item>, prefix: string): map<string, Item> {
    map k | k in items && !IsPrefix(prefix, k) :: items[k]
  }

  // ------------------------------------------------------------ operations

  /** `set(key, data, expiryMs)` at instant `now`. `quotaExceeded` stands for
      a `setItem` that throws, which the cache catches and ignores. */
  method SetEntry(ls: Storage, prefix: string, key: string, data: Value, expiryMs: int, now: int, quotaExceeded: bool)
    modifies ls
    ensures quotaExceeded ==> ls.items == old(ls.items)
    ensures !quotaExceeded ==> ls.items == old(ls.items)[prefix + key := Entry(data, now + expiryMs)]
  {
    if !quotaExceeded {
      ls.items := ls.items[prefix + key := Entry(data, now + expiryMs)];
    }
  }

  /** `get(key)` at instant `now`. */
  method GetEntry(ls: Storage, prefix: string, key: string, now: int) returns (r: Value)
    modifies ls
    ensures r == Lookup(old(ls.items), prefix + key, now)
    ensures ls.items == AfterLookup(old(ls.items), prefix + key, now)
  {
    var k := prefix + key;
    if k !in ls.items {
      return Null;
    }
    match ls.items[k]
    case Other(_) =>
      r := Null;
    case Entry(value, expiry) =>
      if now > expiry {
        ls.items := ls.items - {k};
        return Null;
      }
      r := value;
  }

  /** `remove(key)`. */
  method RemoveEntry(ls: Storage, prefix: string, key: string)
    modifies ls
    ensures ls.items == old(ls.items) - {prefix + key}
  {
    ls.items := ls.items - {prefix + key};
  }

  /** `clear()`: collect the keys that start with the prefix, then remove
      them one at a time. */
  method ClearPrefixed(ls: Storage, prefix: string)
    modifies ls
    ensures ls.items == Cleared(old(ls.items), prefix)
  {
    ghost var start := ls.items;
    var pending := set k | k in ls.items.Keys && IsPrefix(prefix, k);
    while pending != {}
      invariant pending <= start.Keys
      invariant forall k :: k in pending ==> IsPrefix(prefix, k)
      invariant forall k :: k in ls.items <==> k in start && (k in pending || !IsPrefix(prefix, k))
      invariant forall k :: k in ls.items ==> ls.items[k] == start[k]
      decreases pending
    {
      var k :| k in pending;
      ls.items := ls.items - {k};
      pending := pending - {k};
    }
    assert ls.items.Keys == Cleared(start, prefix).Keys;
  }

  // ------------------------------------------------------------ properties

  /** A value read back before its expiry instant is the value stored, and
      the entry stays; read after it, `null` comes back and the entry is
      gone. The expiry instant itself still reads the value. */
  lemma ReadAfterStore(items: map<string, Item>, k: string, data: Value, expiry: int, now: int)
    ensures var stored := items[k := Entry(data, expiry)];
      && (now <= expiry ==> Lookup(stored, k, now) == data && AfterLookup(stored, k, now) == stored)
      && (now > expiry ==> Lookup(stored, k, now) == Null && AfterLookup(stored, k, now) == items - {k})
  {
    var stored := items[k := Entry(data, expiry)];
    if now > expiry {
      assert (stored - {k}).Keys == (items - {k}).Keys;
    }
  }

  /** A read that finds nothing comes back `null` and changes nothing. */
  lemma ReadMissing(items: map<string, Item>, k: string, now: int)
    requires k !in items
    ensures Lookup(items, k, now) == Null && AfterLookup(items, k, now) == items
  {
  }

  /** A read touches no key but its own, and a second read at the same
      instant gives the same answer and the same storage. */
  lemma ReadIsLocalAndStable(items: map<string, Item>, k: string, now: int)
    ensures forall j :: j != k ==> (j in AfterLookup(items, k, now) <==> j in items)
    ensures forall j :: j != k && j in items ==> AfterLookup(items, k, now)[j] == items[j]
    ensures Lookup(AfterLookup(items, k, now), k, now) == Lookup(items, k, now)
    ensures AfterLookup(AfterLookup(items, k, now), k, now) == AfterLookup(items, k, now)
  {
  }

  /** After a removal the key reads as `null`, and every other key keeps its
      item. */
  lemma ReadAfterRemove(items: map<string, Item>, k: string, now: int)
    ensures Lookup(items - {k}, k, now) == Null
    ensures forall j :: j != k && j in items ==> j in items - {k} && (items - {k})[j] == items[j]
  {
  }

  /** Clearing removes exactly the keys under the prefix and leaves every
      other item as it was; clearing twice is clearing once. */
  lemma ClearedExactly(items: map<string, Item>, prefix: string)
    ensures forall k :: k in Cleared(items, prefix) <==> k in items && !IsPrefix(prefix, k)
    ensures forall k :: k in Cleared(items, prefix) ==> Cleared(items, prefix)[k] == items[k]
    ensures Cleared(Cleared(items, prefix), prefix) == Cleared(items, prefix)
  {
  }
}
