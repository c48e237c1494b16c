/**
 * The expiring station cache of services/radioService.ts (`getFromCache`,
 * `setToCache`) over the browser's `localStorage`. The storage is an object
 * whose item table the two operations read, replace and remove entries of;
 * `JSON.parse` failure is the `Unparsable` item and `Date.now()` is a parameter.
 */
module StationCache {
  import opened Wrappers
  import opened RadioTypes

  const CACHE_KEY_PREFIX: string := "streamflow_station_cache_v6_"
  const CACHE_TTL_MINUTES: int := 30
  /** The time to live in milliseconds: 30 * 60 * 1000 = 1 800 000. */
  const CACHE_TTL_MS: int := CACHE_TTL_MINUTES * 60 * 1000

  /** The serialised `{ data, timestamp }` record. */
  datatype CacheEntry = CacheEntry(data: seq<Station>, timestamp: int)

  /** A stored item: a well-formed entry, the empty string, or text `JSON.parse` rejects. */
  datatype StoredItem = Serialized(entry: CacheEntry) | EmptyText | Unparsable

  /** The browser's `localStorage`, as a table from storage key to stored item. */
  class LocalStorage {
    var items: map<string, StoredItem>

    constructor (initial: map<string, StoredItem>)
      ensures items == initial
    {
      items := initial;
    }
  }

  /** The namespaced storage key of a cache key. */
  function StorageKey(key: string): string {
    CACHE_KEY_PREFIX + key
  }

  /** What `getFromCache(key)` returns at time `now`: the data of an entry younger than the TTL. */
  function CachedValue(items: map<string, StoredItem>, key: string, now: int): Option<seq<Station>> {
    var k := StorageKey(key);
    if k in items && items[k].Serialized? && now - items[k].entry.timestamp < CACHE_TTL_MS
    then Some(items[k].entry.data)
    else None
  }

  /** The storage after `getFromCache(key)` at time `now`: an expired or unparsable item is removed. */
  function StorageAfterRead(items: map<string, StoredItem>, key: string, now: int): map<string, StoredItem> {
    var k := StorageKey(key);
    if k !in items || items[k].EmptyText? then items
    else if items[k].Serialized? && now - items[k].entry.timestamp < CACHE_TTL_MS then items
    else items - {k}
  }

  /** The storage after `setToCache(key, data)` at time `now`; a failed write (quota) changes nothing. */
  function StorageAfterWrite(items: map<string, StoredItem>, key: string, data: seq<Station>, now: int,
                             writeSucceeds: bool): map<string, StoredItem> {
    if writeSucceeds then items[StorageKey(key) := Serialized(CacheEntry(data, now))] else items
  }

  /** `getFromCache(key)` with `Date.now()` = `now`. */
  method GetFromCache(storage: LocalStorage, key: string, now: int) returns (r: Option<seq<Station>>)
    modifies storage
    ensures r == CachedValue(old(storage.items), key, now)
    ensures storage.items == StorageAfterRead(old(storage.items), key, now)
  {
    var storageKey := CACHE_KEY_PREFIX + key;
    if storageKey in storage.items {
      var cached := storage.items[storageKey];
      if !cached.EmptyText? {
        if cached.Unparsable? {
          // JSON.parse throws; the catch removes the item
          storage.items := storage.items - {storageKey};
          return None;
        }
        var entry := cached.entry;
        if now - entry.timestamp < CACHE_TTL_MINUTES * 60 * 1000 {
          return Some(entry.data);
        }
        storage.items := storage.items - {storageKey};
      }
    }
    return None;
  }

  /** `setToCache(key, data)` with `Date.now()` = `now`; `writeSucceeds` is false when `setItem` throws. */
  method SetToCache(storage: LocalStorage, key: string, data: seq<Station>, now: int, writeSucceeds: bool)
    modifies storage
    ensures storage.items == StorageAfterWrite(old(storage.items), key, data, now, writeSucceeds)
  {
    if writeSucceeds {
      storage.items := storage.items[CACHE_KEY_PREFIX + key := Serialized(CacheEntry(data, now))];
    }
  }

  /** Distinct cache keys never share a storage key. */
  lemma StorageKeyInjective(a: string, b: string)
    ensures StorageKey(a) == StorageKey(b) ==> a == b
  {
    if StorageKey(a) == StorageKey(b) {
      assert a == StorageKey(a)[|CACHE_KEY_PREFIX|..];
      assert b == StorageKey(b)[|CACHE_KEY_PREFIX|..];
    }
  }

  /** A successful write is read back unchanged by any read less than the TTL after it. */
  lemma CacheRoundTrip(items: map<string, StoredItem>, key: string, data: seq<Station>, written: int, read: int)
    requires read - written < CACHE_TTL_MS
    ensures CachedValue(StorageAfterWrite(items, key, data, written, true), key, read) == Some(data)
    ensures StorageAfterRead(StorageAfterWrite(items, key, data, written, true), key, read)
         == StorageAfterWrite(items, key, data, written, true)
  {
  }

  /** A read at or after the TTL returns nothing and removes the entry. */
  lemma CacheExpiry(items: map<string, StoredItem>, key: string, data: seq<Station>, written: int, read: int)
    requires read - written >= CACHE_TTL_MS
    ensures CachedValue(StorageAfterWrite(items, key, data, written, true), key, read) == None
    ensures StorageKey(key) !in StorageAfterRead(StorageAfterWrite(items, key, data, written, true), key, read)
  {
  }

  /** An unparsable item reads as nothing and is removed; every other item is left as it was. */
  lemma CorruptEntryEvicted(items: map<string, StoredItem>, key: string, now: int)
    requires StorageKey(key) in items && items[StorageKey(key)].Unparsable?
    ensures CachedValue(items, key, now) == None
    ensures StorageAfterRead(items, key, now) == items - {StorageKey(key)}
  {
  }

  /** A read changes at most its own item, and a write to one key is invisible to reads of another. */
  lemma CacheKeysIndependent(items: map<string, StoredItem>, key: string, other: string,
                             data: seq<Station>, written: int, now: int, writeSucceeds: bool)
    requires key != other
    ensures forall k | k != StorageKey(key) ::
      (k in StorageAfterRead(items, key, now) <==> k in items) &&
      (k in items ==> StorageAfterRead(items, key, now)[k] == items[k])
    ensures CachedValue(StorageAfterWrite(items, key, data, written, writeSucceeds), other, now)
         == CachedValue(items, other, now)
  {
    StorageKeyInjective(key, other);
  }
}
