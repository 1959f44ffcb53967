/** The per-hostname classification cache kept under the `wpCache` storage key
    (popup.js:21-57). Expiry is a filter applied when reading; nothing is ever
    evicted. */
module StatusCache {
  import opened Base

  /** Seven days in milliseconds (popup.js:9). */
  const CacheDuration: int := 7 * 24 * 60 * 60 * 1000

  /** One cached classification and the time (ms since the epoch) it was recorded. */
  datatype Entry = Entry(isWordPress: bool, timestamp: int)

  /** The classification cached for `domain` that is still fresh at `now`:
      present, and strictly younger than `CacheDuration`. */
  function Lookup(store: map<string, Entry>, domain: string, now: int): Option<bool>
  {
    if domain in store && now - store[domain].timestamp < CacheDuration
    then Some(store[domain].isWordPress)
    else None
  }

  /** What `getCachedStatus` returns: a failed storage read is treated like a
      miss. */
  function CachedStatus(store: map<string, Entry>, domain: string, now: int, read: StorageResult): (r: Option<bool>)
    ensures read == StorageFailed ==> r == None
    ensures r.Some? <==> read == StorageOk && domain in store && now - store[domain].timestamp < CacheDuration
    ensures r.Some? ==> r.value == store[domain].isWordPress
  {
    if read == StorageOk then Lookup(store, domain, now) else None
  }

  /** The store after `setCachedStatus`: the whole `wpCache` object is read,
      one key is replaced, and the object is written back. If either the read
      or the write throws, the error is swallowed and the store is unchanged. */
  function AfterSet(store: map<string, Entry>, domain: string, isWordPress: bool, now: int,
                    read: StorageResult, write: StorageResult): map<string, Entry>
  {
    if read == StorageOk && write == StorageOk then store[domain := Entry(isWordPress, now)] else store
  }

  class Cache {
    /** The `wpCache` object in extension storage (an absent key reads as `{}`). */
    var store: map<string, Entry>
    /** Every `setCachedStatus` call made on this cache, in order, whether or
        not storage accepted it. */
    ghost var writes: seq<(string, bool)>

    constructor (initial: map<string, Entry>)
      ensures store == initial && writes == []
    {
      store := initial;
      writes := [];
    }

    /** `getCachedStatus(domain)` at clock reading `now`. Reading never changes
        the store: expired entries stay where they are. */
    method GetCachedStatus(domain: string, now: int, read: StorageResult) returns (r: Option<bool>)
      ensures r == CachedStatus(store, domain, now, read)
    {
      if read == StorageFailed {
        return None;
      }
      var cache := store;
      if domain in cache {
        var entry := cache[domain];
        var age := now - entry.timestamp;
        if age < CacheDuration {
          return Some(entry.isWordPress);
        }
      }
      return None;
    }

    /** `setCachedStatus(domain, isWordPress)` at clock reading `now`. */
    method SetCachedStatus(domain: string, isWordPress: bool, now: int, read: StorageResult, write: StorageResult)
      modifies this
      ensures store == AfterSet(old(store), domain, isWordPress, now, read, write)
      ensures writes == old(writes) + [(domain, isWordPress)]
    {
      writes := writes + [(domain, isWordPress)];
      if read == StorageFailed {
        return;
      }
      var cache := store;
      cache := cache[domain := Entry(isWordPress, now)];
      if write == StorageOk {
        store := cache;
      }
    }
  }

  /** A successful write is read back, with its value, at every clock reading
      strictly less than `CacheDuration` after it, and at none from then on. */
  lemma ReadYourWrite(store: map<string, Entry>, domain: string, b: bool, t: int, later: int)
    ensures Lookup(AfterSet(store, domain, b, t, StorageOk, StorageOk), domain, later)
            == if later - t < CacheDuration then Some(b) else None
  {
  }

  /** A write leaves every other domain's entry, and so its lookups, alone. */
  lemma SetLeavesOthers(store: map<string, Entry>, domain: string, b: bool, t: int,
                        read: StorageResult, write: StorageResult, other: string, now: int)
    requires other != domain
    ensures var after := AfterSet(store, domain, b, t, read, write);
            (other in after <==> other in store) &&
            (other in store ==> after[other] == store[other]) &&
            Lookup(after, other, now) == Lookup(store, other, now)
  {
  }

  /** The keys after a write are the old keys plus `domain` (or the old keys
      when the write failed): at most one entry per domain, none removed. */
  lemma SetKeys(store: map<string, Entry>, domain: string, b: bool, t: int,
                read: StorageResult, write: StorageResult)
    ensures AfterSet(store, domain, b, t, read, write).Keys
            == if read == StorageOk && write == StorageOk then store.Keys + {domain} else store.Keys
  {
  }

  /** Expiry is monotone in time: once an entry reads as absent because of
      its age, it reads as absent at every later clock reading. */
  lemma ExpiryIsMonotone(store: map<string, Entry>, domain: string, t1: int, t2: int)
    requires t1 <= t2
    requires domain in store && Lookup(store, domain, t1) == None
    ensures Lookup(store, domain, t2) == None
  {
  }

  /** The boundary: the duration is 604800000 ms; an entry exactly that old
      is treated as absent, one millisecond younger is a hit. */
  lemma ExpiryBoundary(b: bool, t: int)
    ensures CacheDuration == 604800000
    ensures Lookup(map["example.com" := Entry(b, t)], "example.com", t + 604800000) == None
    ensures Lookup(map["example.com" := Entry(b, t)], "example.com", t + 604799999) == Some(b)
  {
  }
}
