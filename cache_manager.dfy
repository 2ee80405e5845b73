/** `CacheManager`: a single cache file holding JSON data, served while its
    age (now minus the file's modification time) does not exceed the TTL. */
module CacheManagement {
  import opened Wrappers
  import opened Json

  /** The cache file: what reading it back gives (`None` where it is corrupt
      or unreadable) and its modification time in seconds. */
  datatype CacheEntry = CacheEntry(content: Option<Json>, mtime: int)

  /** How an attempt to write the cache file ends. */
  datatype WriteOutcome =
    | Written      // json.dump completes
    | OpenFailed   // open(..., 'w') raises IOError: the old file stays
    | WriteFailed  // the file was truncated and the write then raised IOError

  /** What `get_cached_data` returns at time `now`. */
  function Lookup(entry: Option<CacheEntry>, ttl: int, now: int): Option<Json> {
    if entry.None? then None
    else if now - entry.value.mtime > ttl then None
    else entry.value.content
  }

  /** No entry, nothing served; an entry is served, as read, exactly while its
      age is at most the TTL (an age equal to the TTL is still fresh). */
  lemma LookupRule(entry: Option<CacheEntry>, ttl: int, now: int)
    ensures entry.None? ==> Lookup(entry, ttl, now).None?
    ensures entry.Some? && now - entry.value.mtime <= ttl ==> Lookup(entry, ttl, now) == entry.value.content
    ensures entry.Some? && now - entry.value.mtime > ttl ==> Lookup(entry, ttl, now).None?
    ensures entry.Some? && now - entry.value.mtime == ttl ==> Lookup(entry, ttl, now) == entry.value.content
  {
  }

  /** A corrupt or unreadable file reads as a miss, never as an error. */
  lemma CorruptIsMiss(mtime: int, ttl: int, now: int)
    ensures Lookup(Some(CacheEntry(None, mtime)), ttl, now) == None
  {
  }

  /** Freshness only decays: a lookup that misses for staleness keeps missing later. */
  lemma StaleStaysStale(entry: Option<CacheEntry>, ttl: int, now: int, later: int)
    requires entry.Some? && now - entry.value.mtime > ttl && later >= now
    ensures Lookup(entry, ttl, later).None?
  {
  }

  /** The cache file after `cache_data(data)` at time `now`. */
  function AfterWrite(entry: Option<CacheEntry>, data: Json, now: int, outcome: WriteOutcome): Option<CacheEntry> {
    match outcome
    case Written => Some(CacheEntry(Some(data), now))
    case OpenFailed => entry
    case WriteFailed => Some(CacheEntry(None, now))
  }

  /** Data just written is served back unchanged until the TTL has passed. */
  lemma WriteThenLookup(entry: Option<CacheEntry>, data: Json, now: int, later: int, ttl: int)
    requires later - now <= ttl
    ensures Lookup(AfterWrite(entry, data, now, Written), ttl, later) == Some(data)
  {
  }

  class CacheManager {
    const ttlSeconds: int
    var entry: Option<CacheEntry>

    /** `CacheManager(ttl_seconds)` over a cache directory as found. */
    constructor (ttlSeconds: int, entry: Option<CacheEntry>)
      ensures this.ttlSeconds == ttlSeconds && this.entry == entry
    {
      this.ttlSeconds := ttlSeconds;
      this.entry := entry;
    }

    /** `get_cached_data()` at time `now`. */
    method GetCachedData(now: int) returns (r: Option<Json>)
      ensures r == Lookup(entry, ttlSeconds, now)
      ensures r.Some? ==> entry.Some? && entry.value.content == r && now - entry.value.mtime <= ttlSeconds
    {
      if entry.None? {
        return None;
      }
      if now - entry.value.mtime > ttlSeconds {
        return None;
      }
      return entry.value.content;
    }

    /** `cache_data(data)` at time `now`: True exactly when the write completes. */
    method CacheData(data: Json, now: int, outcome: WriteOutcome) returns (ok: bool)
      modifies this
      ensures ok <==> outcome.Written?
      ensures entry == AfterWrite(old(entry), data, now, outcome)
    {
      match outcome
      case Written =>
        entry := Some(CacheEntry(Some(data), now));
        return true;
      case OpenFailed =>
        return false;
      case WriteFailed =>
        entry := Some(CacheEntry(None, now));
        return false;
    }

    /** `clear_cache()`: True when there is no file afterwards; `removeOk`
        says whether os.remove succeeds. */
    method ClearCache(removeOk: bool) returns (ok: bool)
      modifies this
      ensures old(entry).None? ==> ok && entry.None?
      ensures old(entry).Some? ==> (ok <==> removeOk)
      ensures ok <==> entry.None?
      ensures !ok ==> entry == old(entry)
    {
      if entry.Some? {
        if removeOk {
          entry := None;
          return true;
        }
        return false;
      }
      return true;
    }
  }

  /** After a successful clear nothing is served, and clearing again (the file
      being absent) succeeds without touching the store. */
  method ClearTwice(m: CacheManager, removeOk: bool, now: int) returns (first: bool, second: bool, r: Option<Json>)
    modifies m
    ensures first ==> second && r.None? && m.entry.None?
  {
    first := m.ClearCache(removeOk);
    second := m.ClearCache(removeOk);
    r := m.GetCachedData(now);
  }

  /** Writing and reading back within the TTL returns the data written. */
  method CacheRoundTrip(m: CacheManager, data: Json, now: int, later: int, outcome: WriteOutcome)
    returns (ok: bool, r: Option<Json>)
    modifies m
    requires later - now <= m.ttlSeconds
    ensures ok ==> r == Some(data)
    ensures outcome.WriteFailed? ==> r.None?
  {
    ok := m.CacheData(data, now, outcome);
    r := m.GetCachedData(later);
  }
}
