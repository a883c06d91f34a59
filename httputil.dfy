/**
 * httputil.py: the response cache used by the search endpoint. Reads see a
 * row only while its expiry lies strictly ahead; every write replaces the
 * row for its key and then deletes the rows that expired strictly before
 * `now`. `now` stands for `time.time()`, in whole seconds.
 */
module HttpUtil {
  import opened Wrappers
  import opened CacheDb

  /** Fourteen days, in seconds. */
  const MAX_AGE: int := 60 * 60 * 24 * 14

  /** `get_cached`: the stored response, if its row has not expired. */
  method GetCached(db: CacheTable, now: int, key: KeyText) returns (r: Option<string>)
    ensures r.Some? <==> key in db.entries && db.entries[key].expiry > now
    ensures r.Some? ==> r.value == db.entries[key].response
    ensures r == Lookup(db.entries, key, now)
  {
    if key in db.entries && db.entries[key].expiry > now {
      r := Some(db.entries[key].response);
    } else {
      r := None;
    }
  }

  /** `clean_cache` (and the private `__clean_cache` it wraps): delete every
    * row whose expiry is strictly before `now`, and nothing else. */
  method CleanCache(db: CacheTable, now: int)
    modifies db
    ensures db.entries.Keys == set k | k in old(db.entries) && old(db.entries)[k].expiry >= now
    ensures forall k :: k in db.entries ==> db.entries[k] == old(db.entries)[k]
    ensures db.entries == Purge(old(db.entries), now)
  {
    db.entries := Purge(db.entries, now);
  }

  /** `set_cache`: `REPLACE INTO cache` with expiry `now + maxAge`, then purge. */
  method SetCache(db: CacheTable, now: int, key: KeyText, response: string, maxAge: int := MAX_AGE)
    modifies db
    ensures db.entries == SetCacheEffect(old(db.entries), now, key, response, maxAge)
  {
    db.entries := db.entries[key := Entry(now + maxAge, response)];
    CleanCache(db, now);
  }

  /** The table after `set_cache`. */
  function SetCacheEffect(t: Table, now: int, key: KeyText, response: string, maxAge: int): Table
  {
    Purge(t[key := Entry(now + maxAge, response)], now)
  }

  /** After `set_cache` no row is expired strictly before `now`; every other
    * key keeps its row exactly when that row was not expired; and the written
    * key holds the new row unless `maxAge` is negative, in which case the
    * purge removes the row just written. */
  lemma SetCacheFrame(t: Table, now: int, key: KeyText, response: string, maxAge: int, k: KeyText)
    ensures var t' := SetCacheEffect(t, now, key, response, maxAge);
      && (k in t' ==> t'[k].expiry >= now)
      && (k != key ==> (k in t' <==> k in t && t[k].expiry >= now))
      && (k != key && k in t' ==> t'[k] == t[k])
      && (key in t' <==> maxAge >= 0)
      && (key in t' ==> t'[key] == Entry(now + maxAge, response))
  {
  }

  /** Read after write: with a positive `maxAge`, `get_cached` at the same
    * time returns what `set_cache` stored; other keys read as before. */
  lemma ReadAfterSetCache(t: Table, now: int, key: KeyText, response: string, maxAge: int, other: KeyText)
    requires maxAge > 0
    ensures Lookup(SetCacheEffect(t, now, key, response, maxAge), key, now) == Some(response)
    ensures other != key ==> Lookup(SetCacheEffect(t, now, key, response, maxAge), other, now) == Lookup(t, other, now)
  {
  }

  /** Expiry law: from `now + maxAge` on, the written row reads as absent. */
  lemma ExpiredAfterMaxAge(t: Table, now: int, key: KeyText, response: string, maxAge: int, later: int)
    requires later >= now + maxAge
    ensures Lookup(SetCacheEffect(t, now, key, response, maxAge), key, later) == None
  {
  }
}
