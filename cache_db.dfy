/**
 * The `cache` table of httpcache.db. Both httputil.py and httpcache.py open
 * the same file and the same table, so both operate on one CacheTable.
 * `key` is the PRIMARY KEY, so the table is a map from key text to its row.
 */
module CacheDb {
  import opened Wrappers

  /** The key text, `json.dumps` of the request dictionary. It keeps the
    * dictionary's insertion order, so it is treated as an opaque string. */
  type KeyText = string

  /** One row: absolute expiry in seconds and the stored response text. */
  datatype Entry = Entry(expiry: int, response: string)

  type Table = map<KeyText, Entry>

  class CacheTable {
    var entries: Table

    /** `CREATE TABLE IF NOT EXISTS cache` on a fresh file. */
    constructor ()
      ensures entries == map[]
    {
      entries := map[];
    }
  }

  /** The response stored for `key`, if its row expires strictly after
    * `now`. */
  function Lookup(t: Table, key: KeyText, now: int): Option<string>
  {
    if key in t && t[key].expiry > now then Some(t[key].response) else None
  }

  /** The table without the rows that expired strictly before `now`. */
  function Purge(t: Table, now: int): Table
  {
    map k | k in t && t[k].expiry >= now :: t[k]
  }

  /** Purging keeps exactly the rows that have not expired strictly before
    * `now`, with their contents. */
  lemma PurgeExact(t: Table, now: int, k: KeyText)
    ensures k in Purge(t, now) <==> k in t && t[k].expiry >= now
    ensures k in Purge(t, now) ==> Purge(t, now)[k] == t[k]
  {
  }

  /** A row that expires exactly at `now` is neither readable nor purged. */
  lemma ExpiringNowIsHiddenButKept(t: Table, now: int, k: KeyText)
    requires k in t && t[k].expiry == now
    ensures Lookup(t, k, now) == None
    ensures k in Purge(t, now) && Purge(t, now)[k] == t[k]
  {
  }

  /** Purging is invisible to reads made at or after the purge time. */
  lemma PurgeInvisibleToReads(t: Table, now: int, later: int, k: KeyText)
    requires later >= now
    ensures Lookup(Purge(t, now), k, later) == Lookup(t, k, later)
  {
  }

  /** Purging twice at the same time is purging once. */
  lemma PurgeIdempotent(t: Table, now: int)
    ensures Purge(Purge(t, now), now) == Purge(t, now)
  {
  }

  /** A row is readable until its expiry and absent from then on. */
  lemma ExpiryLaw(t: Table, k: KeyText, now: int)
    requires k in t
    ensures Lookup(t, k, now).Some? <==> now < t[k].expiry
    ensures Lookup(t, k, now).Some? ==> Lookup(t, k, now).value == t[k].response
  {
  }
}
