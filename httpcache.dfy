/**
 * httpcache.py: the same `cache` table with a one-day default lifetime, no
 * purge on write, and a get-or-populate operation. `now` stands for
 * `time.time()`, in whole seconds.
 */
module HttpCache {
  import opened Wrappers
  import opened CacheDb
  import opened Models

  /** One day, in seconds. */
  const MAX_AGE: int := 60 * 60 * 24 * 1

  /** `get`: the stored response, if its row has not expired. */
  method Get(db: CacheTable, now: int, key: KeyText) returns (r: Option<string>)
    ensures r.Some? <==> key in db.entries && db.entries[key].expiry > now
    ensures r.Some? ==> r.value == db.entries[key].response
    ensures r == Lookup(db.entries, key, now)
  {
    if key in db.entries && db.entries[key].expiry > now {
      r := Some(db.entries[key].response);
    } else {
      r := None;
    }
  }

  /** `set`: replace the row for `key`; every other row is left as it was. */
  method Set(db: CacheTable, now: int, key: KeyText, response: string, maxAge: int := MAX_AGE)
    modifies db
    ensures db.entries == old(db.entries)[key := Entry(now + maxAge, response)]
    ensures forall k :: k != key ==> (k in db.entries <==> k in old(db.entries))
    ensures forall k :: k != key && k in db.entries ==> db.entries[k] == old(db.entries)[k]
  {
    db.entries := db.entries[key := Entry(now + maxAge, response)];
  }

  /** `use`: on a fresh hit return the cached response without calling the
    * getter or writing; on a miss call `getter` once. When the getter
    * raises, the exception propagates and nothing is written; otherwise its
    * result is stored with `maxAge` and returned. `called` says whether the
    * getter ran. */
  method Use(db: CacheTable, now: int, key: KeyText, getter: () -> Result<string, Failure>, maxAge: int := MAX_AGE)
    returns (r: Result<string, Failure>, called: bool)
    modifies db
    ensures called <==> Lookup(old(db.entries), key, now).None?
    ensures !called ==> r.Ok? && Some(r.value) == Lookup(old(db.entries), key, now) && db.entries == old(db.entries)
    ensures called ==> r == getter()
    ensures called && r.Ok? ==> db.entries == old(db.entries)[key := Entry(now + maxAge, r.value)]
    ensures r.Err? ==> db.entries == old(db.entries)
    ensures maxAge > 0 && r.Ok? ==> Lookup(db.entries, key, now) == Some(r.value)
    ensures (db.entries, r) == UseEffect(old(db.entries), now, key, getter(), maxAge)
  {
    var cached := Get(db, now, key);
    if cached.Some? {
      return Ok(cached.value), false;
    }
    called := true;
    r := getter();
    if r.Err? {
      return;
    }
    Set(db, now, key, r.value, maxAge);
  }

  /** The table `use` leaves behind and what it returns or raises, as a
    * function of the table before and of the getter's outcome. */
  function UseEffect(t: Table, now: int, key: KeyText, fetched: Result<string, Failure>, maxAge: int): (Table, Result<string, Failure>)
  {
    match Lookup(t, key, now)
    case Some(v) => (t, Ok(v))
    case None =>
      match fetched
      case Err(e) => (t, Err(e))
      case Ok(v) => (t[key := Entry(now + maxAge, v)], Ok(v))
  }

  /** After a `use` whose getter (if called) returned, a second `use` of the
    * same key at the same time is a hit: it returns the first call's value
    * and changes nothing, whatever the getter would have produced or raised. */
  lemma UseIsIdempotent(t: Table, now: int, key: KeyText, first: string, second: Result<string, Failure>, maxAge: int)
    requires maxAge > 0
    ensures var (t1, v1) := UseEffect(t, now, key, Ok(first), maxAge);
      UseEffect(t1, now, key, second, maxAge) == (t1, v1)
  {
  }
}
