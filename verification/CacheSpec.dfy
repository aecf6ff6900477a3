/** Header counters and slot array together, and what each locked section of the engine does to them. */
module CacheSpec {
  import opened CStrings
  import opened Table

  datatype Cache = Cache(slots: Slots, count: nat, hits: nat, misses: nat, collisions: nat)

  ghost predicate CacheInv(c: Cache) {
    Inv(c.slots) && c.count == Count(c.slots)
  }

  // ---- remove_entry, reclaim_expired, evict_oldest_write ----

  function RemoveAt(c: Cache, j: nat): (c': Cache)
    requires j < |c.slots|
    ensures |c'.slots| == |c.slots|
  {
    c.(slots := c.slots[j := TOMBSTONE], count := if c.count > 0 then c.count - 1 else 0)
  }

  // The cache after reclaim_expired has examined the first i slots.
  function ReclaimUpTo(c: Cache, now: nat, i: nat): (c': Cache)
    requires i <= |c.slots|
    ensures |c'.slots| == |c.slots|
    ensures forall j | 0 <= j < |c.slots| ::
              c'.slots[j] == if j < i && Stale(c.slots[j], now) then TOMBSTONE else c.slots[j]
    ensures (c'.hits, c'.misses, c'.collisions) == (c.hits, c.misses, c.collisions)
  {
    if i == 0 then c
    else
      var c' := ReclaimUpTo(c, now, i - 1);
      if Stale(c.slots[i - 1], now) then RemoveAt(c', i - 1) else c'
  }

  function Reclaim(c: Cache, now: nat): (c': Cache)
    ensures |c'.slots| == |c.slots|
  {
    ReclaimUpTo(c, now, |c.slots|)
  }

  function Evict(c: Cache): (r: (bool, Cache))
    ensures |r.1.slots| == |c.slots|
  {
    var v := Victim(c.slots);
    if v == -1 then (false, c) else (true, RemoveAt(c, v))
  }

  // ---- The operations under their locks ----

  // A counted search for key.
  function Searched(c: Cache, key: CString): Cache
    requires |c.slots| > 0
  {
    c.(collisions := c.collisions + Collisions(c.slots, key))
  }

  function Write(c: Cache, j: nat, key: CString, value: CString, ttl: nat, now: nat): Cache
    requires j < |c.slots|
  {
    c.(slots := Store(c.slots, j, key, value, now, ttl),
       count := if c.slots[j].state != OCCUPIED then c.count + 1 else c.count)
  }

  // Put: search; if there is no slot, reclaim and search; if there is still none, evict and search.
  function PutLocked(c: Cache, key: CString, value: CString, ttl: nat, t0: nat, t1: nat): (r: (bool, Cache))
    requires |c.slots| > 0
    ensures |r.1.slots| == |c.slots|
  {
    var s := SlotFor(c.slots, key);
    if s >= 0 then (true, Write(Searched(c, key), s, key, value, ttl, t1))
    else PutReclaimed(Reclaim(Searched(c, key), t0), key, value, ttl, t1)
  }

  function PutReclaimed(c: Cache, key: CString, value: CString, ttl: nat, now: nat): (r: (bool, Cache))
    requires |c.slots| > 0
    ensures |r.1.slots| == |c.slots|
  {
    var s := SlotFor(c.slots, key);
    if s >= 0 then (true, Write(Searched(c, key), s, key, value, ttl, now))
    else
      var (evicted, room) := Evict(Searched(c, key));
      if evicted then PutEvicted(room, key, value, ttl, now) else (false, room)
  }

  function PutEvicted(c: Cache, key: CString, value: CString, ttl: nat, now: nat): (r: (bool, Cache))
    requires |c.slots| > 0
    ensures |r.1.slots| == |c.slots|
  {
    var s := SlotFor(c.slots, key);
    if s >= 0 then (true, Write(Searched(c, key), s, key, value, ttl, now)) else (false, Searched(c, key))
  }

  function UpdateLocked(c: Cache, key: CString, value: CString, t0: nat, t1: nat): (r: (bool, Cache))
    requires |c.slots| > 0
    ensures |r.1.slots| == |c.slots|
  {
    var c1 := Searched(c, key);
    var j := Find(c.slots, key);
    if j < 0 then (false, c1)
    else if Stale(c.slots[j], t0) then (false, RemoveAt(c1, j))
    else (true, c1.(slots := c.slots[j := c.slots[j].(value := value, timestamp := t1)]))
  }

  function DeleteLocked(c: Cache, key: CString): (r: (bool, Cache))
    requires |c.slots| > 0
    ensures |r.1.slots| == |c.slots|
  {
    var c1 := Searched(c, key);
    var j := Find(c.slots, key);
    if j < 0 then (false, c1) else (true, RemoveAt(c1, j))
  }

  // What the shared-lock phase of a get decides.
  datatype Seen = SeenLive(value: CString, timestamp: nat) | SeenExpired | SeenNothing

  function ReadLocked(t: Slots, key: CString, now: nat): Seen {
    var j := Find(t, key);
    if j < 0 then SeenNothing
    else if Stale(t[j], now) then SeenExpired
    else SeenLive(t[j].value, t[j].timestamp)
  }

  function CountGet(c: Cache, found: bool, collisions: nat): Cache {
    c.(hits := c.hits + if found then 1 else 0,
       misses := c.misses + if found then 0 else 1,
       collisions := c.collisions + collisions)
  }

  // The exclusive second phase of a get that saw an expired entry; its search is not counted.
  function PurgeLocked(c: Cache, key: CString, collisions: nat, now: nat): (c': Cache)
    ensures |c'.slots| == |c.slots|
  {
    var j := Find(c.slots, key);
    CountGet(if j >= 0 && Stale(c.slots[j], now) then RemoveAt(c, j) else c, false, collisions)
  }

  /** A whole get with nothing interleaved: the read phase at now1, then the exclusive phase at now2. read and write
      say whether the two lock calls are granted; without the second one the get goes uncounted. */
  function GetAlone(c: Cache, key: CString, read: bool, now1: nat, write: bool, now2: nat): (r: (Seen, Cache))
    requires |c.slots| > 0
    ensures |r.1.slots| == |c.slots|
  {
    if !read then (SeenNothing, c)
    else
      var seen, collisions := ReadLocked(c.slots, key, now1), Collisions(c.slots, key);
      if !write then (seen, c)
      else if seen == SeenExpired then (seen, PurgeLocked(c, key, collisions, now2))
      else (seen, CountGet(c, seen.SeenLive?, collisions))
  }
}
