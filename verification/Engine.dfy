/** The engine itself: an array of slots and header counters updated in place, under the lock in the header. */
module Engine {
  import opened CStrings
  import opened Table
  import opened TtlMap
  import opened CacheSpec
  import opened Refinement
  import opened RwLock
  import Hash
  import Layout

  class SharedCache {
    const slots: array<Entry>
    var entryCount: nat
    var totalHits: nat
    var totalMisses: nat
    var totalCollisions: nat
    var lock: Lock

    ghost predicate Valid()
      reads this, slots
    {
      CacheInv(Contents())
    }

    ghost function Contents(): Cache
      reads this, slots
    {
      Cache(slots[..], entryCount, totalHits, totalMisses, totalCollisions)
    }

    // cache_initialize_region, once the layout has been found usable.
    constructor (capacity: nat)
      requires 0 < capacity <= MAX_CAPACITY
      ensures Valid() && fresh(slots) && lock == FREE
      ensures |slots[..]| == capacity && View(slots[..]) == map[]
      ensures Contents() == Cache(seq(capacity, _ => EMPTY_ENTRY), 0, 0, 0, 0)
    {
      slots := new Entry[capacity](_ => EMPTY_ENTRY);
      entryCount, totalHits, totalMisses, totalCollisions := 0, 0, 0, 0;
      lock := FREE;
      new;
      assert slots[..] == seq(capacity, _ => EMPTY_ENTRY);
      assert OccupiedSet(slots[..]) == {};
    }

    // cache_initialize_region; lockReady says whether cache_init_lock succeeds. The cache object stands for a region
    // whose slots lie apart, which is every accepted one of at most 4 GiB.
    static method InitializeRegion(abi: Layout.Abi, size: nat, capacity: nat, lockReady: bool)
      returns (ok: bool, cache: SharedCache?)
      requires Layout.Plausible(abi)
      ensures ok == (capacity > 0 && abi.header + capacity * abi.entry <= size && lockReady)
      ensures cache != null <==> ok && Layout.SlotsSound(abi, size, capacity)
      ensures ok && size <= 0x1_0000_0000 ==> cache != null
      ensures cache != null ==> fresh(cache) && fresh(cache.slots) && cache.Valid() && cache.lock == FREE
      ensures cache != null ==> cache.slots.Length == capacity && View(cache.slots[..]) == map[]
    {
      Layout.ValidCapacityIffFits(abi, size, capacity);
      ok := Layout.ValidCapacity(abi, size, capacity) && lockReady;
      cache := null;
      if ok {
        Layout.LayoutSoundIffOffsetsFit(abi, size, capacity);
        if abi.header + (capacity - 1) * abi.entry < Hash.WORD {
          cache := new SharedCache(capacity);
        }
      }
    }

    // ---- Lock calls; granted: pthread_rwlock_*lock returns 0, which it does only if the lock admits it ----

    method LockForRead(granted: bool) returns (ok: bool)
      requires granted ==> MayRead(lock)
      modifies this`lock
      ensures ok == granted
      ensures lock == if granted then AcquireRead(old(lock)) else old(lock)
    {
      if granted {
        lock := AcquireRead(lock);
      }
      ok := granted;
    }

    method LockForWrite(granted: bool) returns (ok: bool)
      requires granted ==> MayWrite(lock)
      modifies this`lock
      ensures ok == granted
      ensures lock == if granted then AcquireWrite(old(lock)) else old(lock)
    {
      if granted {
        lock := AcquireWrite(lock);
      }
      ok := granted;
    }

    method Unlock()
      requires lock.writer || lock.readers > 0
      modifies this`lock
      ensures lock == Release(old(lock))
    {
      lock := Release(lock);
    }

    // ---- Helpers that run while the lock is held ----

    method RemoveEntry(j: nat)
      requires lock.writer && j < slots.Length
      modifies slots, this`entryCount
      ensures Contents() == RemoveAt(old(Contents()), j)
    {
      slots[j] := TOMBSTONE;
      if entryCount > 0 {
        entryCount := entryCount - 1;
      }
    }

    method ProbeIndexOf(start: nat, i: nat) returns (index: nat)
      requires start < slots.Length <= MAX_CAPACITY && i < slots.Length
      ensures index == Pos(start, i, slots.Length)
    {
      index := (start + i) % Hash.WORD % slots.Length;
      ProbeIndex(start, i, slots.Length);
    }

    method FindSlotInternal(key: CString) returns (index: int, collisions: nat)
      requires Valid() && (lock.writer || lock.readers > 0)
      ensures index == SlotFor(slots[..], key)
      ensures collisions == Collisions(slots[..], key)
    {
      ghost var t := slots[..];
      var start := Hash.HashKey(key, slots.Length);
      var firstDeleted: int := -1;
      var i := 0;
      collisions := 0;
      while i < slots.Length
        invariant i <= slots.Length
        invariant collisions == if i == 0 then 0 else i - 1
        invariant SeekSound(t, key, i, firstDeleted)
      {
        if i > 0 {
          collisions := collisions + 1;
        }
        var curr := ProbeIndexOf(start, i);
        var entry := slots[curr];
        if entry.state == EMPTY {
          SeekEnds(t, key, i, firstDeleted);
          return if firstDeleted != -1 then firstDeleted else curr, collisions;
        }
        if entry.state == DELETED {
          SeekGoesOn(t, key, i, firstDeleted);
          if firstDeleted == -1 {
            firstDeleted := curr;
          }
        } else if entry.key == key {
          SeekEnds(t, key, i, firstDeleted);
          return curr, collisions;
        } else {
          SeekGoesOn(t, key, i, firstDeleted);
        }
        i := i + 1;
      }
      SeekEnds(t, key, i, firstDeleted);
      index := firstDeleted;
    }

    // extra: the slots it inspects beyond the first, which it does not count.
    method FindKeyLocked(key: CString) returns (index: int, ghost extra: nat)
      requires Valid() && lock.writer
      ensures index == Find(slots[..], key)
      ensures extra == Collisions(slots[..], key)
    {
      ghost var t := slots[..];
      var start := Hash.HashKey(key, slots.Length);
      var i := 0;
      while i < slots.Length
        invariant i <= slots.Length
        invariant LookSound(t, key, i)
      {
        var curr := ProbeIndexOf(start, i);
        if slots[curr].state == EMPTY {
          LookEnds(t, key, i);
          return -1, i;
        }
        if slots[curr].state == OCCUPIED && slots[curr].key == key {
          LookEnds(t, key, i);
          return curr, i;
        }
        i := i + 1;
      }
      LookEnds(t, key, i);
      index, extra := -1, i - 1;
    }

    method EvictOldestWrite() returns (evicted: bool)
      requires lock.writer
      modifies slots, this`entryCount
      ensures (evicted, Contents()) == Evict(old(Contents()))
    {
      var oldest: int := -1;
      var oldestTimestamp := 0xFFFF_FFFF_FFFF_FFFF;
      var i := 0;
      while i < slots.Length
        invariant i <= slots.Length
        invariant oldest == VictimBelow(slots[..], i)
        invariant oldest != -1 ==> oldestTimestamp == slots[oldest].timestamp
      {
        if slots[i].state == OCCUPIED && (oldest == -1 || slots[i].timestamp < oldestTimestamp) {
          oldestTimestamp := slots[i].timestamp;
          oldest := i;
        }
        i := i + 1;
      }
      if oldest == -1 {
        return false;
      }
      RemoveEntry(oldest);
      evicted := true;
    }

    method ReclaimExpired(now: nat)
      requires lock.writer
      modifies slots, this`entryCount
      ensures Contents() == Reclaim(old(Contents()), now)
    {
      ghost var before := Contents();
      var i := 0;
      while i < slots.Length
        invariant i <= slots.Length
        invariant Contents() == ReclaimUpTo(before, now, i)
      {
        if Stale(slots[i], now) {
          RemoveEntry(i);
        }
        i := i + 1;
      }
    }

    // ---- Public operations ----

    method FindSlot(key: CString, granted: bool) returns (index: int)
      requires Valid() && (granted ==> MayRead(lock))
      modifies this`lock
      ensures lock == old(lock)
      ensures index == if 1 <= |key| <= 63 && granted then SlotFor(slots[..], key) else -1
    {
      if !ValidKeyArgument(key) {
        return -1;
      }
      var locked := LockForRead(granted);
      if !locked {
        return -1;
      }
      var collisions;
      index, collisions := FindSlotInternal(key);
      Unlock();
    }

    method PutTtl(key: CString, value: CString, ttl: nat, granted: bool, t0: nat, t1: nat) returns (ok: bool)
      requires Valid() && (granted ==> MayWrite(lock))
      modifies this, slots
      ensures Valid() && lock == old(lock)
      ensures ok == (1 <= |key| <= 63 && |value| <= 255 && granted)
      ensures Contents() == if ok then PutLocked(old(Contents()), key, value, ttl, t0, t1).1 else old(Contents())
      ensures ok ==> View(slots[..]) ==
                     Room(slots.Length, old(View(slots[..])), key, old(PutVictim(Contents(), key, t0)), t0)
                     [key := Record(value, t1, ttl)]
    {
      if !ValidKeyArgument(key) || !ValidValueArgument(value) {
        return false;
      }
      var locked := LockForWrite(granted);
      if !locked {
        return false;
      }
      PutStores(Contents(), key, value, ttl, t0, t1);
      ok := PutWhileLocked(key, value, ttl, t0, t1);
      Unlock();
    }

    method PutWhileLocked(key: CString, value: CString, ttl: nat, t0: nat, t1: nat) returns (ok: bool)
      requires Valid() && lock.writer && ValidKeyArgument(key) && ValidValueArgument(value)
      modifies slots, this`entryCount, this`totalCollisions
      ensures (ok, Contents()) == PutLocked(old(Contents()), key, value, ttl, t0, t1)
    {
      var index := CountedSearch(key);
      if index < 0 {
        ReclaimRefines(Contents(), t0);
        ReclaimExpired(t0);
        ok := PutAfterReclaim(key, value, ttl, t1);
        return;
      }
      WriteEntry(index, key, value, ttl, t1);
      ok := true;
    }

    // The rest of a put once expired entries have been reclaimed.
    method PutAfterReclaim(key: CString, value: CString, ttl: nat, now: nat) returns (ok: bool)
      requires Valid() && lock.writer && ValidKeyArgument(key) && ValidValueArgument(value)
      modifies slots, this`entryCount, this`totalCollisions
      ensures (ok, Contents()) == PutReclaimed(old(Contents()), key, value, ttl, now)
    {
      var index := CountedSearch(key);
      if index < 0 {
        EvictionMakesRoom(Contents(), key);
        RemoveRefines(Contents(), Victim(slots[..]));
        var evicted := EvictOldestWrite();
        if !evicted {
          return false;
        }
        index := CountedSearch(key);
        if index < 0 {
          return false;
        }
      }
      WriteEntry(index, key, value, ttl, now);
      ok := true;
    }

    method CountedSearch(key: CString) returns (index: int)
      requires Valid() && lock.writer
      modifies this`totalCollisions
      ensures Valid()
      ensures index == SlotFor(slots[..], key)
      ensures Contents() == Searched(old(Contents()), key)
    {
      var collisions;
      index, collisions := FindSlotInternal(key);
      totalCollisions := totalCollisions + collisions;
    }

    method WriteEntry(index: nat, key: CString, value: CString, ttl: nat, now: nat)
      requires lock.writer && index < slots.Length
      modifies slots, this`entryCount
      ensures Contents() == Write(old(Contents()), index, key, value, ttl, now)
    {
      if slots[index].state != OCCUPIED {
        entryCount := entryCount + 1;
      }
      slots[index] := Entry(OCCUPIED, key, value, now, ttl);
    }

    method Put(key: CString, value: CString, granted: bool, t0: nat, t1: nat) returns (ok: bool)
      requires Valid() && (granted ==> MayWrite(lock))
      modifies this, slots
      ensures Valid() && lock == old(lock)
      ensures ok == (1 <= |key| <= 63 && |value| <= 255 && granted)
      ensures Contents() == if ok then PutLocked(old(Contents()), key, value, 0, t0, t1).1 else old(Contents())
    {
      ok := PutTtl(key, value, 0, granted, t0, t1);
    }

    // The shared-lock phase of cache_get: it changes nothing.
    method ReadWhileLocked(key: CString, now: nat) returns (seen: Seen, collisions: nat)
      requires Valid() && lock.readers > 0
      ensures seen == ReadLocked(slots[..], key, now)
      ensures collisions == Collisions(slots[..], key)
    {
      ghost var t := slots[..];
      var start := Hash.HashKey(key, slots.Length);
      var i := 0;
      collisions := 0;
      while i < slots.Length
        invariant i <= slots.Length
        invariant collisions == if i == 0 then 0 else i - 1
        invariant LookSound(t, key, i)
      {
        if i > 0 {
          collisions := collisions + 1;
        }
        var curr := ProbeIndexOf(start, i);
        var entry := slots[curr];
        if entry.state == EMPTY {
          LookEnds(t, key, i);
          return SeenNothing, collisions;
        }
        if entry.state == OCCUPIED && entry.key == key {
          LookEnds(t, key, i);
          if ExpiredAt(entry.timestamp, entry.ttl, now) {
            return SeenExpired, collisions;
          }
          return SeenLive(entry.value, entry.timestamp), collisions;
        }
        i := i + 1;
      }
      LookEnds(t, key, i);
      seen := SeenNothing;
    }

    method AddGetMetrics(found: bool, collisions: nat, granted: bool) returns (ok: bool)
      requires granted ==> MayWrite(lock)
      modifies this
      ensures lock == old(lock) && ok == granted
      ensures Contents() == if granted then CountGet(old(Contents()), found, collisions) else old(Contents())
    {
      var locked := LockForWrite(granted);
      if !locked {
        return false;
      }
      if found {
        totalHits := totalHits + 1;
      } else {
        totalMisses := totalMisses + 1;
      }
      totalCollisions := totalCollisions + collisions;
      Unlock();
      ok := true;
    }

    // The exclusive phase of a get that saw an expired entry.
    method PurgeExpired(key: CString, collisions: nat, now: nat)
      requires Valid() && lock.writer
      modifies slots, this`entryCount, this`totalMisses, this`totalCollisions
      ensures Valid()
      ensures Contents() == PurgeLocked(old(Contents()), key, collisions, now)
    {
      PurgeRefines(Contents(), key, collisions, now);
      ghost var extra;
      var current;
      current, extra := FindKeyLocked(key);
      if current >= 0 {
        if ExpiredAt(slots[current].timestamp, slots[current].ttl, now) {
          RemoveEntry(current);
        }
      }
      totalMisses := totalMisses + 1;
      totalCollisions := totalCollisions + collisions;
    }

    // cache_get up to the release of the shared lock, which other readers may be holding too.
    method ReadPhase(key: CString, granted: bool, now: nat) returns (locked: bool, seen: Seen, collisions: nat)
      requires Valid() && (granted ==> MayRead(lock))
      modifies this`lock
      ensures lock == old(lock) && locked == granted
      ensures locked ==> seen == ReadLocked(slots[..], key, now) && collisions == Collisions(slots[..], key)
    {
      locked := LockForRead(granted);
      if locked {
        seen, collisions := ReadWhileLocked(key, now);
        Unlock();
      } else {
        seen, collisions := SeenNothing, 0;
      }
    }

    method Get(key: CString, read: bool, now1: nat, write: bool, now2: nat) returns (result: Result)
      requires Valid() && (read ==> MayRead(lock)) && (write ==> MayWrite(lock))
      modifies this, slots
      ensures Valid() && lock == old(lock)
      ensures Contents() == if 1 <= |key| <= 63 then GetAlone(old(Contents()), key, read, now1, write, now2).1
                            else old(Contents())
      ensures result == if 1 <= |key| <= 63 && read && key in Live(old(View(slots[..])), now1)
                        then Hit(old(View(slots[..]))[key].value, old(View(slots[..]))[key].timestamp)
                        else Miss
      ensures totalHits == old(totalHits) + if read && write && result.Hit? then 1 else 0
      ensures totalMisses == old(totalMisses) + if 1 <= |key| <= 63 && read && write && result == Miss then 1 else 0
    {
      if !ValidKeyArgument(key) {
        return Miss;
      }
      ViewHas(slots[..], key);
      var locked, seen, collisions := ReadPhase(key, read, now1);
      if !locked {
        return Miss;
      }
      match seen
      case SeenLive(value, timestamp) =>
        var counted := AddGetMetrics(true, collisions, write);
        result := Hit(value, timestamp);
      case SeenNothing =>
        var counted := AddGetMetrics(false, collisions, write);
        result := Miss;
      case SeenExpired =>
        locked := LockForWrite(write);
        if !locked {
          return Miss;
        }
        PurgeExpired(key, collisions, now2);
        Unlock();
        result := Miss;
    }

    method Update(key: CString, value: CString, granted: bool, t0: nat, t1: nat) returns (ok: bool)
      requires Valid() && (granted ==> MayWrite(lock))
      modifies this, slots
      ensures Valid() && lock == old(lock)
      ensures if 1 <= |key| <= 63 && |value| <= 255 && granted
              then (ok, Contents()) == UpdateLocked(old(Contents()), key, value, t0, t1) &&
                   ok == (key in Live(old(View(slots[..])), t0))
              else !ok && Contents() == old(Contents())
    {
      if !ValidKeyArgument(key) || !ValidValueArgument(value) {
        return false;
      }
      var locked := LockForWrite(granted);
      if !locked {
        return false;
      }
      UpdateEffect(Contents(), key, value, t0, t1);
      ok := UpdateWhileLocked(key, value, t0, t1);
      Unlock();
    }

    method UpdateWhileLocked(key: CString, value: CString, t0: nat, t1: nat) returns (ok: bool)
      requires Valid() && lock.writer
      modifies slots, this`entryCount, this`totalCollisions
      ensures (ok, Contents()) == UpdateLocked(old(Contents()), key, value, t0, t1)
    {
      ghost var t := slots[..];
      var start := Hash.HashKey(key, slots.Length);
      var i := 0;
      while i < slots.Length
        invariant i <= slots.Length
        invariant Contents() == old(Contents())
        invariant LookSound(t, key, i)
      {
        var curr := ProbeIndexOf(start, i);
        var entry := slots[curr];
        if entry.state == EMPTY {
          LookEnds(t, key, i);
          totalCollisions := totalCollisions + i;
          return false;
        }
        if entry.state == OCCUPIED && entry.key == key {
          LookEnds(t, key, i);
          totalCollisions := totalCollisions + i;
          if ExpiredAt(entry.timestamp, entry.ttl, t0) {
            RemoveEntry(curr);
            return false;
          }
          slots[curr] := entry.(value := value, timestamp := t1);
          return true;
        }
        i := i + 1;
      }
      LookEnds(t, key, i);
      totalCollisions := totalCollisions + (slots.Length - 1);
      ok := false;
    }

    method Delete(key: CString, granted: bool) returns (ok: bool)
      requires Valid() && (granted ==> MayWrite(lock))
      modifies this, slots
      ensures Valid() && lock == old(lock)
      ensures if 1 <= |key| <= 63 && granted
              then (ok, Contents()) == DeleteLocked(old(Contents()), key) && ok == (key in old(View(slots[..])))
              else !ok && Contents() == old(Contents())
    {
      if !ValidKeyArgument(key) {
        return false;
      }
      var locked := LockForWrite(granted);
      if !locked {
        return false;
      }
      DeleteRemovesKey(Contents(), key);
      ok := DeleteWhileLocked(key);
      Unlock();
    }

    method DeleteWhileLocked(key: CString) returns (ok: bool)
      requires Valid() && lock.writer
      modifies slots, this`entryCount, this`totalCollisions
      ensures (ok, Contents()) == DeleteLocked(old(Contents()), key)
    {
      ghost var t := slots[..];
      var start := Hash.HashKey(key, slots.Length);
      var i := 0;
      while i < slots.Length
        invariant i <= slots.Length
        invariant Contents() == old(Contents())
        invariant LookSound(t, key, i)
      {
        var curr := ProbeIndexOf(start, i);
        if slots[curr].state == EMPTY {
          LookEnds(t, key, i);
          totalCollisions := totalCollisions + i;
          return false;
        }
        if slots[curr].state == OCCUPIED && slots[curr].key == key {
          LookEnds(t, key, i);
          totalCollisions := totalCollisions + i;
          RemoveEntry(curr);
          return true;
        }
        i := i + 1;
      }
      LookEnds(t, key, i);
      totalCollisions := totalCollisions + (slots.Length - 1);
      ok := false;
    }
  }
}
