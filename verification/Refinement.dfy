/** The slot table refines the TTL map: what each locked section does to the records by key. */
module Refinement {
  import opened CStrings
  import opened Table
  import opened TtlMap
  import opened CacheSpec

  function RecordOf(e: Entry): Record {
    Record(e.value, e.timestamp, e.ttl)
  }

  ghost function KeySet(t: Slots): set<CString> {
    set j | j in OccupiedSet(t) :: t[j].key
  }

  ghost function View(t: Slots): Stored {
    map k | k in KeySet(t) && Find(t, k) >= 0 :: RecordOf(t[Find(t, k)])
  }

  lemma ViewHas(t: Slots, key: CString)
    requires KeysDistinct(t)
    ensures key in View(t) <==> Find(t, key) >= 0
    ensures key in View(t) ==> View(t)[key] == RecordOf(t[Find(t, key)])
  {
    var j := Find(t, key);
    if j >= 0 {
      assert j in OccupiedSet(t);
    }
  }

  lemma ViewAt(t: Slots, j: nat)
    requires KeysDistinct(t) && Occupied(t, j)
    ensures Find(t, t[j].key) == j
    ensures t[j].key in View(t) && View(t)[t[j].key] == RecordOf(t[j])
  {
    assert Holds(t, j, t[j].key);
    ViewHas(t, t[j].key);
  }

  // Two tables whose keys are found with equal records have equal views.
  lemma SameView(t: Slots, m: Stored)
    requires KeysDistinct(t)
    requires forall k | k in m :: Find(t, k) >= 0 && m[k] == RecordOf(t[Find(t, k)])
    requires forall j: nat | j < |t| && Occupied(t, j) :: t[j].key in m
    ensures View(t) == m
  {
    forall k ensures k in View(t) <==> k in m {
      ViewHas(t, k);
    }
    forall k | k in m ensures View(t)[k] == m[k] {
      ViewHas(t, k);
    }
  }

  lemma ViewTombstone(t: Slots, j: nat)
    requires Inv(t) && Occupied(t, j)
    ensures View(t[j := TOMBSTONE]) == View(t) - {t[j].key}
  {
    var t' := t[j := TOMBSTONE];
    TombstonePreserves(t, j);
    forall k | k in View(t) - {t[j].key} ensures Find(t', k) >= 0 && View(t)[k] == RecordOf(t'[Find(t', k)]) {
      ViewHas(t, k);
      assert Holds(t', Find(t, k), k);
    }
    forall i: nat | i < |t'| && Occupied(t', i) ensures t'[i].key in View(t) - {t[j].key} {
      ViewAt(t, i);
    }
    SameView(t', View(t) - {t[j].key});
  }

  lemma ViewStore(t: Slots, key: CString, value: CString, now: nat, ttl: nat)
    requires Inv(t) && SlotFor(t, key) >= 0 && ValidKeyArgument(key) && ValidValueArgument(value)
    ensures View(Store(t, SlotFor(t, key), key, value, now, ttl)) == View(t)[key := Record(value, now, ttl)]
  {
    var s := SlotFor(t, key);
    var t' := Store(t, s, key, value, now, ttl);
    var m := View(t)[key := Record(value, now, ttl)];
    StorePreserves(t, key, value, now, ttl);
    SlotForFailsIffFull(t, key);
    forall k | k in m ensures Find(t', k) >= 0 && m[k] == RecordOf(t'[Find(t', k)]) {
      if k == key {
        assert Holds(t', s, k);
      } else {
        ViewHas(t, k);
        assert Holds(t', Find(t, k), k);
      }
    }
    forall i: nat | i < |t'| && Occupied(t', i) ensures t'[i].key in m {
      if i != s {
        ViewAt(t, i);
      }
    }
    SameView(t', m);
  }

  lemma ViewRewrite(t: Slots, j: nat, value: CString, now: nat)
    requires Inv(t) && Occupied(t, j) && ValidValueArgument(value)
    ensures Inv(t[j := t[j].(value := value, timestamp := now)])
    ensures View(t[j := t[j].(value := value, timestamp := now)]) == View(t)[t[j].key := Record(value, now, t[j].ttl)]
    ensures Count(t[j := t[j].(value := value, timestamp := now)]) == Count(t)
  {
    ViewAt(t, j);
    var key, ttl := t[j].key, t[j].ttl;
    assert SlotFor(t, key) == j;
    assert t[j].(value := value, timestamp := now) == Entry(OCCUPIED, key, value, now, ttl);
    StorePreserves(t, key, value, now, ttl);
    ViewStore(t, key, value, now, ttl);
    CountStore(t, j, Entry(OCCUPIED, key, value, now, ttl));
  }

  lemma {:induction false} CountIsViewSize(t: Slots)
    requires KeysDistinct(t)
    ensures |View(t)| == Count(t)
  {
    forall k ensures k in View(t).Keys <==> k in KeySet(t) {
      ViewHas(t, k);
      if k in KeySet(t) {
        var j :| j in OccupiedSet(t) && t[j].key == k;
        assert Holds(t, j, k);
      }
    }
    assert View(t).Keys == KeySet(t);
    InjectiveImage(t, OccupiedSet(t));
  }

  lemma {:induction false} InjectiveImage(t: Slots, s: set<nat>)
    requires KeysDistinct(t) && s <= OccupiedSet(t)
    ensures |set j | j in s :: t[j].key| == |s|
  {
    if s == {} {
    } else {
      var i :| i in s;
      InjectiveImage(t, s - {i});
      assert (set j | j in s :: t[j].key) == (set j | j in s - {i} :: t[j].key) + {t[i].key};
      assert t[i].key !in (set j | j in s - {i} :: t[j].key);
    }
  }

  // ---- Locked sections ----

  lemma RemoveRefines(c: Cache, j: nat)
    requires CacheInv(c) && Occupied(c.slots, j)
    ensures CacheInv(RemoveAt(c, j))
    ensures c.count > 0 && RemoveAt(c, j).count == c.count - 1
    ensures View(RemoveAt(c, j).slots) == View(c.slots) - {c.slots[j].key}
  {
    TombstonePreserves(c.slots, j);
    CountTombstone(c.slots, j);
    ViewTombstone(c.slots, j);
  }

  lemma WriteRefines(c: Cache, key: CString, value: CString, ttl: nat, now: nat)
    requires CacheInv(c) && SlotFor(c.slots, key) >= 0 && ValidKeyArgument(key) && ValidValueArgument(value)
    ensures var c' := Write(c, SlotFor(c.slots, key), key, value, ttl, now);
            CacheInv(c') && View(c'.slots) == View(c.slots)[key := Record(value, now, ttl)]
  {
    var s := SlotFor(c.slots, key);
    StorePreserves(c.slots, key, value, now, ttl);
    CountStore(c.slots, s, Entry(OCCUPIED, key, value, now, ttl));
    ViewStore(c.slots, key, value, now, ttl);
  }

  lemma {:induction false} ReclaimKeepsInv(c: Cache, now: nat, i: nat)
    requires CacheInv(c) && i <= |c.slots|
    ensures CacheInv(ReclaimUpTo(c, now, i))
  {
    if i == 0 {
    } else {
      ReclaimKeepsInv(c, now, i - 1);
      if Stale(c.slots[i - 1], now) {
        RemoveRefines(ReclaimUpTo(c, now, i - 1), i - 1);
      }
    }
  }

  lemma ReclaimRefines(c: Cache, now: nat)
    requires CacheInv(c)
    ensures CacheInv(Reclaim(c, now))
    ensures View(Reclaim(c, now).slots) == Live(View(c.slots), now)
  {
    var t, t' := c.slots, Reclaim(c, now).slots;
    ReclaimKeepsInv(c, now, |t|);
    var m := Live(View(t), now);
    forall k | k in m ensures Find(t', k) >= 0 && m[k] == RecordOf(t'[Find(t', k)]) {
      ViewHas(t, k);
      assert Holds(t', Find(t, k), k);
    }
    forall i: nat | i < |t'| && Occupied(t', i) ensures t'[i].key in m {
      ViewAt(t, i);
    }
    SameView(t', m);
  }

  lemma VictimIsOldest(t: Slots)
    requires KeysDistinct(t) && Victim(t) >= 0
    ensures Oldest(View(t), t[Victim(t)].key)
  {
    var v := Victim(t);
    ViewAt(t, v);
    forall k | k in View(t) ensures View(t)[t[v].key].timestamp <= View(t)[k].timestamp {
      ViewHas(t, k);
      assert OlderWrite(t, v, Find(t, k));
    }
  }

  // A slot is available for key exactly when the TTL map has room for it.
  lemma SlotForFits(t: Slots, key: CString)
    requires Inv(t)
    ensures SlotFor(t, key) >= 0 <==> Fits(|t|, View(t), key)
  {
    SlotForFailsIffFull(t, key);
    CountIsViewSize(t);
    CountBound(t);
    ViewHas(t, key);
  }

  function PutVictim(c: Cache, key: CString, t0: nat): Option<CString>
    requires |c.slots| > 0
  {
    var t := Reclaim(c, t0).slots;
    if SlotFor(c.slots, key) >= 0 || SlotFor(t, key) >= 0 || Victim(t) == -1 then None else Some(t[Victim(t)].key)
  }

  lemma SearchedReclaim(c: Cache, key: CString, now: nat, i: nat)
    requires i <= |c.slots| && |c.slots| > 0
    ensures ReclaimUpTo(Searched(c, key), now, i).slots == ReclaimUpTo(c, now, i).slots
    ensures ReclaimUpTo(Searched(c, key), now, i).count == ReclaimUpTo(c, now, i).count
  {
  }

  // What a put adds to the collision counter: one, two or three searches.
  function PutCost(c: Cache, key: CString, t0: nat): nat
    requires |c.slots| > 0
  {
    Collisions(c.slots, key) + if SlotFor(c.slots, key) >= 0 then 0 else ReclaimedCost(Reclaim(c, t0).slots, key)
  }

  function ReclaimedCost(t: Slots, key: CString): nat
    requires |t| > 0
  {
    var v := Victim(t);
    Collisions(t, key) + if SlotFor(t, key) >= 0 || v == -1 then 0 else Collisions(t[v := TOMBSTONE], key)
  }

  lemma LiveSize(m: Stored, now: nat)
    ensures |Live(m, now)| <= |m|
    ensures |Live(m, now)| == |m| <==> !SomeExpired(m, now)
    ensures !SomeExpired(m, now) ==> Live(m, now) == m
  {
    Subset(Live(m, now).Keys, m.Keys);
    if SomeExpired(m, now) {
      var k :| k in m && Expired(m[k], now);
      assert k !in Live(m, now).Keys;
    } else {
      assert Live(m, now) == m;
    }
  }

  // Reclaiming frees nothing exactly when no stored record has expired.
  lemma ReclaimMakesRoom(c: Cache, key: CString, now: nat)
    requires CacheInv(c) && SlotFor(c.slots, key) < 0
    ensures SlotFor(Reclaim(c, now).slots, key) >= 0 <==> SomeExpired(View(c.slots), now)
    ensures SlotFor(Reclaim(c, now).slots, key) < 0 ==> View(Reclaim(c, now).slots) == View(c.slots)
  {
    ReclaimRefines(c, now);
    SlotForFits(c.slots, key);
    SlotForFits(Reclaim(c, now).slots, key);
    CountIsViewSize(c.slots);
    CountBound(c.slots);
    LiveSize(View(c.slots), now);
  }

  // A put has succeeded with key stored over the records in room.
  ghost predicate Stores(r: (bool, Cache), capacity: nat, room: Stored, key: CString, rec: Record) {
    r.0 && CacheInv(r.1) && |r.1.slots| == capacity && View(r.1.slots) == room[key := rec]
  }

  lemma WriteStores(c: Cache, key: CString, value: CString, ttl: nat, now: nat)
    requires CacheInv(c) && SlotFor(c.slots, key) >= 0 && ValidKeyArgument(key) && ValidValueArgument(value)
    ensures Stores((true, Write(Searched(c, key), SlotFor(c.slots, key), key, value, ttl, now)), |c.slots|,
                   View(c.slots), key, Record(value, now, ttl))
  {
    WriteRefines(Searched(c, key), key, value, ttl, now);
  }

  // Without a slot for key the table is full, so there is a victim, and its slot becomes free.
  lemma EvictionMakesRoom(c: Cache, key: CString)
    requires CacheInv(c) && SlotFor(c.slots, key) < 0
    ensures Victim(c.slots) >= 0
    ensures SlotFor(c.slots[Victim(c.slots) := TOMBSTONE], key) >= 0
  {
    SlotForFailsIffFull(c.slots, key);
    assert Occupied(c.slots, 0);
    var v := Victim(c.slots);
    var t := c.slots[v := TOMBSTONE];
    SlotForFailsIffFull(t, key);
    assert !Occupied(t, v);
  }

  lemma PutReclaimedStores(c: Cache, key: CString, value: CString, ttl: nat, now: nat)
    requires CacheInv(c) && SlotFor(c.slots, key) < 0 && ValidKeyArgument(key) && ValidValueArgument(value)
    ensures Victim(c.slots) >= 0
    ensures Stores(PutReclaimed(c, key, value, ttl, now), |c.slots|, View(c.slots) - {c.slots[Victim(c.slots)].key},
                   key, Record(value, now, ttl))
  {
    EvictionMakesRoom(c, key);
    var c1 := Searched(c, key);
    RemoveRefines(c1, Victim(c.slots));
    WriteStores(RemoveAt(c1, Victim(c.slots)), key, value, ttl, now);
  }

  // One atomic action of the TTL map leads from c to c', with the collisions it reports.
  ghost predicate Refines(c: Cache, c': Cache, e: Event) {
    && CacheInv(c') && |c'.slots| == |c.slots|
    && Allowed(|c.slots|, View(c.slots), e)
    && View(c'.slots) == After(|c.slots|, View(c.slots), e)
    && (e.Call? ==> (c'.hits, c'.misses, c'.collisions) == (c.hits, c.misses, c.collisions + e.cost))
  }

  // The evicted entry is the (timestamp, index)-minimum over the whole table as the put found it.
  lemma PutEvictsMinimum(c: Cache, key: CString, t0: nat)
    requires CacheInv(c) && PutVictim(c, key, t0).Some?
    ensures Victim(c.slots) >= 0 && PutVictim(c, key, t0) == Some(c.slots[Victim(c.slots)].key)
    ensures forall j | 0 <= j < |c.slots| :: Occupied(c.slots, j) && OlderWrite(c.slots, Victim(c.slots), j)
  {
    var t := Reclaim(c, t0).slots;
    SlotForFailsIffFull(c.slots, key);
    SlotForFailsIffFull(t, key);
    forall j | 0 <= j < |t| ensures t[j] == c.slots[j] {
      assert Occupied(t, j);
    }
    assert t == c.slots;
  }

  // A put evicts the oldest write if, and only if, there is neither a slot nor an expired record.
  lemma PutVictimRule(c: Cache, key: CString, t0: nat)
    requires CacheInv(c)
    ensures PutVictim(c, key, t0).Some? <==> !Fits(|c.slots|, View(c.slots), key) && !SomeExpired(View(c.slots), t0)
    ensures PutVictim(c, key, t0).Some? ==> Oldest(View(c.slots), PutVictim(c, key, t0).value)
  {
    SlotForFits(c.slots, key);
    if SlotFor(c.slots, key) < 0 {
      var c2 := Reclaim(c, t0);
      ReclaimMakesRoom(c, key, t0);
      ReclaimRefines(c, t0);
      if SlotFor(c2.slots, key) < 0 {
        EvictionMakesRoom(c2, key);
        VictimIsOldest(c2.slots);
      }
    }
  }

  lemma PutReclaimingStores(c: Cache, key: CString, value: CString, ttl: nat, t0: nat, t1: nat)
    requires CacheInv(c) && SlotFor(c.slots, key) < 0 && ValidKeyArgument(key) && ValidValueArgument(value)
    ensures Stores(PutLocked(c, key, value, ttl, t0, t1), |c.slots|,
                   Room(|c.slots|, View(c.slots), key, PutVictim(c, key, t0), t0), key, Record(value, t1, ttl))
  {
    var c2 := Reclaim(Searched(c, key), t0);
    SlotForFits(c.slots, key);
    SearchedReclaim(c, key, t0, |c.slots|);
    ReclaimRefines(Searched(c, key), t0);
    if SlotFor(c2.slots, key) >= 0 {
      WriteStores(c2, key, value, ttl, t1);
    } else {
      PutEvictingStores(c, c2, key, value, ttl, t0, t1);
    }
  }

  lemma PutEvictingStores(c: Cache, c2: Cache, key: CString, value: CString, ttl: nat, t0: nat, t1: nat)
    requires CacheInv(c) && SlotFor(c.slots, key) < 0 && ValidKeyArgument(key) && ValidValueArgument(value)
    requires CacheInv(c2) && c2.slots == Reclaim(c, t0).slots && SlotFor(c2.slots, key) < 0
    ensures PutVictim(c, key, t0).Some?
    ensures Stores(PutReclaimed(c2, key, value, ttl, t1), |c.slots|,
                   View(c.slots) - {PutVictim(c, key, t0).value}, key, Record(value, t1, ttl))
  {
    ReclaimMakesRoom(c, key, t0);
    PutReclaimedStores(c2, key, value, ttl, t1);
  }

  // A put always succeeds, storing its record in the room it finds or makes.
  lemma PutStores(c: Cache, key: CString, value: CString, ttl: nat, t0: nat, t1: nat)
    requires CacheInv(c) && ValidKeyArgument(key) && ValidValueArgument(value)
    ensures Stores(PutLocked(c, key, value, ttl, t0, t1), |c.slots|,
                   Room(|c.slots|, View(c.slots), key, PutVictim(c, key, t0), t0), key, Record(value, t1, ttl))
  {
    SlotForFits(c.slots, key);
    if SlotFor(c.slots, key) >= 0 {
      WriteStores(c, key, value, ttl, t1);
    } else {
      PutReclaimingStores(c, key, value, ttl, t0, t1);
    }
  }

  // With room for key, a put stores its record and changes nothing else.
  lemma PutWithRoom(c: Cache, key: CString, value: CString, ttl: nat, t0: nat, t1: nat)
    requires CacheInv(c) && ValidKeyArgument(key) && ValidValueArgument(value) && Fits(|c.slots|, View(c.slots), key)
    ensures Stores(PutLocked(c, key, value, ttl, t0, t1), |c.slots|, View(c.slots), key, Record(value, t1, ttl))
  {
    PutStores(c, key, value, ttl, t0, t1);
  }

  // The counters a put leaves alone, and the searches it has counted.
  predicate Counts(c: Cache, c': Cache, cost: nat) {
    c'.hits == c.hits && c'.misses == c.misses && c'.collisions == c.collisions + cost
  }

  lemma PutReclaimedCounts(c: Cache, key: CString, value: CString, ttl: nat, now: nat)
    requires |c.slots| > 0
    ensures Counts(c, PutReclaimed(c, key, value, ttl, now).1, ReclaimedCost(c.slots, key))
  {
  }

  // Counting on from a later state of the same put.
  lemma PutReclaimingCounts(c: Cache, c2: Cache, first: nat, key: CString, value: CString, ttl: nat, now: nat)
    requires Counts(c, c2, first) && |c2.slots| > 0
    ensures Counts(c, PutReclaimed(c2, key, value, ttl, now).1, first + ReclaimedCost(c2.slots, key))
  {
    PutReclaimedCounts(c2, key, value, ttl, now);
  }

  lemma PutCounts(c: Cache, key: CString, value: CString, ttl: nat, t0: nat, t1: nat)
    requires |c.slots| > 0
    ensures Counts(c, PutLocked(c, key, value, ttl, t0, t1).1, PutCost(c, key, t0))
  {
    if SlotFor(c.slots, key) < 0 {
      SearchedReclaim(c, key, t0, |c.slots|);
      PutReclaimingCounts(c, Reclaim(Searched(c, key), t0), Collisions(c.slots, key), key, value, ttl, t1);
    }
  }

  // A put with the answer ok, as an action of the TTL map.
  function PutEvent(c: Cache, id: nat, op: Operation, t0: nat, t1: nat, ok: bool): Event
    requires |c.slots| > 0 && op.Put?
  {
    Call(id, op, t0, t1, PutVictim(c, op.key, t0), Done(ok), PutCost(c, op.key, t0))
  }

  lemma PutEventIsAllowed(c: Cache, key: CString, value: CString, ttl: nat, t0: nat, t1: nat, id: nat)
    requires CacheInv(c) && t0 <= t1
    ensures var m, e := View(c.slots), PutEvent(c, id, Put(key, value, ttl), t0, t1, true);
            && Allowed(|c.slots|, m, e)
            && After(|c.slots|, m, e) ==
                 Room(|c.slots|, m, key, PutVictim(c, key, t0), t0)[key := Record(value, t1, ttl)]
  {
    PutVictimRule(c, key, t0);
    PutIsAllowed(|c.slots|, View(c.slots), PutEvent(c, id, Put(key, value, ttl), t0, t1, true));
  }

  lemma PutRefines(c: Cache, key: CString, value: CString, ttl: nat, t0: nat, t1: nat, id: nat)
    requires CacheInv(c) && ValidKeyArgument(key) && ValidValueArgument(value) && t0 <= t1
    ensures var (ok, c') := PutLocked(c, key, value, ttl, t0, t1);
            var e := PutEvent(c, id, Put(key, value, ttl), t0, t1, true);
            ok && Refines(c, c', e)
  {
    PutStores(c, key, value, ttl, t0, t1);
    PutCounts(c, key, value, ttl, t0, t1);
    PutResultRefines(c, PutLocked(c, key, value, ttl, t0, t1), key, value, ttl, t0, t1, id);
  }

  lemma PutResultRefines(c: Cache, r: (bool, Cache), key: CString, value: CString, ttl: nat, t0: nat, t1: nat, id: nat)
    requires CacheInv(c) && t0 <= t1
    requires Stores(r, |c.slots|, Room(|c.slots|, View(c.slots), key, PutVictim(c, key, t0), t0), key,
                    Record(value, t1, ttl))
    requires Counts(c, r.1, PutCost(c, key, t0))
    ensures Refines(c, r.1, PutEvent(c, id, Put(key, value, ttl), t0, t1, true))
  {
    var e := PutEvent(c, id, Put(key, value, ttl), t0, t1, true);
    PutEventIsAllowed(c, key, value, ttl, t0, t1, id);
    RefinesFromParts(c, r.1, View(c.slots), View(r.1.slots), e);
  }

  // The parts of a refinement step, over whatever the views are.
  lemma RefinesFromParts(c: Cache, c': Cache, m: Stored, m': Stored, e: Event)
    requires e.Call? && m == View(c.slots) && m' == View(c'.slots)
    requires CacheInv(c') && |c'.slots| == |c.slots| && Counts(c, c', e.cost)
    requires Allowed(|c.slots|, m, e) && m' == After(|c.slots|, m, e)
    ensures Refines(c, c', e)
  {
  }

  lemma PutIsAllowed(capacity: nat, m: Stored, e: Event)
    requires e.Call? && e.op.Put? && e.t0 <= e.t1 && e.result == Done(true)
    requires e.victim.Some? <==> !Fits(capacity, m, e.op.key) && !SomeExpired(m, e.t0)
    requires e.victim.Some? ==> Oldest(m, e.victim.value)
    ensures Allowed(capacity, m, e)
    ensures After(capacity, m, e) ==
              Room(capacity, m, e.op.key, e.victim, e.t0)[e.op.key := Record(e.op.value, e.t1, e.op.ttl)]
  {
  }

  // An update renews a live record's value and timestamp and keeps its TTL; it removes an expired one.
  lemma UpdateEffect(c: Cache, key: CString, value: CString, t0: nat, t1: nat)
    requires CacheInv(c) && ValidValueArgument(value)
    ensures var (ok, c'), m := UpdateLocked(c, key, value, t0, t1), View(c.slots);
            && CacheInv(c') && ok == (key in Live(m, t0))
            && View(c'.slots) == if key in Live(m, t0) then m[key := Record(value, t1, m[key].ttl)] else m - {key}
  {
    ViewHas(c.slots, key);
    var j := Find(c.slots, key);
    if j >= 0 {
      if Stale(c.slots[j], t0) {
        RemoveRefines(Searched(c, key), j);
      } else {
        ViewRewrite(c.slots, j, value, t1);
      }
    }
  }

  lemma UpdateRefines(c: Cache, key: CString, value: CString, t0: nat, t1: nat, id: nat)
    requires CacheInv(c) && ValidValueArgument(value) && t0 <= t1
    ensures var (ok, c') := UpdateLocked(c, key, value, t0, t1);
            var e := Call(id, Update(key, value), t0, t1, None, Done(ok), Collisions(c.slots, key));
            Refines(c, c', e)
  {
    UpdateEffect(c, key, value, t0, t1);
  }

  lemma DeleteRemovesKey(c: Cache, key: CString)
    requires CacheInv(c)
    ensures var (ok, c'), m := DeleteLocked(c, key), View(c.slots);
            && CacheInv(c') && ok == (key in m) && View(c'.slots) == m - {key}
  {
    ViewHas(c.slots, key);
    if Find(c.slots, key) >= 0 {
      RemoveRefines(Searched(c, key), Find(c.slots, key));
    }
  }

  lemma DeleteRefines(c: Cache, key: CString, t0: nat, t1: nat, id: nat)
    requires CacheInv(c) && t0 <= t1
    ensures var (ok, c') := DeleteLocked(c, key);
            var e := Call(id, Delete(key), t0, t1, None, Done(ok), Collisions(c.slots, key));
            Refines(c, c', e)
  {
    DeleteRemovesKey(c, key);
  }

  function GetResult(seen: Seen): Result {
    match seen
    case SeenLive(value, timestamp) => Hit(value, timestamp)
    case SeenExpired => Miss
    case SeenNothing => Miss
  }

  lemma ReadRefines(c: Cache, key: CString, now: nat, id: nat)
    requires CacheInv(c)
    ensures Allowed(|c.slots|, View(c.slots),
              Call(id, Get(key), now, now, None, GetResult(ReadLocked(c.slots, key, now)), Collisions(c.slots, key)))
    ensures ReadLocked(c.slots, key, now) == SeenExpired <==> key in View(c.slots) && Expired(View(c.slots)[key], now)
  {
    ViewHas(c.slots, key);
  }

  // The second phase of an expired get removes the key's record exactly if the record it finds now has expired.
  lemma PurgeRefines(c: Cache, key: CString, collisions: nat, now: nat)
    requires CacheInv(c)
    ensures var c', m := PurgeLocked(c, key, collisions, now), View(c.slots);
            var purges := key in m && Expired(m[key], now);
            && CacheInv(c') && |c'.slots| == |c.slots|
            && View(c'.slots) == (if purges then m - {key} else m)
            && c.count == c'.count + (if purges then 1 else 0)
            && (c'.hits, c'.misses, c'.collisions) == (c.hits, c.misses + 1, c.collisions + collisions)
  {
    ViewHas(c.slots, key);
    var j := Find(c.slots, key);
    if j >= 0 && Stale(c.slots[j], now) {
      RemoveRefines(c, j);
    }
  }
}
