/** The slot array as a value: linear probing with tombstones, its invariant, and what every search must find. */
module Table {
  import opened CStrings
  import Arithmetic
  import Hash

  datatype SlotState = EMPTY | OCCUPIED | DELETED

  datatype Entry = Entry(state: SlotState, key: CString, value: CString, timestamp: nat, ttl: nat)

  const EMPTY_ENTRY := Entry(EMPTY, [], [], 0, 0)
  const TOMBSTONE := Entry(DELETED, [], [], 0, 0)

  // Slot indices must fit int32_t; the layout module shows that every usable layout keeps below this.
  const MAX_CAPACITY: nat := 0x8000_0000

  type Slots = seq<Entry>

  // ---- The cyclic probe order ----

  function Pos(start: nat, i: nat, n: nat): (j: nat)
    requires start < n && i < n
    ensures j < n && Dist(start, j, n) == i
  {
    if start + i < n then start + i else start + i - n
  }

  function Dist(start: nat, j: nat, n: nat): (d: nat)
    requires start < n && j < n
    ensures d < n
  {
    if start <= j then j - start else j + n - start
  }

  lemma PosOfDist(start: nat, j: nat, n: nat)
    requires start < n && j < n
    ensures Pos(start, Dist(start, j, n), n) == j
  {
  }

  // (start_index + i) % capacity in uint32_t arithmetic.
  function ProbeSlot(start: nat, i: nat, n: nat): nat
    requires n > 0
  {
    Hash.Wrap(start + i) % n
  }

  // The addition cannot wrap, so the index is the cyclic position.
  lemma ProbeIndex(start: nat, i: nat, n: nat)
    requires start < n <= MAX_CAPACITY && i < n
    ensures ProbeSlot(start, i, n) == Pos(start, i, n)
  {
    var x := start + i;
    Hash.WrapSmall(x);
    if x >= n {
      Arithmetic.ModIs(x, n, 1, x - n);
    } else {
      Arithmetic.ModIs(x, n, 0, x);
    }
  }

  // The probe order visits every slot exactly once.
  lemma ProbeIsBijection(start: nat, j: nat, n: nat)
    requires start < n <= MAX_CAPACITY && j < n
    ensures exists i: nat | i < n :: ProbeSlot(start, i, n) == j
    ensures forall i: nat, i': nat | i < n && i' < n &&
              ProbeSlot(start, i, n) == j && ProbeSlot(start, i', n) == j :: i == i'
  {
    ProbeIndex(start, Dist(start, j, n), n);
    PosOfDist(start, j, n);
    forall i: nat | i < n ensures ProbeSlot(start, i, n) == Pos(start, i, n) {
      ProbeIndex(start, i, n);
    }
  }

  // ---- The invariant ----

  predicate Occupied(t: Slots, j: int) {
    0 <= j < |t| && t[j].state == OCCUPIED
  }

  predicate Holds(t: Slots, j: int, key: CString) {
    Occupied(t, j) && t[j].key == key
  }

  predicate CleanEntry(e: Entry) {
    match e.state
    case EMPTY => e == EMPTY_ENTRY
    case DELETED => e == TOMBSTONE
    case OCCUPIED => ValidKeyArgument(e.key) && ValidValueArgument(e.value)
  }

  ghost predicate Clean(t: Slots) {
    forall j | 0 <= j < |t| :: CleanEntry(t[j])
  }

  ghost predicate KeysDistinct(t: Slots) {
    forall i, j | Occupied(t, i) && Occupied(t, j) && t[i].key == t[j].key :: i == j
  }

  // Slot j is inspected before slot i by a search for the key stored in slot i.
  predicate Before(t: Slots, j: int, i: int)
    requires 0 <= j < |t| && 0 <= i < |t|
  {
    var start := Hash.Start(t[i].key, |t|);
    Dist(start, j, |t|) < Dist(start, i, |t|)
  }

  ghost predicate PathsUnbroken(t: Slots) {
    forall i, j {:trigger Before(t, j, i)} | Occupied(t, i) && 0 <= j < |t| && Before(t, j, i) :: t[j].state != EMPTY
  }

  ghost predicate Inv(t: Slots) {
    && 0 < |t| <= MAX_CAPACITY
    && Clean(t)
    && KeysDistinct(t)
    && PathsUnbroken(t)
  }

  // ---- Reference searches: a scan of the whole table, and the first reusable slot in probe order ----

  function FindFrom(t: Slots, key: CString, i: nat): (r: int)
    requires i <= |t|
    ensures r == -1 || i <= r < |t|
    ensures r >= 0 ==> Holds(t, r, key)
    ensures r < 0 ==> forall j | i <= j < |t| :: !Holds(t, j, key)
    decreases |t| - i
  {
    if i == |t| then -1
    else if Holds(t, i, key) then i
    else FindFrom(t, key, i + 1)
  }

  function Find(t: Slots, key: CString): (r: int)
    ensures r == -1 || 0 <= r < |t|
    ensures r >= 0 ==> Holds(t, r, key)
    ensures r < 0 ==> forall j | 0 <= j < |t| :: !Holds(t, j, key)
  {
    FindFrom(t, key, 0)
  }

  // The least probe number from d on whose slot is not OCCUPIED, or |t|.
  function FirstFree(t: Slots, start: nat, d: nat): (r: nat)
    requires start < |t| && d <= |t|
    ensures d <= r <= |t|
    ensures forall i | d <= i < r :: t[Pos(start, i, |t|)].state == OCCUPIED
    ensures r < |t| ==> t[Pos(start, r, |t|)].state != OCCUPIED
    decreases |t| - d
  {
    if d == |t| then d
    else if t[Pos(start, d, |t|)].state != OCCUPIED then d
    else FirstFree(t, start, d + 1)
  }

  // The slot a put of key uses: where the key is, else the first reusable slot on its probe path, else -1.
  function SlotFor(t: Slots, key: CString): (r: int)
    requires |t| > 0
    ensures -1 <= r < |t|
  {
    if Find(t, key) >= 0 then Find(t, key)
    else
      var start := Hash.Start(key, |t|);
      var d := FirstFree(t, start, 0);
      if d < |t| then Pos(start, d, |t|) else -1
  }

  // ---- Early-exit probing ----

  // An early-exit search for key stops at slot j.
  predicate Stops(t: Slots, key: CString, j: nat)
    requires j < |t|
  {
    t[j].state == EMPTY || Holds(t, j, key)
  }

  // The probe number at which an early-exit search stops, or |t| if it inspects every slot.
  function ProbeEnd(t: Slots, key: CString, d: nat): (r: nat)
    requires 0 < |t| && d <= |t|
    ensures d <= r <= |t|
    ensures forall i | d <= i < r :: !Stops(t, key, Pos(Hash.Start(key, |t|), i, |t|))
    ensures r < |t| ==> Stops(t, key, Pos(Hash.Start(key, |t|), r, |t|))
    decreases |t| - d
  {
    if d == |t| then d
    else if Stops(t, key, Pos(Hash.Start(key, |t|), d, |t|)) then d
    else ProbeEnd(t, key, d + 1)
  }

  // Slots inspected by an early-exit search, less one.
  function Collisions(t: Slots, key: CString): (c: nat)
    requires 0 < |t|
    ensures c < |t|
  {
    var e := ProbeEnd(t, key, 0);
    if e < |t| then e else |t| - 1
  }

  // Where an early-exit search stops decides the full-table scan.
  lemma EarlyExitAgreesWithScan(t: Slots, key: CString, e: nat)
    requires Inv(t) && e <= |t|
    requires forall i | 0 <= i < e :: !Stops(t, key, Pos(Hash.Start(key, |t|), i, |t|))
    requires e < |t| ==> Stops(t, key, Pos(Hash.Start(key, |t|), e, |t|))
    ensures e == ProbeEnd(t, key, 0)
    ensures var j := if e < |t| then Pos(Hash.Start(key, |t|), e, |t|) else 0;
            Find(t, key) == if e < |t| && t[j].state == OCCUPIED then j else -1
  {
    var start := Hash.Start(key, |t|);
    var r := ProbeEnd(t, key, 0);
    var f := Find(t, key);
    if f >= 0 {
      var d := Dist(start, f, |t|);
      PosOfDist(start, f, |t|);
      assert Stops(t, key, Pos(start, d, |t|));
      if e < d {
        assert Before(t, Pos(start, e, |t|), f);
      }
    }
  }

  // A search for a stored key has inspected i slots and has not stopped.
  ghost predicate LookSound(t: Slots, key: CString, i: nat) {
    0 < |t| && i <= |t| && forall d | 0 <= d < i :: !Stops(t, key, Pos(Hash.Start(key, |t|), d, |t|))
  }

  lemma LookEnds(t: Slots, key: CString, i: nat)
    requires Inv(t) && LookSound(t, key, i)
    requires i < |t| ==> Stops(t, key, Pos(Hash.Start(key, |t|), i, |t|))
    ensures Collisions(t, key) == if i < |t| then i else |t| - 1
    ensures var j := if i < |t| then Pos(Hash.Start(key, |t|), i, |t|) else 0;
            Find(t, key) == if i < |t| && t[j].state == OCCUPIED then j else -1
  {
    EarlyExitAgreesWithScan(t, key, i);
  }

  /** What a search counts: the way from its start to its key, or else to the nearest EMPTY slot, or else around the
      whole table. */
  lemma CollisionsMeasureTheWay(t: Slots, key: CString, j: nat)
    requires Inv(t) && j < |t| && (Holds(t, j, key) || (Find(t, key) < 0 && t[j].state == EMPTY))
    ensures Collisions(t, key) <= Dist(Hash.Start(key, |t|), j, |t|)
    ensures Collisions(t, key) == Dist(Hash.Start(key, |t|), j, |t|) <==>
            Holds(t, j, key) || forall i | 0 <= i < |t| && t[i].state == EMPTY ::
              Dist(Hash.Start(key, |t|), j, |t|) <= Dist(Hash.Start(key, |t|), i, |t|)
  {
    var start, e := Hash.Start(key, |t|), ProbeEnd(t, key, 0);
    EarlyExitAgreesWithScan(t, key, e);
    PosOfDist(start, j, |t|);
    assert Stops(t, key, Pos(start, Dist(start, j, |t|), |t|));
    var s := Pos(start, e, |t|);
    assert Dist(start, s, |t|) == e;
    forall i | 0 <= i < |t| && t[i].state == EMPTY && !Holds(t, j, key) ensures e <= Dist(start, i, |t|) {
      PosOfDist(start, i, |t|);
      assert Stops(t, key, Pos(start, Dist(start, i, |t|), |t|));
    }
  }

  // What a search that stops at probe e, having met its first DELETED slot at probe d (d == e if none), returns.
  lemma EarlyExitFindsSlot(t: Slots, key: CString, e: nat, d: nat)
    requires Inv(t) && d <= e <= |t|
    requires forall i | 0 <= i < e :: !Stops(t, key, Pos(Hash.Start(key, |t|), i, |t|))
    requires forall i | 0 <= i < d :: t[Pos(Hash.Start(key, |t|), i, |t|)].state == OCCUPIED
    requires d < e ==> t[Pos(Hash.Start(key, |t|), d, |t|)].state != OCCUPIED
    requires e < |t| ==> Stops(t, key, Pos(Hash.Start(key, |t|), e, |t|))
    ensures Collisions(t, key) == if e < |t| then e else |t| - 1
    ensures var start := Hash.Start(key, |t|);
            SlotFor(t, key) == if e < |t| && t[Pos(start, e, |t|)].state == OCCUPIED then Pos(start, e, |t|)
                               else if d < |t| then Pos(start, d, |t|)
                               else -1
  {
    EarlyExitAgreesWithScan(t, key, e);
    var f := FirstFree(t, Hash.Start(key, |t|), 0);
    assert (e < |t| && t[Pos(Hash.Start(key, |t|), e, |t|)].state == OCCUPIED) || f == d;
  }

  // A search for a slot that has inspected i slots has not stopped, and reuse is the first tombstone it met, or -1.
  ghost predicate SeekSound(t: Slots, key: CString, i: nat, reuse: int) {
    0 < |t| && i <= |t| && -1 <= reuse < |t| &&
    var start := Hash.Start(key, |t|);
    && (forall d | 0 <= d < i :: !Stops(t, key, Pos(start, d, |t|)))
    && if reuse == -1 then forall d | 0 <= d < i :: t[Pos(start, d, |t|)].state == OCCUPIED
       else
         && t[reuse].state == DELETED && Dist(start, reuse, |t|) < i
         && forall d | 0 <= d < Dist(start, reuse, |t|) :: t[Pos(start, d, |t|)].state == OCCUPIED
  }

  lemma SeekGoesOn(t: Slots, key: CString, i: nat, reuse: int)
    requires SeekSound(t, key, i, reuse) && i < |t| && !Stops(t, key, Pos(Hash.Start(key, |t|), i, |t|))
    ensures var j := Pos(Hash.Start(key, |t|), i, |t|);
            SeekSound(t, key, i + 1, if t[j].state == DELETED && reuse == -1 then j else reuse)
  {
  }

  lemma SeekEnds(t: Slots, key: CString, i: nat, reuse: int)
    requires Inv(t) && SeekSound(t, key, i, reuse)
    requires i < |t| ==> Stops(t, key, Pos(Hash.Start(key, |t|), i, |t|))
    ensures Collisions(t, key) == if i < |t| then i else |t| - 1
    ensures var start := Hash.Start(key, |t|);
            SlotFor(t, key) == if i < |t| && (t[Pos(start, i, |t|)].state == OCCUPIED || reuse == -1)
                               then Pos(start, i, |t|) else reuse
  {
    var start := Hash.Start(key, |t|);
    if reuse != -1 {
      PosOfDist(start, reuse, |t|);
    }
    EarlyExitFindsSlot(t, key, i, if reuse == -1 then i else Dist(start, reuse, |t|));
  }

  // SlotFor answers -1 exactly when every slot is OCCUPIED by some other key.
  lemma SlotForFailsIffFull(t: Slots, key: CString)
    requires |t| > 0
    ensures SlotFor(t, key) == -1 <==> forall j | 0 <= j < |t| :: Occupied(t, j) && t[j].key != key
    ensures SlotFor(t, key) >= 0 ==>
              Holds(t, SlotFor(t, key), key) || (Find(t, key) < 0 && !Occupied(t, SlotFor(t, key)))
  {
    if SlotFor(t, key) == -1 {
      var start := Hash.Start(key, |t|);
      forall j | 0 <= j < |t| ensures Occupied(t, j) && t[j].key != key {
        PosOfDist(start, j, |t|);
        assert t[Pos(start, Dist(start, j, |t|), |t|)].state == OCCUPIED;
        assert !Holds(t, j, key);
      }
    }
  }

  // The reusable slot is the first non-OCCUPIED one in probe order.
  lemma SlotForIsFirstReusable(t: Slots, key: CString, j: nat)
    requires Inv(t) && Find(t, key) < 0 && j < |t| && t[j].state != OCCUPIED
    ensures SlotFor(t, key) >= 0
    ensures var start := Hash.Start(key, |t|);
            Dist(start, SlotFor(t, key), |t|) <= Dist(start, j, |t|)
  {
    var start := Hash.Start(key, |t|);
    PosOfDist(start, j, |t|);
  }

  // ---- Changes to the table ----

  function Store(t: Slots, j: nat, key: CString, value: CString, timestamp: nat, ttl: nat): (t': Slots)
    requires j < |t|
    ensures |t'| == |t|
  {
    t[j := Entry(OCCUPIED, key, value, timestamp, ttl)]
  }

  predicate ExpiredAt(timestamp: nat, ttl: nat, now: nat) {
    ttl > 0 && now >= timestamp && now - timestamp >= ttl
  }

  predicate Stale(e: Entry, now: nat) {
    e.state == OCCUPIED && ExpiredAt(e.timestamp, e.ttl, now)
  }

  // Slot i is evicted before slot j: older write, ties broken by the lower index.
  predicate OlderWrite(t: Slots, i: int, j: int)
    requires 0 <= i < |t| && 0 <= j < |t|
  {
    t[i].timestamp < t[j].timestamp || (t[i].timestamp == t[j].timestamp && i <= j)
  }

  // The (timestamp, index)-minimum over the OCCUPIED slots below n, or -1.
  function VictimBelow(t: Slots, n: nat): (r: int)
    requires n <= |t|
    ensures -1 <= r < n
    ensures r == -1 <==> forall j | 0 <= j < n :: !Occupied(t, j)
    ensures r >= 0 ==> Occupied(t, r) && forall j | 0 <= j < n && Occupied(t, j) :: OlderWrite(t, r, j)
  {
    if n == 0 then -1
    else
      var r := VictimBelow(t, n - 1);
      if Occupied(t, n - 1) && (r == -1 || t[n - 1].timestamp < t[r].timestamp) then n - 1 else r
  }

  function Victim(t: Slots): (r: int)
    ensures -1 <= r < |t|
    ensures r == -1 <==> forall j | 0 <= j < |t| :: !Occupied(t, j)
    ensures r >= 0 ==> Occupied(t, r) && forall j | 0 <= j < |t| && Occupied(t, j) :: OlderWrite(t, r, j)
  {
    VictimBelow(t, |t|)
  }

  lemma TombstonePreserves(t: Slots, j: nat)
    requires Inv(t) && Occupied(t, j)
    ensures Inv(t[j := TOMBSTONE])
  {
    var t' := t[j := TOMBSTONE];
    forall a, b | Occupied(t', a) && Occupied(t', b) && t'[a].key == t'[b].key ensures a == b {
      assert Occupied(t, a) && Occupied(t, b);
    }
    forall a, b | Occupied(t', a) && 0 <= b < |t'| && Before(t', b, a) ensures t'[b].state != EMPTY {
      assert Occupied(t, a) && Before(t, b, a);
    }
  }

  lemma StorePreserves(t: Slots, key: CString, value: CString, timestamp: nat, ttl: nat)
    requires Inv(t) && SlotFor(t, key) >= 0 && ValidKeyArgument(key) && ValidValueArgument(value)
    ensures Inv(Store(t, SlotFor(t, key), key, value, timestamp, ttl))
  {
    var s := SlotFor(t, key);
    var t' := Store(t, s, key, value, timestamp, ttl);
    SlotForFailsIffFull(t, key);
    forall a, b | Occupied(t', a) && Occupied(t', b) && t'[a].key == t'[b].key ensures a == b {
      assert !Holds(t, a, key) || a == s || Find(t, key) == s;
      assert a != s ==> Occupied(t, a);
      assert b != s ==> Occupied(t, b);
      assert !Holds(t, b, key) || b == s || Find(t, key) == s;
    }
    forall a, b | Occupied(t', a) && 0 <= b < |t'| && Before(t', b, a) ensures t'[b].state != EMPTY {
      if a != s {
        assert Occupied(t, a) && Before(t, b, a);
      } else if Find(t, key) >= 0 {
        assert Occupied(t, a) && Before(t, b, a);
      } else {
        var start := Hash.Start(key, |t|);
        PosOfDist(start, b, |t|);
        assert t[Pos(start, Dist(start, b, |t|), |t|)].state == OCCUPIED;
      }
    }
  }

  // ---- Counting ----

  ghost function OccupiedSet(t: Slots): set<nat> {
    set j: nat | j < |t| && Occupied(t, j)
  }

  ghost function Count(t: Slots): nat {
    |OccupiedSet(t)|
  }

  lemma CountTombstone(t: Slots, j: nat)
    requires Occupied(t, j)
    ensures Count(t) > 0 && Count(t[j := TOMBSTONE]) == Count(t) - 1
  {
    assert j in OccupiedSet(t);
    assert OccupiedSet(t[j := TOMBSTONE]) == OccupiedSet(t) - {j};
  }

  lemma CountStore(t: Slots, j: nat, e: Entry)
    requires j < |t| && e.state == OCCUPIED
    ensures Count(t[j := e]) == Count(t) + if Occupied(t, j) then 0 else 1
  {
    assert j in OccupiedSet(t) <==> Occupied(t, j);
    assert OccupiedSet(t[j := e]) == OccupiedSet(t) + {j};
  }

  lemma CountBound(t: Slots)
    ensures Count(t) <= |t|
    ensures Count(t) == |t| <==> forall j | 0 <= j < |t| :: Occupied(t, j)
  {
    var all := Indices(|t|);
    assert OccupiedSet(t) <= all;
    Subset(OccupiedSet(t), all);
    assert forall j: nat | j < |t| :: j in OccupiedSet(t) <==> Occupied(t, j);
    if forall j | 0 <= j < |t| :: Occupied(t, j) {
      assert OccupiedSet(t) == all;
    } else {
      var j :| 0 <= j < |t| && !Occupied(t, j);
      assert j in all && j !in OccupiedSet(t);
    }
  }

  ghost function Indices(n: nat): (s: set<nat>)
    ensures |s| == n
    ensures forall j: nat :: j in s <==> j < n
  {
    if n == 0 then {} else Indices(n - 1) + {n - 1}
  }

  lemma {:induction false} Subset<T>(a: set<T>, b: set<T>)
    requires a <= b
    ensures |a| <= |b|
    ensures |a| == |b| ==> a == b
  {
    if a == {} {
    } else {
      var x :| x in a;
      Subset(a - {x}, b - {x});
      assert a == (a - {x}) + {x} && b == (b - {x}) + {x};
    }
  }
}
