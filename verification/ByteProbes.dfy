/** The probe loops on the bytes of the region: hashing a key buffer, searching with strcmp, and copying values in and
    out. Each does on bytes what the table's reference searches do on the slots the bytes stand for. */
module ByteProbes {
  import opened CStrings
  import opened Buffers
  import opened Table
  import opened CacheSpec
  import Hash

  method HashBytes(key: array<int8>, capacity: nat) returns (index: nat)
    requires Terminated(key[..]) && 0 < capacity < Hash.WORD
    ensures index == Hash.Start(CStr(key[..]), capacity)
  {
    ghost var s := CStr(key[..]);
    CStrAt(key[..]);
    var hash: nat := Hash.SEED;
    var i := 0;
    while key[i] != 0
      invariant i <= |s| < key.Length
      invariant hash == Hash.Wrap(Hash.Horner(s[..i]))
      decreases |s| - i
    {
      EndsAt(key[..], i);
      Hash.ShiftAddIs33(hash, s[i]);
      Hash.WrapAbsorbs(Hash.Horner(s[..i]), s[i]);
      assert s[..i + 1][..i] == s[..i];
      hash := Hash.Wrap(Hash.Wrap(Hash.Wrap(hash * 32) + hash) + key[i]);
      i := i + 1;
    }
    EndsAt(key[..], i);
    assert s[..i] == s;
    Hash.HornerIsPolynomial(s);
    index := hash % capacity;
  }

  method FindSlotInternal(entries: EntryArray, key: array<int8>) returns (index: int, collisions: nat)
    requires entries.Valid() && Inv(entries.Slots()) && Terminated(key[..])
    ensures index == SlotFor(entries.Slots(), CStr(key[..]))
    ensures collisions == Collisions(entries.Slots(), CStr(key[..]))
  {
    ghost var t, k := entries.Slots(), CStr(key[..]);
    var n := |entries.cells|;
    var start := HashBytes(key, n);
    var firstDeleted: int := -1;
    var i := 0;
    collisions := 0;
    while i < n
      invariant i <= n
      invariant collisions == if i == 0 then 0 else i - 1
      invariant SeekSound(t, k, i, firstDeleted)
    {
      if i > 0 {
        collisions := collisions + 1;
      }
      var curr := ProbeSlot(start, i, n);
      ProbeIndex(start, i, n);
      var state, found := entries.InspectAt(curr, key);
      if state == EMPTY {
        SeekEnds(t, k, i, firstDeleted);
        return if firstDeleted != -1 then firstDeleted else curr, collisions;
      }
      if state == DELETED {
        SeekGoesOn(t, k, i, firstDeleted);
        if firstDeleted == -1 {
          firstDeleted := curr;
        }
      } else if found {
        SeekEnds(t, k, i, firstDeleted);
        return curr, collisions;
      } else {
        SeekGoesOn(t, k, i, firstDeleted);
      }
      i := i + 1;
    }
    SeekEnds(t, k, i, firstDeleted);
    index := firstDeleted;
  }

  // The loop with which get, update, delete and purge look for a stored key.
  method FindKey(entries: EntryArray, key: array<int8>) returns (index: int, collisions: nat)
    requires entries.Valid() && Inv(entries.Slots()) && Terminated(key[..])
    ensures index == Find(entries.Slots(), CStr(key[..]))
    ensures collisions == Collisions(entries.Slots(), CStr(key[..]))
  {
    ghost var t, k := entries.Slots(), CStr(key[..]);
    var n := |entries.cells|;
    var start := HashBytes(key, n);
    var i := 0;
    while i < n
      invariant i <= n
      invariant LookSound(t, k, i)
    {
      var curr := ProbeSlot(start, i, n);
      ProbeIndex(start, i, n);
      var state, found := entries.InspectAt(curr, key);
      if state == EMPTY {
        LookEnds(t, k, i);
        return -1, i;
      }
      if found {
        LookEnds(t, k, i);
        return curr, i;
      }
      i := i + 1;
    }
    LookEnds(t, k, i);
    index, collisions := -1, n - 1;
  }

  datatype Outcome = Copied(timestamp: nat) | Expired | Absent

  /** The read phase of get on bytes: it decides as the table's read does, and on a hit the caller's buffer holds the
      value. */
  method Read(entries: EntryArray, key: array<int8>, now: nat, out: array<int8>)
    returns (outcome: Outcome, collisions: nat)
    requires entries.Valid() && Inv(entries.Slots()) && Terminated(key[..])
    requires out.Length == MAX_VAL_LEN && out !in entries.footprint && out != key
    modifies out
    ensures entries.Valid() && entries.Slots() == old(entries.Slots())
    ensures collisions == Collisions(entries.Slots(), CStr(key[..]))
    ensures match ReadLocked(entries.Slots(), CStr(key[..]), now)
            case SeenLive(value, timestamp) =>
              outcome == Copied(timestamp) && Terminated(out[..]) && CStr(out[..]) == value
            case SeenExpired => outcome == Expired && out[..] == old(out[..])
            case SeenNothing => outcome == Absent && out[..] == old(out[..])
  {
    var index;
    index, collisions := FindKey(entries, key);
    if index < 0 {
      return Absent, collisions;
    }
    var entry := entries.cells[index];
    if ExpiredAt(entry.timestamp, entry.ttl, now) {
      return Expired, collisions;
    }
    entries.ReadAt(index, out);
    outcome := Copied(entry.timestamp);
  }

  /** A put that finds room: one search, one write, and what it stores is the table's entry for the key. */
  method Write(entries: EntryArray, key: array<int8>, value: array<int8>, ttl: nat, now: nat) returns (ok: bool)
    requires entries.Valid() && Inv(entries.Slots()) && {key, value} !! entries.footprint
    requires Terminated(key[..]) && Terminated(value[..])
    requires ValidKeyArgument(CStr(key[..])) && ValidValueArgument(CStr(value[..]))
    modifies entries.footprint
    ensures entries.Valid() && Inv(entries.Slots())
    ensures ok <==> SlotFor(old(entries.Slots()), CStr(key[..])) >= 0
    ensures entries.Slots() ==
              if !ok then old(entries.Slots())
              else Store(old(entries.Slots()), SlotFor(old(entries.Slots()), CStr(key[..])), CStr(key[..]),
                         CStr(value[..]), now, ttl)
  {
    var index, collisions := FindSlotInternal(entries, key);
    if index < 0 {
      return false;
    }
    StorePreserves(entries.Slots(), CStr(key[..]), CStr(value[..]), now, ttl);
    entries.StoreAt(index, key, value, ttl, now);
    ok := true;
  }

  lemma StoredIsFound(t: Slots, key: CString, value: CString, timestamp: nat, ttl: nat, now: nat)
    requires Inv(t) && SlotFor(t, key) >= 0 && ValidKeyArgument(key) && ValidValueArgument(value)
    ensures var t' := Store(t, SlotFor(t, key), key, value, timestamp, ttl);
            ReadLocked(t', key, now) ==
              if ExpiredAt(timestamp, ttl, now) then SeenExpired else SeenLive(value, timestamp)
  {
    var s := SlotFor(t, key);
    var t' := Store(t, s, key, value, timestamp, ttl);
    StorePreserves(t, key, value, timestamp, ttl);
    assert Holds(t', s, key) && Find(t', key) == s;
  }

  /** Round trip through the whole region: once a put has found room, a search with any buffer that spells the same key
      brings back the value, byte for byte up to its end, until the time to live is over, and finds it expired then. */
  method PutThenRead(entries: EntryArray, key: array<int8>, value: array<int8>, ttl: nat, now: nat,
                     wanted: array<int8>, later: nat, out: array<int8>)
      returns (ok: bool, outcome: Outcome)
    requires entries.Valid() && Inv(entries.Slots()) && {key, value, wanted, out} !! entries.footprint
    requires Terminated(key[..]) && Terminated(value[..]) && Terminated(wanted[..])
    requires ValidKeyArgument(CStr(key[..])) && ValidValueArgument(CStr(value[..]))
    requires CStr(wanted[..]) == CStr(key[..]) && out.Length == MAX_VAL_LEN && out !in {key, value, wanted}
    modifies entries.footprint, out
    ensures entries.Valid() && Inv(entries.Slots())
    ensures ok <==> SlotFor(old(entries.Slots()), CStr(key[..])) >= 0
    ensures ok && (ttl == 0 || later < now + ttl) ==> outcome == Copied(now) && CStr(out[..]) == CStr(value[..])
    ensures ok && ttl > 0 && later >= now + ttl ==> outcome == Expired && out[..] == old(out[..])
  {
    ghost var t := entries.Slots();
    ok := Write(entries, key, value, ttl, now);
    if !ok {
      return false, Absent;
    }
    StoredIsFound(t, CStr(key[..]), CStr(value[..]), now, ttl, later);
    var collisions;
    outcome, collisions := Read(entries, wanted, later, out);
  }
}
