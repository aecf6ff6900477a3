/** Laws over whole runs of any number of processes: purges are harmless, slots never become empty again, and what a
    saturated table costs. */
module RunLaws {
  import opened CStrings
  import opened Table
  import opened TtlMap
  import opened CacheSpec
  import opened Refinement
  import opened History
  import opened LiveView
  import opened Processes
  import opened RunSafety
  import opened Telemetry
  import RwLock
  import Hash

  // ---- The second phase of an expired get ----

  lemma PurgeLeavesLiveRecords(c: Cache, key: CString, collisions: nat, now: nat, later: nat)
    requires CacheInv(c) && now <= later
    ensures var m, c' := View(c.slots), PurgeLocked(c, key, collisions, now);
            var m' := View(c'.slots);
            && Live(m', later) == Live(m, later)
            && (key in Live(m, now) || key !in m ==> m' == m && c'.count == c.count)
            && (key in m && key !in Live(m, now) ==> m' == m - {key} && c'.count == c.count - 1)
  {
    PurgeRefines(c, key, collisions, now);
    DroppingExpiredKeepsLive(View(c.slots), key, now, later);
  }

  /** Whatever happened to the key since the get saw it expired, the purge leaves every record that is live now alone,
      and the entry count drops exactly when an expired record is removed. */
  lemma PurgeSparesLiveRecords(ws: seq<World>, steps: seq<Step>, i: nat, later: nat)
    requires IsRun(ws, steps) && i < |steps| && steps[i].Act? && ws[i].counters[steps[i].p].Purging?
    requires later >= ws[i + 1].clock
    ensures var m, m' := View(ws[i].cache.slots), View(ws[i + 1].cache.slots);
            var key, now := ws[i].counters[steps[i].p].key, ws[i + 1].clock;
            && Live(m', later) == Live(m, later)
            && (key in Live(m, now) || key !in m ==> m' == m && ws[i + 1].cache.count == ws[i].cache.count)
            && (key in m && key !in Live(m, now) ==> m' == m - {key} && ws[i + 1].cache.count == ws[i].cache.count - 1)
  {
    var pc := ws[i].counters[steps[i].p];
    RunIsSafe(ws, steps, i);
    assert ws[i + 1].cache == PurgeLocked(ws[i].cache, pc.key, pc.collisions, ws[i + 1].clock);
    PurgeLeavesLiveRecords(ws[i].cache, pc.key, pc.collisions, ws[i + 1].clock, later);
  }

  // The count in the header is that of the stored records in every reachable state.
  lemma EntryCountIsExact(ws: seq<World>, steps: seq<Step>, i: nat)
    requires IsRun(ws, steps) && i < |ws|
    ensures ws[i].cache.count == |View(ws[i].cache.slots)| <= |ws[i].cache.slots|
  {
    RunIsSafe(ws, steps, i);
    CountIsViewSize(ws[i].cache.slots);
    CountBound(ws[i].cache.slots);
  }

  // Runs start from an empty cache of any capacity, at any time, with any number of processes.
  lemma RunsStart(capacity: nat, clock: nat, processes: nat, now: nat) returns (w: World)
    requires 0 < capacity <= 0x8000_0000
    ensures w.cache == Cache(seq(capacity, _ => EMPTY_ENTRY), 0, 0, 0, 0) && w.clock == clock && w.now == now
    ensures |w.counters| == processes && IsRun([w], [])
  {
    w := World(Cache(seq(capacity, _ => EMPTY_ENTRY), 0, 0, 0, 0), RwLock.FREE, clock, seq(processes, _ => Idle), now,
               [], [], [], 0, 0, 0);
  }

  // A call can be made exactly by an idle process, of a key of 1 to 63 characters and a value of at most 255.
  lemma CallsAccepted(w: World, p: nat, op: Operation)
    requires p < |w.counters| && |w.cache.slots| > 0
    ensures Enabled(w, Invoke(p, op)) <==>
            w.counters[p] == Idle && 1 <= |op.key| <= 63 && (op.Put? || op.Update? ==> |op.value| <= 255)
  {
    ArgumentLengths(op.key, if op.Put? || op.Update? then op.value else []);
  }

  // Stored keys have 1 to 63 characters, stored values at most 255, in every reachable state.
  lemma StoredLengths(ws: seq<World>, steps: seq<Step>, i: nat, key: CString)
    requires IsRun(ws, steps) && i < |ws| && key in View(ws[i].cache.slots)
    ensures 1 <= |key| <= 63 && |View(ws[i].cache.slots)[key].value| <= 255
  {
    RunIsSafe(ws, steps, i);
    var t := ws[i].cache.slots;
    ViewHas(t, key);
    assert CleanEntry(t[Find(t, key)]);
    ArgumentLengths(key, t[Find(t, key)].value);
  }

  // ---- Time to live ----

  /** In any run: once a put or successful update of key has taken effect (action i of the log), a get of key that reads
      while nothing has since written, deleted or evicted the key answers with exactly what was written, at its
      timestamp, before the TTL is over (always, if it is 0), and misses afterwards. */
  lemma RunReadsSeeLastWrite(ws: seq<World>, steps: seq<Step>, n: nat, i: nat, j: nat, key: CString)
    requires IsRun(ws, steps) && n < |ws| && i < j < |ws[n].log|
    requires Writes(ws[n].log[i], key) && ws[n].log[j].Call? && ws[n].log[j].op == Get(key)
    requires forall m | i < m < j :: !Touches(ws[n].log[m], key)
    ensures var log := ws[n].log;
            var records := Replay(|ws[n].cache.slots|, log[..i + 1]);
            && key in records
            && log[j].result == if records[key].ttl == 0 || log[j].t0 < log[i].t1 + records[key].ttl
                                then Hit(log[i].op.value, log[i].t1) else Miss
  {
    RunIsSafe(ws, steps, n);
    ReadsSeeLastWriteUntilExpiry(|ws[n].cache.slots|, ws[n].log, i, j, key);
  }

  /** In any run the history without its purges explains every answer but those of deletes: the records it leaves before
      a call allow that call, answer and evicted key included. */
  lemma RunExplainedWithoutPurges(ws: seq<World>, steps: seq<Step>, n: nat, i: nat)
    requires IsRun(ws, steps) && n < |ws| && i < |ws[n].log| && ws[n].log[i].Call? && !ws[n].log[i].op.Delete?
    ensures var capacity := |ws[n].cache.slots|;
            Allowed(capacity, Replay(capacity, WithoutPurges(ws[n].log[..i])), ws[n].log[i])
  {
    RunIsSafe(ws, steps, n);
    ExplainedWithoutPurges(|ws[n].cache.slots|, ws[n].log, i);
  }

  lemma RunDeleteOfLiveSucceeds(ws: seq<World>, steps: seq<Step>, n: nat, i: nat)
    requires IsRun(ws, steps) && n < |ws| && i < |ws[n].log| && ws[n].log[i].Call? && ws[n].log[i].op.Delete?
    ensures var e, capacity := ws[n].log[i], |ws[n].cache.slots|;
            e.op.key in Live(Replay(capacity, WithoutPurges(ws[n].log[..i])), e.t0) ==> e.result == Done(true)
  {
    RunIsSafe(ws, steps, n);
    DeleteOfLiveSucceeds(|ws[n].cache.slots|, ws[n].log, i);
  }

  // ---- Slots never become EMPTY again ----

  ghost predicate StaysUsed(t: Slots, t': Slots) {
    |t'| == |t| && forall j | 0 <= j < |t| :: t[j].state != EMPTY ==> t'[j].state != EMPTY
  }

  lemma {:induction false} StaysUsedChain(ts: seq<Slots>, i: nat, k: nat)
    requires i <= k < |ts| && forall n | 0 <= n < |ts| - 1 :: StaysUsed(ts[n], ts[n + 1])
    ensures StaysUsed(ts[i], ts[k])
  {
    if i == k {
    } else {
      StaysUsedChain(ts, i, k - 1);
      assert StaysUsed(ts[k - 1], ts[k - 1 + 1]);
    }
  }

  lemma PutStaysUsed(c: Cache, key: CString, value: CString, ttl: nat, t0: nat, t1: nat)
    requires |c.slots| > 0
    ensures StaysUsed(c.slots, PutLocked(c, key, value, ttl, t0, t1).1.slots)
  {
    if SlotFor(c.slots, key) < 0 {
      PutReclaimedStaysUsed(Reclaim(Searched(c, key), t0), key, value, ttl, t1);
    }
  }

  lemma PutEvictedStaysUsed(c: Cache, key: CString, value: CString, ttl: nat, now: nat)
    requires |c.slots| > 0
    ensures StaysUsed(c.slots, PutEvicted(c, key, value, ttl, now).1.slots)
  {
  }

  lemma PutReclaimedStaysUsed(c: Cache, key: CString, value: CString, ttl: nat, now: nat)
    requires |c.slots| > 0
    ensures StaysUsed(c.slots, PutReclaimed(c, key, value, ttl, now).1.slots)
  {
    var v := Victim(c.slots);
    if SlotFor(c.slots, key) < 0 && v >= 0 {
      PutEvictedStaysUsed(RemoveAt(Searched(c, key), v), key, value, ttl, now);
    }
  }

  lemma WriteStaysUsed(w: World, p: nat, t0: nat, t1: nat)
    requires p < |w.counters| && w.counters[p].Writing? && |w.cache.slots| > 0
    ensures StaysUsed(w.cache.slots, WriteStep(w, p, w.counters[p].id, w.counters[p].op, t0, t1).cache.slots)
  {
    match w.counters[p].op
    case Put(key, value, ttl) => PutStaysUsed(w.cache, key, value, ttl, t0, t1);
    case _ =>
  }

  lemma StepStaysUsed(w: World, s: Step)
    requires Enabled(w, s)
    ensures StaysUsed(w.cache.slots, Next(w, s).cache.slots)
  {
    if s.Act? {
      if w.counters[s.p].Writing? {
        WriteStaysUsed(w, s.p, s.t0, s.t1);
      }
    }
  }

  lemma RunStepStaysUsed(ws: seq<World>, steps: seq<Step>, i: nat)
    requires IsRun(ws, steps) && i < |steps|
    ensures StaysUsed(ws[i].cache.slots, ws[i + 1].cache.slots)
  {
    StepStaysUsed(ws[i], steps[i]);
  }

  lemma UsedSlotsOnlyGrow(ws: seq<World>, steps: seq<Step>, i: nat, k: nat)
    requires IsRun(ws, steps) && i <= k < |ws|
    ensures StaysUsed(ws[i].cache.slots, ws[k].cache.slots)
  {
    var ts := seq(|ws|, n requires 0 <= n < |ws| => ws[n].cache.slots);
    forall n | 0 <= n < |ts| - 1 ensures StaysUsed(ts[n], ts[n + 1]) {
      RunStepStaysUsed(ws, steps, n);
    }
    StaysUsedChain(ts, i, k);
  }

  // ---- A saturated table ----

  ghost predicate NoneEmpty(t: Slots) {
    forall j | 0 <= j < |t| :: t[j].state != EMPTY
  }

  // A search inspects the whole table exactly when its key is absent and no EMPTY slot is left to stop it.
  lemma FullScanIffSaturated(t: Slots, key: CString)
    requires Inv(t)
    ensures ProbeEnd(t, key, 0) == |t| <==> Find(t, key) < 0 && NoneEmpty(t)
    ensures Find(t, key) < 0 && NoneEmpty(t) ==> Collisions(t, key) == |t| - 1
  {
    var start := Hash.Start(key, |t|);
    var e := ProbeEnd(t, key, 0);
    EarlyExitAgreesWithScan(t, key, e);
    if e == |t| {
      forall j | 0 <= j < |t| ensures t[j].state != EMPTY {
        PosOfDist(start, j, |t|);
        assert !Stops(t, key, Pos(start, Dist(start, j, |t|), |t|));
      }
    }
  }

  // Once no EMPTY slot remains, every read of an absent key inspects all slots, forever after.
  lemma SaturatedReadsScanAll(ws: seq<World>, steps: seq<Step>, i: nat, k: nat)
    requires IsRun(ws, steps) && i <= k < |steps| && NoneEmpty(ws[i].cache.slots)
    requires steps[k].Probe? && ws[k + 1].counters[steps[k].p].Decided?
    ensures var e := ws[k + 1].log[|ws[k].log|];
            e.op.key !in View(ws[k].cache.slots) ==> e.cost == |ws[0].cache.slots| - 1
  {
    var key := ws[k].counters[steps[k].p].key;
    UsedSlotsOnlyGrow(ws, steps, i, k);
    RunIsSafe(ws, steps, i);
    RunIsSafe(ws, steps, k);
    LoggedReadCost(ws[k], steps[k].p);
    ViewHas(ws[k].cache.slots, key);
    FullScanIffSaturated(ws[k].cache.slots, key);
  }

  lemma FullTableCosts(c: Cache, key: CString)
    requires CacheInv(c) && Find(c.slots, key) < 0 && NoneEmpty(c.slots)
    ensures ReclaimedCost(c.slots, key) == (if SlotFor(c.slots, key) >= 0 then 1 else 2) * (|c.slots| - 1)
  {
    FullScanIffSaturated(c.slots, key);
    if SlotFor(c.slots, key) < 0 {
      EvictionMakesRoom(c, key);
      var t := c.slots[Victim(c.slots) := TOMBSTONE];
      TombstonePreserves(c.slots, Victim(c.slots));
      assert Find(t, key) >= 0 ==> Holds(c.slots, Find(t, key), key);
      FullScanIffSaturated(t, key);
    }
  }

  lemma ReclaimKeepsAbsent(c: Cache, key: CString, now: nat)
    requires Find(c.slots, key) < 0
    ensures Find(Reclaim(c, now).slots, key) < 0
    ensures NoneEmpty(c.slots) ==> NoneEmpty(Reclaim(c, now).slots)
  {
    var t := Reclaim(c, now).slots;
    assert Find(t, key) >= 0 ==> Holds(c.slots, Find(t, key), key);
  }

  // A put of a new key into a fully OCCUPIED table searches everything twice, or three times if it has to evict.
  lemma PutIntoFullTableCost(c: Cache, key: CString, t0: nat)
    requires CacheInv(c) && Find(c.slots, key) < 0 && (forall j | 0 <= j < |c.slots| :: Occupied(c.slots, j))
    ensures PutCost(c, key, t0) == (if SomeExpired(View(c.slots), t0) then 2 else 3) * (|c.slots| - 1)
  {
    SlotForFailsIffFull(c.slots, key);
    ReclaimMakesRoom(c, key, t0);
    ReclaimRefines(c, t0);
    ReclaimKeepsAbsent(c, key, t0);
    FullScanIffSaturated(c.slots, key);
    FullTableCosts(Reclaim(c, t0), key);
  }

  /** What a put adds to the counter: with room for its key one search, and in a table full of other keys two or three
      searches of the whole table. */
  lemma PutCollisions(c: Cache, key: CString, value: CString, ttl: nat, t0: nat, t1: nat)
    requires CacheInv(c)
    ensures PutLocked(c, key, value, ttl, t0, t1).1.collisions == c.collisions +
              if Fits(|c.slots|, View(c.slots), key) then Collisions(c.slots, key)
              else (if SomeExpired(View(c.slots), t0) then 2 else 3) * (|c.slots| - 1)
  {
    SlotForFits(c.slots, key);
    PutCounts(c, key, value, ttl, t0, t1);
    if SlotFor(c.slots, key) < 0 {
      SlotForFailsIffFull(c.slots, key);
      PutIntoFullTableCost(c, key, t0);
    }
  }

  // The exclusive section of an operation leaves its searches, and no other, in the counter.
  lemma WritingCosts(ws: seq<World>, steps: seq<Step>, k: nat)
    requires IsRun(ws, steps) && k < |steps| && steps[k].Act? && ws[k].counters[steps[k].p].Writing?
    ensures var op := ws[k].counters[steps[k].p].op;
            ws[k + 1].cache.collisions == ws[k].cache.collisions +
              if op.Put? then PutCost(ws[k].cache, op.key, steps[k].t0) else Collisions(ws[k].cache.slots, op.key)
  {
    var pc, s := ws[k].counters[steps[k].p], steps[k];
    WriteEffectCounts(ws[k].cache, pc.id, pc.op, s.t0, s.t1);
  }

  // Once no EMPTY slot remains, so does every update or delete of an absent key.
  lemma SaturatedWritesScanAll(ws: seq<World>, steps: seq<Step>, i: nat, k: nat)
    requires IsRun(ws, steps) && i <= k < |steps| && NoneEmpty(ws[i].cache.slots)
    requires steps[k].Act? && ws[k].counters[steps[k].p].Writing?
    requires var op := ws[k].counters[steps[k].p].op;
             (op.Update? || op.Delete?) && op.key !in View(ws[k].cache.slots)
    ensures ws[k + 1].cache.collisions == ws[k].cache.collisions + |ws[0].cache.slots| - 1
  {
    var key := ws[k].counters[steps[k].p].op.key;
    UsedSlotsOnlyGrow(ws, steps, i, k);
    RunIsSafe(ws, steps, k);
    ViewHas(ws[k].cache.slots, key);
    FullScanIffSaturated(ws[k].cache.slots, key);
    WritingCosts(ws, steps, k);
  }

  // In any run, a put of a new key that meets a fully OCCUPIED table adds two or three full searches to the counter.
  lemma FullTablePutsCost(ws: seq<World>, steps: seq<Step>, k: nat)
    requires IsRun(ws, steps) && k < |steps| && steps[k].Act? && ws[k].counters[steps[k].p].Writing?
    requires var op := ws[k].counters[steps[k].p].op;
             op.Put? && op.key !in View(ws[k].cache.slots)
    requires forall j | 0 <= j < |ws[k].cache.slots| :: Occupied(ws[k].cache.slots, j)
    ensures ws[k + 1].cache.collisions == ws[k].cache.collisions +
              (if SomeExpired(View(ws[k].cache.slots), steps[k].t0) then 2 else 3) * (|ws[0].cache.slots| - 1)
  {
    var key := ws[k].counters[steps[k].p].op.key;
    RunIsSafe(ws, steps, k);
    ViewHas(ws[k].cache.slots, key);
    PutIntoFullTableCost(ws[k].cache, key, steps[k].t0);
    WritingCosts(ws, steps, k);
  }
}
