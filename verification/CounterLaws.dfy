/** The documented telemetry over whole runs: exactly when the collision counter covers every search, and exactly when
    every get is counted. */
module CounterLaws {
  import opened CStrings
  import opened Table
  import opened TtlMap
  import opened CacheSpec
  import opened Refinement
  import opened Processes
  import opened RunSafety
  import opened Linearizability
  import opened Telemetry
  import Hash

  // ---- One call ----

  // A search for key ends at the first slot it inspects.
  predicate EndsAtStart(t: Slots, key: CString)
    requires |t| > 0
  {
    |t| == 1 || Stops(t, key, Hash.Start(key, |t|))
  }

  // A search has no collisions exactly when it ends where it starts.
  lemma NoCollisionsIff(t: Slots, key: CString)
    requires |t| > 0
    ensures Collisions(t, key) == 0 <==> EndsAtStart(t, key)
  {
    assert Pos(Hash.Start(key, |t|), 0, |t|) == Hash.Start(key, |t|);
    assert ProbeEnd(t, key, 0) == 0 <==> Stops(t, key, Hash.Start(key, |t|));
  }

  // The extra slots that the one or two searches of a get inspect when nothing is interleaved.
  function GetInspects(c: Cache, key: CString, read: bool, now: nat, write: bool): nat
    requires |c.slots| > 0
  {
    (if read then Collisions(c.slots, key) else 0) +
    (if read && write && ReadLocked(c.slots, key, now) == SeenExpired then Collisions(c.slots, key) else 0)
  }

  // A get with nothing interleaved counts all extra slots it inspects, except when it searches uncounted and further
  // than one slot: it was refused the second lock, or saw its entry expired.
  lemma GetCountsAllIff(c: Cache, key: CString, read: bool, now1: nat, write: bool, now2: nat)
    requires CacheInv(c)
    ensures GetAlone(c, key, read, now1, write, now2).1.collisions ==
              c.collisions + GetInspects(c, key, read, now1, write)
            <==> !read || (write && ReadLocked(c.slots, key, now1) != SeenExpired) || EndsAtStart(c.slots, key)
  {
    NoCollisionsIff(c.slots, key);
    PurgeRefines(c, key, Collisions(c.slots, key), now2);
  }

  // For a get that finds its entry expired: if and only if the entry is in the slot the search starts from.
  lemma ExpiredGetCountsAllIffAtStart(c: Cache, key: CString, now1: nat, write: bool, now2: nat)
    requires CacheInv(c) && ReadLocked(c.slots, key, now1) == SeenExpired
    ensures GetAlone(c, key, true, now1, write, now2).1.collisions ==
              c.collisions + GetInspects(c, key, true, now1, write)
            <==> Find(c.slots, key) == Hash.Start(key, |c.slots|)
  {
    GetCountsAllIff(c, key, true, now1, write, now2);
    EarlyExitAgreesWithScan(c.slots, key, ProbeEnd(c.slots, key, 0));
  }

  // A get is counted, once, if and only if both its lock calls are granted.
  lemma GetCountedIffGranted(c: Cache, key: CString, read: bool, now1: nat, write: bool, now2: nat)
    requires CacheInv(c)
    ensures var c' := GetAlone(c, key, read, now1, write, now2).1;
            c'.hits + c'.misses == c.hits + c.misses + if read && write then 1 else 0
  {
    PurgeRefines(c, key, Collisions(c.slots, key), now2);
  }

  // It is a hit if the key is live when it reads, and otherwise a miss.
  lemma GetMovesItsCounter(c: Cache, key: CString, read: bool, now1: nat, write: bool, now2: nat)
    requires CacheInv(c)
    ensures var (seen, c'), m := GetAlone(c, key, read, now1, write, now2), View(c.slots);
            var live := key in Live(m, now1);
            && (seen.SeenLive? <==> read && live)
            && (read && live ==> seen == SeenLive(m[key].value, m[key].timestamp))
            && (seen.SeenExpired? <==> read && key in m && !live)
            && c'.hits == c.hits + (if read && write && live then 1 else 0)
            && c'.misses == c.misses + (if read && write && !live then 1 else 0)
  {
    ViewHas(c.slots, key);
    PurgeRefines(c, key, Collisions(c.slots, key), now2);
  }

  // ---- Collisions over runs ----

  // The extra slots a step inspects; the sections under the exclusive lock search within one step.
  function Inspects(w: World, s: Step): nat
    requires Enabled(w, s)
  {
    match s
    case Probe(p) => if 0 < w.counters[p].i < |w.cache.slots| then 1 else 0
    case Act(p, t0, t1) =>
      (match w.counters[p]
       case Writing(id, op) => WriteEvent(w.cache, id, op, t0, t1).cost
       case Purging(_, key, _) => Collisions(w.cache.slots, key)
       case _ => 0)
    case _ => 0
  }

  // Of the extra slots inspected in or before a step, those that no counter will show from then on: the search of a
  // purge, and what a get brings along that is refused its second lock.
  function Drops(w: World, s: Step): nat
    requires Enabled(w, s)
  {
    match s
    case Act(p, _, _) => if w.counters[p].Purging? then Collisions(w.cache.slots, w.counters[p].key) else 0
    case LockRefused(p) => AwaitsCost(w.counters[p])
    case _ => 0
  }

  // The extra slots a get has inspected and not counted so far.
  function Carries(pc: Counter): nat {
    if pc.Probing? then (if pc.i == 0 then 0 else pc.i - 1) else AwaitsCost(pc)
  }

  ghost function Inspected(ws: seq<World>, steps: seq<Step>, n: nat): nat
    requires IsRun(ws, steps) && n <= |steps|
  {
    if n == 0 then 0 else Inspected(ws, steps, n - 1) + Inspects(ws[n - 1], steps[n - 1])
  }

  ghost function Dropped(ws: seq<World>, steps: seq<Step>, n: nat): nat
    requires IsRun(ws, steps) && n <= |steps|
  {
    if n == 0 then 0 else Dropped(ws, steps, n - 1) + Drops(ws[n - 1], steps[n - 1])
  }

  // What a step of p inspects ends up in the counter, with p, or nowhere.
  predicate AccountsFor(w: World, w': World, p: nat, inspects: nat, drops: nat) {
    && p < |w.counters| && |w'.counters| == |w.counters| && w'.counters == w.counters[p := w'.counters[p]]
    && w.cache.collisions + Carries(w.counters[p]) + inspects == w'.cache.collisions + Carries(w'.counters[p]) + drops
  }

  lemma ProbeAccounts(w: World, p: nat)
    requires SafeInv(w) && Enabled(w, Probe(p))
    ensures AccountsFor(w, ProbeStep(w, p), p, Inspects(w, Probe(p)), 0)
  {
    assert ProbeSound(w.cache.slots, w.counters[p]);
  }

  lemma WritingAccounts(w: World, p: nat, t0: nat, t1: nat)
    requires Enabled(w, Act(p, t0, t1)) && w.counters[p].Writing?
    ensures AccountsFor(w, ActStep(w, p, t0, t1), p, Inspects(w, Act(p, t0, t1)), 0)
  {
    WriteEffectCounts(w.cache, w.counters[p].id, w.counters[p].op, t0, t1);
  }

  lemma ReadingAccounts(w: World, p: nat, t0: nat, t1: nat)
    requires Enabled(w, Act(p, t0, t1)) && !w.counters[p].Writing?
    ensures AccountsFor(w, ActStep(w, p, t0, t1), p, Inspects(w, Act(p, t0, t1)), Drops(w, Act(p, t0, t1)))
  {
  }

  lemma GrantAccounts(w: World, p: nat)
    requires Enabled(w, LockGranted(p))
    ensures AccountsFor(w, GrantStep(w, p), p, 0, 0)
  {
  }

  lemma RefuseAccounts(w: World, p: nat)
    requires Enabled(w, LockRefused(p))
    ensures AccountsFor(w, RefuseStep(w, p), p, 0, Drops(w, LockRefused(p)))
  {
  }

  lemma UnlockAccounts(w: World, p: nat)
    requires Enabled(w, Unlock(p))
    ensures AccountsFor(w, UnlockStep(w, p), p, 0, 0)
  {
  }

  lemma CallBoundaryAccounts(w: World, s: Step)
    requires Enabled(w, s) && (s.Invoke? || s.Return?)
    ensures AccountsFor(w, Next(w, s), s.p, 0, 0)
  {
  }

  lemma StepAccounts(w: World, s: Step)
    requires SafeInv(w) && Enabled(w, s) && !s.Tick?
    ensures AccountsFor(w, Next(w, s), s.p, Inspects(w, s), Drops(w, s))
  {
    match s
    case Probe(p) => ProbeAccounts(w, p);
    case Act(p, t0, t1) =>
      if w.counters[p].Writing? {
        WritingAccounts(w, p, t0, t1);
      } else {
        ReadingAccounts(w, p, t0, t1);
      }
    case LockGranted(p) => GrantAccounts(w, p);
    case LockRefused(p) => RefuseAccounts(w, p);
    case Unlock(p) => UnlockAccounts(w, p);
    case _ => CallBoundaryAccounts(w, s);
  }

  ghost predicate CollisionsInv(w: World, inspected: nat, dropped: nat) {
    inspected == w.cache.collisions + dropped + Sum(Carries, w.counters)
  }

  lemma CollisionsStep(w: World, s: Step, inspected: nat, dropped: nat)
    requires SafeInv(w) && Enabled(w, s) && CollisionsInv(w, inspected, dropped)
    ensures CollisionsInv(Next(w, s), inspected + Inspects(w, s), dropped + Drops(w, s))
  {
    if !s.Tick? {
      StepAccounts(w, s);
      SumMove(Carries, w.counters, s.p, Next(w, s).counters[s.p]);
    }
  }

  /** In every reachable state the extra slots inspected so far are those counted, those dropped, and those that gets
      under way carry with them. */
  lemma {:induction false} RunAccountsForCollisions(ws: seq<World>, steps: seq<Step>, n: nat)
    requires IsRun(ws, steps) && n < |ws|
    ensures CollisionsInv(ws[n], Inspected(ws, steps, n), Dropped(ws, steps, n))
  {
    if n == 0 {
      SumZero(Carries, ws[0].counters);
    } else {
      RunAccountsForCollisions(ws, steps, n - 1);
      RunIsSafe(ws, steps, n - 1);
      CollisionsStep(ws[n - 1], steps[n - 1], Inspected(ws, steps, n - 1), Dropped(ws, steps, n - 1));
    }
  }

  // A purge meets a table in which its search ends at the first slot; a refused get has no collisions to report.
  predicate LosesNothing(w: World, s: Step)
    requires Enabled(w, s)
  {
    && (s.Act? && w.counters[s.p].Purging? ==> EndsAtStart(w.cache.slots, w.counters[s.p].key))
    && (s.LockRefused? && AwaitsCounting(w.counters[s.p]) ==> w.counters[s.p].collisions == 0)
  }

  lemma DropsNothingIff(w: World, s: Step)
    requires Enabled(w, s)
    ensures Drops(w, s) == 0 <==> LosesNothing(w, s)
  {
    if s.Act? && w.counters[s.p].Purging? {
      NoCollisionsIff(w.cache.slots, w.counters[s.p].key);
    }
  }

  lemma {:induction false} DroppedNothingIff(ws: seq<World>, steps: seq<Step>, n: nat)
    requires IsRun(ws, steps) && n <= |steps|
    ensures Dropped(ws, steps, n) == 0 <==> forall i | 0 <= i < n :: LosesNothing(ws[i], steps[i])
  {
    if n == 0 {
    } else {
      DroppedNothingIff(ws, steps, n - 1);
      DropsNothingIff(ws[n - 1], steps[n - 1]);
    }
  }

  /** README.md says that the counter counts each extra slot inspected by the searches of cache operations. Whenever no
      get is under way, that is so if and only if every purge so far met a table in which its search ended at its first
      slot, and no get with collisions to report was refused the lock it needed for that. */
  lemma CollisionsExactIff(ws: seq<World>, steps: seq<Step>, n: nat)
    requires IsRun(ws, steps) && n < |ws|
    requires forall p | 0 <= p < |ws[n].counters| :: !ws[n].counters[p].Probing? && !AwaitsCounting(ws[n].counters[p])
    ensures ws[n].cache.collisions == Inspected(ws, steps, n) <==>
            forall i | 0 <= i < n :: LosesNothing(ws[i], steps[i])
  {
    RunAccountsForCollisions(ws, steps, n);
    SumZero(Carries, ws[n].counters);
    DroppedNothingIff(ws, steps, n);
  }

  // What a purge step of a run inspects and does not count: its whole search, so nothing if and only if that search
  // ends at its first slot, in the table that the purge meets.
  lemma PurgeDropsItsSearch(ws: seq<World>, steps: seq<Step>, i: nat)
    requires IsRun(ws, steps) && i < |steps| && steps[i].Act? && ws[i].counters[steps[i].p].Purging?
    ensures var pc, t := ws[i].counters[steps[i].p], ws[i].cache.slots;
            && Inspects(ws[i], steps[i]) == Collisions(t, pc.key)
            && ws[i + 1].cache.collisions == ws[i].cache.collisions + pc.collisions
            && (Inspects(ws[i], steps[i]) == 0 <==> EndsAtStart(t, pc.key))
  {
    NoCollisionsIff(ws[i].cache.slots, ws[i].counters[steps[i].p].key);
  }

  // In w, step s of process p ends the read phase of call id with the given collisions.
  predicate ReadIn(w: World, s: Step, p: nat, id: CallId, collisions: nat) {
    && s == Probe(p) && p < |w.counters| && w.counters[p].Probing? && w.counters[p].id == id
    && 0 < |w.cache.slots| && collisions == Collisions(w.cache.slots, w.counters[p].key)
  }

  predicate SameReport(pc: Counter, pc': Counter) {
    AwaitsCounting(pc') ==> AwaitsCounting(pc) && pc.id == pc'.id && pc.collisions == pc'.collisions
  }

  lemma QuietStepKeepsReport(w: World, s: Step)
    requires Enabled(w, s) && !s.Tick? && !s.Probe?
    ensures s.p < |Next(w, s).counters| && SameReport(w.counters[s.p], Next(w, s).counters[s.p])
  {
  }

  lemma DecidingReports(w: World, p: nat)
    requires SafeInv(w) && Enabled(w, Probe(p)) && AwaitsCounting(ProbeStep(w, p).counters[p])
    ensures var pc' := ProbeStep(w, p).counters[p];
            ReadIn(w, Probe(p), p, pc'.id, pc'.collisions)
  {
    var pc := w.counters[p];
    assert ProbeSound(w.cache.slots, pc);
    InspectDecides(w.cache.slots, pc.key, pc.i, w.clock);
  }

  lemma StepKeepsReport(w: World, s: Step, w': World, p: nat)
    requires SafeInv(w) && Enabled(w, s) && w' == Next(w, s) && p < |w.counters| == |w'.counters|
    requires AwaitsCounting(w'.counters[p])
    ensures ReadIn(w, s, p, w'.counters[p].id, w'.counters[p].collisions) || SameReport(w.counters[p], w'.counters[p])
  {
    if !s.Tick? {
      StepAccounts(w, s);
      if s == Probe(p) {
        DecidingReports(w, p);
      } else if s.p == p {
        QuietStepKeepsReport(w, s);
      }
    }
  }

  lemma StepKeepsProcesses(w: World, s: Step)
    requires Enabled(w, s)
    ensures |Next(w, s).counters| == |w.counters|
  {
  }

  // Every get that has yet to be counted has read, in some earlier step, with the collisions it is going to report.
  lemma {:induction false} ReadBefore(ws: seq<World>, steps: seq<Step>, i: nat, p: nat)
    requires IsRun(ws, steps) && i < |ws| && p < |ws[i].counters| && AwaitsCounting(ws[i].counters[p])
    ensures exists j | 0 <= j < i :: ReadIn(ws[j], steps[j], p, ws[i].counters[p].id, ws[i].counters[p].collisions)
  {
    if i == 0 {
    } else {
      RunIsSafe(ws, steps, i - 1);
      StepKeepsProcesses(ws[i - 1], steps[i - 1]);
      StepKeepsReport(ws[i - 1], steps[i - 1], ws[i], p);
      if !ReadIn(ws[i - 1], steps[i - 1], p, ws[i].counters[p].id, ws[i].counters[p].collisions) {
        ReadBefore(ws, steps, i - 1, p);
      }
    }
  }

  // A get that is refused the lock it needs to be counted loses its whole search; nothing if and only if that ended at
  // its first slot, in the table the get has read.
  lemma RefusedGetDropsItsSearch(ws: seq<World>, steps: seq<Step>, i: nat) returns (j: nat)
    requires IsRun(ws, steps) && i < |steps| && steps[i].LockRefused? && AwaitsCounting(ws[i].counters[steps[i].p])
    ensures var p, pc := steps[i].p, ws[i].counters[steps[i].p];
            && j < i && ReadIn(ws[j], steps[j], p, pc.id, pc.collisions)
            && ws[i + 1].cache == ws[i].cache
            && (Drops(ws[i], steps[i]) == 0 <==> EndsAtStart(ws[j].cache.slots, ws[j].counters[p].key))
  {
    var p, pc := steps[i].p, ws[i].counters[steps[i].p];
    ReadBefore(ws, steps, i, p);
    j :| 0 <= j < i && ReadIn(ws[j], steps[j], p, pc.id, pc.collisions);
    NoCollisionsIff(ws[j].cache.slots, ws[j].counters[p].key);
  }

  // ---- Instances: "a" and "c" start from slot 0 of two ----

  lemma StartOfSingle(ch: NonNul)
    ensures Hash.Start([ch], 2) == Hash.Wrap(33 * Hash.SEED + ch) % 2
  {
    assert Hash.Pow33(0) == 1 && Hash.Pow33(1) == 33 * Hash.Pow33(0);
    assert [ch][1..] == [];
    assert Hash.WeightedSum([ch]) == ch * Hash.Pow33(0) + Hash.WeightedSum([]) == ch;
  }

  const A := Entry(OCCUPIED, [97], [], 0, 1)
  const C := Entry(OCCUPIED, [99], [], 0, 0)

  // The empty cache of two slots after a put of first and then of second.
  function AfterPuts(first: Entry, second: Entry): Cache {
    var c := PutLocked(Cache([EMPTY_ENTRY, EMPTY_ENTRY], 0, 0, 0, 0), first.key, first.value, first.ttl, 0, 0).1;
    PutLocked(c, second.key, second.value, second.ttl, 0, 0).1
  }

  lemma FirstPut(e: Entry)
    requires e.state == OCCUPIED && e.timestamp == 0 && Hash.Start(e.key, 2) == 0
    ensures PutLocked(Cache([EMPTY_ENTRY, EMPTY_ENTRY], 0, 0, 0, 0), e.key, e.value, e.ttl, 0, 0) ==
            (true, Cache([e, EMPTY_ENTRY], 1, 0, 0, 0))
  {
    var t := [EMPTY_ENTRY, EMPTY_ENTRY];
    assert FirstFree(t, 0, 0) == 0 && ProbeEnd(t, e.key, 0) == 0;
    assert Store(t, 0, e.key, e.value, 0, e.ttl) == [e, EMPTY_ENTRY];
  }

  lemma SecondPut(first: Entry, e: Entry)
    requires first.state == e.state == OCCUPIED && e.timestamp == 0 && first.key != e.key && Hash.Start(e.key, 2) == 0
    ensures PutLocked(Cache([first, EMPTY_ENTRY], 1, 0, 0, 0), e.key, e.value, e.ttl, 0, 0) ==
            (true, Cache([first, e], 2, 0, 0, 1))
  {
    var t := [first, EMPTY_ENTRY];
    assert FirstFree(t, 0, 0) == FirstFree(t, 0, 1) == 1;
    assert ProbeEnd(t, e.key, 0) == ProbeEnd(t, e.key, 1) == 1;
    assert Store(t, 1, e.key, e.value, 0, e.ttl) == [first, e];
  }

  lemma PutsFillInOrder(first: Entry, second: Entry)
    requires (first == A && second == C) || (first == C && second == A)
    ensures AfterPuts(first, second) == Cache([first, second], 2, 0, 0, 1)
  {
    StartOfSingle(97);
    StartOfSingle(99);
    FirstPut(first);
    SecondPut(first, second);
  }

  // A search that starts from slot 0 of two used slots.
  lemma SearchTwo(first: Entry, second: Entry, key: CString)
    requires first.state != EMPTY && second.state != EMPTY && Hash.Start(key, 2) == 0
    ensures var t, held := [first, second], first.state == OCCUPIED && first.key == key;
            && Collisions(t, key) == (if held then 0 else 1)
            && Find(t, key) == (if held then 0 else if second.state == OCCUPIED && second.key == key then 1 else -1)
  {
    var t := [first, second];
    assert FindFrom(t, key, 1) == if Holds(t, 1, key) then 1 else -1;
    assert ProbeEnd(t, key, 1) == if Stops(t, key, 1) then 1 else 2;
  }

  lemma ExpiredInSecondSlot(c: Cache)
    requires c == Cache([C, A], 2, 0, 0, 1)
    ensures ReadLocked(c.slots, [97], 1) == SeenExpired && Collisions(c.slots, [97]) == 1
  {
    StartOfSingle(97);
    SearchTwo(C, A, [97]);
  }

  // With "c" in slot 0 and the expired "a" in slot 1, a get of "a" inspects one extra slot twice and counts one.
  lemma ExpiredGetUndercountsExample() returns (c: Cache)
    ensures c == AfterPuts(C, A)
    ensures ReadLocked(c.slots, [97], 1) == SeenExpired
    ensures GetInspects(c, [97], true, 1, true) == 2
    ensures GetAlone(c, [97], true, 1, true, 1).1.collisions == c.collisions + 1
  {
    c := AfterPuts(C, A);
    PutsFillInOrder(C, A);
    ExpiredInSecondSlot(c);
  }

  lemma ExpiredInFirstSlot(c: Cache)
    requires c == Cache([A, C], 2, 0, 0, 1)
    ensures ReadLocked(c.slots, [97], 1) == SeenExpired && Collisions(c.slots, [97]) == 0
    ensures DeleteLocked(c, [97]) == (true, Cache([TOMBSTONE, C], 1, 0, 0, 1))
  {
    StartOfSingle(97);
    SearchTwo(A, C, [97]);
    assert [A, C][0 := TOMBSTONE] == [TOMBSTONE, C];
  }

  // With the expired "a" in its start slot 0 and "c" in slot 1, a get of "a" reads without collisions; once another
  // process has deleted "a", its purge inspects an extra slot, which is not counted.
  lemma InterleavedGetUndercountsExample() returns (c: Cache, deleted: Cache)
    ensures c == AfterPuts(A, C) && deleted == DeleteLocked(c, [97]).1
    ensures ReadLocked(c.slots, [97], 1) == SeenExpired && Collisions(c.slots, [97]) == 0
    ensures Collisions(deleted.slots, [97]) == 1
    ensures PurgeLocked(deleted, [97], 0, 1).collisions == deleted.collisions == c.collisions
  {
    c := AfterPuts(A, C);
    PutsFillInOrder(A, C);
    ExpiredInFirstSlot(c);
    deleted := DeleteLocked(c, [97]).1;
    StartOfSingle(97);
    SearchTwo(TOMBSTONE, C, [97]);
  }

  // ---- Gets over runs ----

  // A get under way that has not been counted.
  function Uncounted(pc: Counter): nat {
    if (pc.Wanting? && pc.op.Get?) || pc.Probing? || AwaitsCounting(pc) then 1 else 0
  }

  predicate RefusesGet(w: World, s: Step) {
    s.LockRefused? && s.p < |w.counters| && Uncounted(w.counters[s.p]) == 1
  }

  // The gets among the calls made so far.
  function GetCalls(calls: seq<CallRecord>): nat {
    if calls == [] then 0 else GetCalls(calls[..|calls| - 1]) + if calls[|calls| - 1].op.Get? then 1 else 0
  }

  function RefusedGets(ws: seq<World>, steps: seq<Step>, n: nat): nat
    requires n < |ws| && n <= |steps|
  {
    if n == 0 then 0 else RefusedGets(ws, steps, n - 1) + if RefusesGet(ws[n - 1], steps[n - 1]) then 1 else 0
  }

  lemma {:induction false} SameGetCalls(calls: seq<CallRecord>, calls': seq<CallRecord>)
    requires |calls| == |calls'| && forall id | 0 <= id < |calls| :: calls[id].op == calls'[id].op
    ensures GetCalls(calls) == GetCalls(calls')
  {
    if calls == [] {
    } else {
      SameGetCalls(calls[..|calls| - 1], calls'[..|calls| - 1]);
    }
  }

  // How a step of p that does not make a call changes the number of gets counted and of gets under way.
  predicate CountsGet(w: World, w': World, p: nat, refused: nat) {
    && p < |w.counters| && |w'.counters| == |w.counters| && w'.counters == w.counters[p := w'.counters[p]]
    && (|w'.calls| == |w.calls| && forall id | 0 <= id < |w.calls| :: w'.calls[id].op == w.calls[id].op)
    && w'.cache.hits + w'.cache.misses + Uncounted(w'.counters[p]) + refused ==
         w.cache.hits + w.cache.misses + Uncounted(w.counters[p])
  }

  lemma WritingCountsNoGet(w: World, p: nat, t0: nat, t1: nat)
    requires Enabled(w, Act(p, t0, t1)) && w.counters[p].Writing?
    ensures CountsGet(w, ActStep(w, p, t0, t1), p, 0)
  {
    WriteEffectCounts(w.cache, w.counters[p].id, w.counters[p].op, t0, t1);
  }

  lemma CountingCountsGet(w: World, p: nat, t0: nat, t1: nat)
    requires Enabled(w, Act(p, t0, t1)) && !w.counters[p].Writing?
    ensures CountsGet(w, ActStep(w, p, t0, t1), p, 0)
  {
  }

  lemma ProbeCountsGet(w: World, p: nat)
    requires Enabled(w, Probe(p))
    ensures CountsGet(w, ProbeStep(w, p), p, 0)
  {
  }

  lemma LockStepCountsGet(w: World, p: nat)
    requires p < |w.counters|
    ensures Enabled(w, LockGranted(p)) ==> CountsGet(w, GrantStep(w, p), p, 0)
    ensures Enabled(w, LockRefused(p)) ==>
              CountsGet(w, RefuseStep(w, p), p, if RefusesGet(w, LockRefused(p)) then 1 else 0)
    ensures Enabled(w, Unlock(p)) ==> CountsGet(w, UnlockStep(w, p), p, 0)
  {
  }

  lemma StepCountsGet(w: World, s: Step)
    requires Enabled(w, s) && !s.Tick? && !s.Invoke?
    ensures CountsGet(w, Next(w, s), s.p, if RefusesGet(w, s) then 1 else 0)
  {
    match s
    case Probe(p) => ProbeCountsGet(w, p);
    case Act(p, t0, t1) =>
      if w.counters[p].Writing? {
        WritingCountsNoGet(w, p, t0, t1);
      } else {
        CountingCountsGet(w, p, t0, t1);
      }
    case LockGranted(p) => LockStepCountsGet(w, p);
    case LockRefused(p) => LockStepCountsGet(w, p);
    case Unlock(p) => LockStepCountsGet(w, p);
    case Return(_) =>
  }

  ghost predicate GetsInv(w: World, refused: nat) {
    w.cache.hits + w.cache.misses + refused + Sum(Uncounted, w.counters) == GetCalls(w.calls)
  }

  lemma InvokedGetsStep(w: World, p: nat, op: Operation, refused: nat)
    requires GetsInv(w, refused) && p < |w.counters| && w.counters[p].Idle?
    ensures GetsInv(InvokeStep(w, p, op), refused)
  {
    var w' := InvokeStep(w, p, op);
    SumMove(Uncounted, w.counters, p, Wanting(|w.calls|, op));
    assert w'.calls[..|w.calls|] == w.calls;
  }

  lemma BalanceGets(w: World, w': World, p: nat, refused: nat, more: nat)
    requires GetsInv(w, refused) && CountsGet(w, w', p, more)
    ensures GetsInv(w', refused + more)
  {
    SumMove(Uncounted, w.counters, p, w'.counters[p]);
    SameGetCalls(w.calls, w'.calls);
  }

  lemma GetsStep(w: World, s: Step, refused: nat)
    requires Enabled(w, s) && GetsInv(w, refused)
    ensures GetsInv(Next(w, s), refused + if RefusesGet(w, s) then 1 else 0)
  {
    match s
    case Tick(_) =>
    case Invoke(p, op) => InvokedGetsStep(w, p, op, refused);
    case _ =>
      StepCountsGet(w, s);
      BalanceGets(w, Next(w, s), s.p, refused, if RefusesGet(w, s) then 1 else 0);
  }

  // Every get ever invoked has been counted once, has been refused a lock, or is under way.
  lemma {:induction false} RunAccountsForGets(ws: seq<World>, steps: seq<Step>, n: nat)
    requires IsRun(ws, steps) && n < |ws|
    ensures GetsInv(ws[n], RefusedGets(ws, steps, n))
  {
    if n == 0 {
      SumZero(Uncounted, ws[0].counters);
    } else {
      RunAccountsForGets(ws, steps, n - 1);
      GetsStep(ws[n - 1], steps[n - 1], RefusedGets(ws, steps, n - 1));
    }
  }

  lemma {:induction false} NoneRefusedIff(ws: seq<World>, steps: seq<Step>, n: nat)
    requires n < |ws| && n <= |steps|
    ensures RefusedGets(ws, steps, n) == 0 <==> forall i | 0 <= i < n :: !RefusesGet(ws[i], steps[i])
  {
    if n == 0 {
    } else {
      NoneRefusedIff(ws, steps, n - 1);
    }
  }

  /** README.md says that every valid get is counted once as a hit or a miss. When all gets made so far have returned,
      that is so if and only if none of them was refused a lock, whether the one it reads under or the one it is counted
      under. */
  lemma GetsCountedExactIff(ws: seq<World>, steps: seq<Step>, n: nat)
    requires IsRun(ws, steps) && n < |ws|
    requires forall id | 0 <= id < |ws[n].calls| && ws[n].calls[id].op.Get? :: ws[n].calls[id].returned.Some?
    ensures ws[n].cache.hits + ws[n].cache.misses == GetCalls(ws[n].calls) <==>
            forall i | 0 <= i < n :: !RefusesGet(ws[i], steps[i])
  {
    RunAccountsForGets(ws, steps, n);
    RunKeepsCalls(ws, steps, n);
    forall p | 0 <= p < |ws[n].counters| ensures Uncounted(ws[n].counters[p]) == 0 {
      assert ActiveSound(ws[n], p);
    }
    SumZero(Uncounted, ws[n].counters);
    NoneRefusedIff(ws, steps, n);
  }

  // A run in which a get is refused its first lock: it returns, and no counter has moved.
  lemma RefusedGetExample(w: World, p: nat, key: CString) returns (ws: seq<World>)
    requires Initial(w) && p < |w.counters| && ValidKeyArgument(key)
    ensures |ws| == 4 && ws[0] == w && IsRun(ws, [Invoke(p, Get(key)), LockRefused(p), Return(p)])
    ensures GetCalls(ws[3].calls) == 1 && ws[3].calls[0].returned.Some?
    ensures ws[3].cache.hits + ws[3].cache.misses == 0
  {
    var w1 := InvokeStep(w, p, Get(key)).(now := w.now + 1);
    var w2 := RefuseStep(w1, p).(now := w.now + 2);
    var w3 := ReturnStep(w2, p).(now := w.now + 3);
    assert w1.counters[p] == Wanting(0, Get(key)) && w2.counters[p] == Returning(0, LockFailed);
    assert w1 == Next(w, Invoke(p, Get(key)));
    assert w2 == Next(w1, LockRefused(p)) && w3 == Next(w2, Return(p));
    ws := [w, w1, w2, w3];
    OneGetCall(w3.calls);
  }

  lemma OneGetCall(calls: seq<CallRecord>)
    requires |calls| == 1 && calls[0].op.Get?
    ensures GetCalls(calls) == 1
  {
    assert calls[..0] == [];
  }
}
