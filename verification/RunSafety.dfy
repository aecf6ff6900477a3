/** In every reachable state the table is sound, readers are never overtaken, and the log replays to the table. */
module RunSafety {
  import opened CStrings
  import opened Table
  import opened TtlMap
  import opened CacheSpec
  import opened Refinement
  import opened History
  import opened Processes
  import opened LockSafety
  import Hash

  // No slot inspected so far by a probing process would stop it now.
  ghost predicate ProbeSound(t: Slots, pc: Counter) {
    pc.Probing? ==>
      && 0 < |t| && pc.i <= |t|
      && forall d | 0 <= d < pc.i :: !Stops(t, pc.key, Pos(Hash.Start(pc.key, |t|), d, |t|))
  }

  predicate ArgumentsValid(pc: Counter) {
    && (pc.Wanting? || pc.Writing? ==> ValidOperation(pc.op))
    && (pc.Writing? ==> !pc.op.Get?)
  }

  ghost predicate TableInv(w: World) {
    && CacheInv(w.cache)
    && forall p | 0 <= p < |w.counters| :: ProbeSound(w.cache.slots, w.counters[p]) && ArgumentsValid(w.counters[p])
  }

  ghost predicate LogInv(w: World) {
    && Legal(|w.cache.slots|, w.log)
    && Replay(|w.cache.slots|, w.log) == View(w.cache.slots)
    && EndTime(w.log) <= w.clock
  }

  ghost predicate SafeInv(w: World) {
    LockInv(w) && TableInv(w) && LogInv(w)
  }

  ghost predicate Keeps(w: World, w': World) {
    TableInv(w') && LogInv(w') && |w'.cache.slots| == |w.cache.slots|
  }

  lemma NowIsHistory(w: World, w': World, now: nat)
    requires Keeps(w, w')
    ensures Keeps(w, w'.(now := now))
  {
  }

  // w' extends w's log by e, whose effect on the table is that on the TTL map.
  ghost predicate Logs(w: World, w': World, e: Event) {
    && w'.log == w.log + [e]
    && CacheInv(w'.cache) && |w'.cache.slots| == |w.cache.slots|
    && Allowed(|w.cache.slots|, View(w.cache.slots), e)
    && View(w'.cache.slots) == After(|w.cache.slots|, View(w.cache.slots), e)
    && w.clock <= StartTime(e) && EndTime([e]) <= w'.clock
  }

  lemma LogsKeeps(w: World, w': World, e: Event)
    requires SafeInv(w) && Logs(w, w', e)
    ensures LogInv(w')
  {
    Extend(|w.cache.slots|, w.log, e);
    assert EndTime(w'.log) == EndTime([e]);
  }

  // A write-locked step meets no reader, so only its own program counter matters.
  lemma NoReaderDisturbed(w: World, p: nat, w': World)
    requires SafeInv(w) && p < |w.counters| && HoldsWrite(w.counters[p]) == 1
    requires CacheInv(w'.cache) && |w'.counters| == |w.counters|
    requires w'.counters == w.counters[p := w'.counters[p]] && w'.counters[p].Leaving?
    ensures TableInv(w')
  {
    forall q | 0 <= q < |w'.counters|
      ensures ProbeSound(w'.cache.slots, w'.counters[q]) && ArgumentsValid(w'.counters[q])
    {
      if q != p {
        WriterIsAlone(w, p, q);
      }
    }
  }

  lemma MoveKeepsTable(w: World, w': World, p: nat)
    requires TableInv(w) && p < |w.counters| && w'.cache == w.cache
    requires |w'.counters| == |w.counters| && w'.counters == w.counters[p := w'.counters[p]]
    requires ProbeSound(w.cache.slots, w'.counters[p]) && ArgumentsValid(w'.counters[p])
    ensures TableInv(w')
  {
  }

  lemma WriteEffectRefines(c: Cache, id: CallId, op: Operation, t0: nat, t1: nat)
    requires CacheInv(c) && ValidOperation(op) && !op.Get? && t0 <= t1
    ensures Refines(c, WriteEffect(c, op, t0, t1).1, WriteEvent(c, id, op, t0, t1))
  {
    match op
    case Put(key, value, ttl) => PutRefines(c, key, value, ttl, t0, t1, id);
    case Update(key, value) => UpdateRefines(c, key, value, t0, t1, id);
    case Delete(key) => DeleteRefines(c, key, t0, t1, id);
  }

  lemma WriteStepLogs(w: World, p: nat, t0: nat, t1: nat)
    requires SafeInv(w) && p < |w.counters| && w.counters[p].Writing? && w.clock <= t0 <= t1
    ensures var w' := WriteStep(w, p, w.counters[p].id, w.counters[p].op, t0, t1);
            w'.log != [] && Logs(w, w', w'.log[|w.log|])
  {
    assert ArgumentsValid(w.counters[p]);
    WriteEffectRefines(w.cache, w.counters[p].id, w.counters[p].op, t0, t1);
  }

  lemma WritingKeeps(w: World, p: nat, t0: nat, t1: nat)
    requires SafeInv(w) && Enabled(w, Act(p, t0, t1)) && w.counters[p].Writing?
    ensures Keeps(w, ActStep(w, p, t0, t1))
  {
    var w' := ActStep(w, p, t0, t1);
    WriteStepLogs(w, p, t0, t1);
    NoReaderDisturbed(w, p, w');
    LogsKeeps(w, w', w'.log[|w.log|]);
  }

  lemma PurgingKeeps(w: World, p: nat, t0: nat, t1: nat)
    requires SafeInv(w) && Enabled(w, Act(p, t0, t1)) && w.counters[p].Purging?
    ensures Keeps(w, ActStep(w, p, t0, t1))
  {
    var w', key := ActStep(w, p, t0, t1), w.counters[p].key;
    PurgeRefines(w.cache, key, w.counters[p].collisions, t1);
    ViewHas(w.cache.slots, key);
    NoReaderDisturbed(w, p, w');
    if w'.log != w.log {
      LogsKeeps(w, w', Purged(key, t1));
    }
  }

  lemma CountingKeeps(w: World, p: nat, t0: nat, t1: nat)
    requires SafeInv(w) && Enabled(w, Act(p, t0, t1)) && w.counters[p].Counting?
    ensures Keeps(w, ActStep(w, p, t0, t1))
  {
    NoReaderDisturbed(w, p, ActStep(w, p, t0, t1));
  }

  lemma ActKeeps(w: World, p: nat, t0: nat, t1: nat)
    requires SafeInv(w) && Enabled(w, Act(p, t0, t1))
    ensures Keeps(w, ActStep(w, p, t0, t1))
  {
    match w.counters[p]
    case Counting(_, _, _) => CountingKeeps(w, p, t0, t1);
    case Purging(_, _, _) => PurgingKeeps(w, p, t0, t1);
    case Writing(_, _) => WritingKeeps(w, p, t0, t1);
  }

  // A turn of the loop that decides has seen what the whole table holds.
  lemma InspectDecides(t: Slots, key: CString, i: nat, now: nat)
    requires Inv(t) && i <= |t|
    requires forall d | 0 <= d < i :: !Stops(t, key, Pos(Hash.Start(key, |t|), d, |t|))
    ensures match Inspect(t, key, i, now)
            case None => i < |t| && !Stops(t, key, Pos(Hash.Start(key, |t|), i, |t|))
            case Some(decision) => decision == (ReadLocked(t, key, now), Collisions(t, key))
  {
    if i == |t| || Stops(t, key, Pos(Hash.Start(key, |t|), i, |t|)) {
      EarlyExitAgreesWithScan(t, key, i);
    }
  }

  lemma DecideKeeps(w: World, p: nat, id: CallId, key: CString)
    requires SafeInv(w) && p < |w.counters|
    ensures Keeps(w, Decide(w, p, id, key, ReadLocked(w.cache.slots, key, w.clock), Collisions(w.cache.slots, key)))
  {
    var t := w.cache.slots;
    var w' := Decide(w, p, id, key, ReadLocked(t, key, w.clock), Collisions(t, key));
    ReadRefines(w.cache, key, w.clock, id);
    var result := GetResult(ReadLocked(t, key, w.clock));
    LogsKeeps(w, w', Call(id, Get(key), w.clock, w.clock, None, result, Collisions(t, key)));
    MoveKeepsTable(w, w', p);
  }

  lemma ProbeKeeps(w: World, p: nat)
    requires SafeInv(w) && Enabled(w, Probe(p))
    ensures Keeps(w, ProbeStep(w, p))
  {
    var Probing(id, key, i) := w.counters[p];
    assert ProbeSound(w.cache.slots, w.counters[p]);
    InspectDecides(w.cache.slots, key, i, w.clock);
    if Inspect(w.cache.slots, key, i, w.clock).None? {
      MoveKeepsTable(w, ProbeStep(w, p), p);
    } else {
      DecideKeeps(w, p, id, key);
    }
  }

  // What a step that neither probes nor acts does to the program counter of its process.
  predicate QuietMove(w: World, w': World, p: nat)
    requires p < |w.counters|
  {
    && |w'.counters| == |w.counters| && w'.counters == w.counters[p := w'.counters[p]]
    && (w'.counters[p].Probing? ==> w'.counters[p].i == 0)
    && ArgumentsValid(w'.counters[p])
    && w'.cache == w.cache && w'.log == w.log && w'.clock == w.clock
  }

  lemma QuietMoveKeeps(w: World, w': World, p: nat)
    requires SafeInv(w) && p < |w.counters| && QuietMove(w, w', p)
    ensures Keeps(w, w')
  {
    MoveKeepsTable(w, w', p);
  }

  lemma GrantIsQuiet(w: World, p: nat)
    requires Enabled(w, LockGranted(p)) && ArgumentsValid(w.counters[p])
    ensures QuietMove(w, GrantStep(w, p), p)
  {
  }

  lemma RefuseOrUnlockIsQuiet(w: World, p: nat)
    requires p < |w.counters| && ArgumentsValid(w.counters[p])
    ensures Enabled(w, LockRefused(p)) ==> QuietMove(w, RefuseStep(w, p), p)
    ensures Enabled(w, Unlock(p)) ==> QuietMove(w, UnlockStep(w, p), p)
  {
  }

  lemma CallBoundaryIsQuiet(w: World, s: Step)
    requires Enabled(w, s) && (s.Invoke? || s.Return?)
    ensures QuietMove(w, Next(w, s), s.p)
  {
  }

  lemma QuietKeeps(w: World, s: Step)
    requires SafeInv(w) && Enabled(w, s) && !s.Act? && !s.Probe?
    ensures Keeps(w, Next(w, s))
  {
    if !s.Tick? {
      assert ArgumentsValid(w.counters[s.p]);
      match s {
        case LockGranted(p) => GrantIsQuiet(w, p);
        case LockRefused(p) => RefuseOrUnlockIsQuiet(w, p);
        case Unlock(p) => RefuseOrUnlockIsQuiet(w, p);
        case _ => CallBoundaryIsQuiet(w, s);
      }
      QuietMoveKeeps(w, Next(w, s), s.p);
    }
  }

  lemma SafeInitial(w: World)
    requires Initial(w)
    ensures SafeInv(w)
  {
    LockInvInitial(w);
    assert OccupiedSet(w.cache.slots) == {};
    assert View(w.cache.slots) == map[];
  }

  lemma StepKeeps(w: World, s: Step)
    requires SafeInv(w) && Enabled(w, s)
    ensures Keeps(w, Next(w, s))
  {
    match s
    case Act(p, t0, t1) =>
      ActKeeps(w, p, t0, t1);
      NowIsHistory(w, ActStep(w, p, t0, t1), w.now + 1);
    case Probe(p) =>
      ProbeKeeps(w, p);
      NowIsHistory(w, ProbeStep(w, p), w.now + 1);
    case _ => QuietKeeps(w, s);
  }

  // Every step of every process keeps the joint invariant.
  lemma SafeStep(w: World, s: Step)
    requires SafeInv(w) && Enabled(w, s)
    ensures SafeInv(Next(w, s)) && |Next(w, s).cache.slots| == |w.cache.slots|
  {
    LockInvStep(w, s);
    StepKeeps(w, s);
  }

  lemma {:induction false} RunIsSafe(ws: seq<World>, steps: seq<Step>, i: nat)
    requires IsRun(ws, steps) && i < |ws|
    ensures SafeInv(ws[i]) && |ws[i].cache.slots| == |ws[0].cache.slots|
  {
    if i == 0 {
      SafeInitial(ws[0]);
    } else {
      RunIsSafe(ws, steps, i - 1);
      SafeStep(ws[i - 1], steps[i - 1]);
    }
  }
}
