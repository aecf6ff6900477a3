/** Runs built step by step: a call with nothing interleaved takes the effect of its sections, and so a reachable state
    in which the documented collision count is wrong. */
module Scenarios {
  import opened CStrings
  import opened Table
  import opened TtlMap
  import opened CacheSpec
  import opened Refinement
  import opened Processes
  import opened RunSafety
  import opened Traces
  import opened CounterLaws
  import RwLock

  // Some step of the run has lost collisions.
  ghost predicate Lossy(ws: seq<World>, steps: seq<Step>)
    requires IsRun(ws, steps)
  {
    exists i | 0 <= i < |steps| :: !LosesNothing(ws[i], steps[i])
  }

  // One more step.
  lemma Take(ws: seq<World>, steps: seq<Step>, s: Step) returns (ws': seq<World>, steps': seq<Step>)
    requires IsRun(ws, steps) && Enabled(ws[|steps|], s)
    ensures IsRun(ws', steps') && ws'[0] == ws[0] && ws'[|steps'|] == Next(ws[|steps|], s)
    ensures Lossy(ws, steps) || !LosesNothing(ws[|steps|], s) ==> Lossy(ws', steps')
  {
    var w' := Next(ws[|steps|], s);
    RunExtends(ws, steps, s, w');
    ws', steps' := ws + [w'], steps + [s];
    if Lossy(ws, steps) {
      var i :| 0 <= i < |steps| && !LosesNothing(ws[i], steps[i]);
      assert !LosesNothing(ws'[i], steps'[i]);
    } else if !LosesNothing(ws[|steps|], s) {
      assert !LosesNothing(ws'[|steps|], steps'[|steps|]);
    }
  }

  // p can make a call, and nobody holds the lock.
  predicate Quiet(w: World, p: nat) {
    p < |w.counters| && w.counters[p] == Idle && w.lock == RwLock.FREE && |w.cache.slots| > 0
  }

  // No call is made or returns, and the time goes on.
  predicate SameCalls(w: World, w': World) {
    && |w'.calls| == |w.calls|
    && forall id | 0 <= id < |w.calls| ::
         w'.calls[id].op == w.calls[id].op && w'.calls[id].process == w.calls[id].process
  }

  // One call of p is made and returns with the given answer; afterwards p is idle again and nobody holds the lock.
  predicate CallsOnce(w: World, w': World, p: nat, op: Operation, answer: Answer) {
    && |w'.calls| == |w.calls| + 1 && w'.calls[|w.calls|].op == op && w'.calls[|w.calls|].process == p
    && w'.calls[|w.calls|].returned.Some? && w'.calls[|w.calls|].answer == Some(answer)
    && w'.lock == w.lock && w'.counters == w.counters
  }

  // p is about to do something for its call, which it has made since w.
  predicate InCall(w: World, w': World, p: nat, op: Operation, pc: Counter) {
    && p < |w.counters| && w'.counters == w.counters[p := pc] && pc != Idle && pc.id == |w.calls|
    && |w'.calls| == |w.calls| + 1 && w'.calls[|w.calls|].op == op && w'.calls[|w.calls|].process == p
    && |w'.cache.slots| == |w.cache.slots| > 0
  }

  lemma MakeCall(ws: seq<World>, steps: seq<Step>, p: nat, op: Operation) returns (ws': seq<World>, steps': seq<Step>)
    requires IsRun(ws, steps) && Quiet(ws[|steps|], p) && ValidOperation(op)
    ensures IsRun(ws', steps') && ws'[0] == ws[0]
    ensures var w, w' := ws[|steps|], ws'[|steps'|];
            && InCall(w, w', p, op, Wanting(|w.calls|, op))
            && w'.cache == w.cache && w'.clock == w.clock && w'.lock == RwLock.FREE
  {
    ws', steps' := Take(ws, steps, Invoke(p, op));
  }

  lemma ReturnFrom(ws: seq<World>, steps: seq<Step>, w: World, p: nat, op: Operation, answer: Answer)
    returns (ws': seq<World>, steps': seq<Step>)
    requires IsRun(ws, steps) && InCall(w, ws[|steps|], p, op, Returning(|w.calls|, answer))
    requires w.lock == ws[|steps|].lock && w.counters[p] == Idle
    ensures IsRun(ws', steps') && ws'[0] == ws[0] && (Lossy(ws, steps) ==> Lossy(ws', steps'))
    ensures CallsOnce(w, ws'[|steps'|], p, op, answer)
    ensures ws'[|steps'|].cache == ws[|steps|].cache && ws'[|steps'|].clock == ws[|steps|].clock
  {
    ws', steps' := Take(ws, steps, Return(p));
    assert w.counters[p := Returning(|w.calls|, answer)][p := Idle] == w.counters;
  }

  // The last two steps of a call that holds the exclusive lock.
  lemma FinishCall(ws: seq<World>, steps: seq<Step>, w: World, p: nat, op: Operation, result: Result)
    returns (ws': seq<World>, steps': seq<Step>)
    requires IsRun(ws, steps) && InCall(w, ws[|steps|], p, op, Leaving(|w.calls|, result))
    requires ws[|steps|].lock == RwLock.Lock(0, true) && w.lock == RwLock.FREE && w.counters[p] == Idle
    ensures IsRun(ws', steps') && ws'[0] == ws[0] && (Lossy(ws, steps) ==> Lossy(ws', steps'))
    ensures CallsOnce(w, ws'[|steps'|], p, op, Answered(result))
    ensures ws'[|steps'|].cache == ws[|steps|].cache && ws'[|steps'|].clock == ws[|steps|].clock
  {
    ws', steps' := Take(ws, steps, Unlock(p));
    ws', steps' := ReturnFrom(ws', steps', w, p, op, Answered(result));
  }

  lemma WritingActs(w: World, p: nat, id: CallId, op: Operation, t: nat)
    requires p < |w.counters| && w.counters[p] == Writing(id, op) && !op.Get? && |w.cache.slots| > 0 && w.clock <= t
    ensures Enabled(w, Act(p, t, t))
    ensures var w', (ok, c') := Next(w, Act(p, t, t)), WriteEffect(w.cache, op, t, t);
            && w'.cache == c' && |c'.slots| == |w.cache.slots| && w'.clock == t && w'.lock == w.lock
            && w'.counters == w.counters[p := Leaving(id, Done(ok))] && SameCalls(w, w')
  {
    var (ok, c') := WriteEffect(w.cache, op, t, t);
    EffectedIs(w, p, id, ok, c', t, WriteEvent(w.cache, id, op, t, t));
  }

  lemma EffectedIs(w: World, p: nat, id: CallId, ok: bool, c': Cache, now: nat, e: Event)
    requires p < |w.counters| && e.Call?
    ensures var w' := Effected(w, p, id, ok, c', now, e);
            && w'.cache == c' && w'.clock == now && w'.lock == w.lock
            && w'.counters == w.counters[p := Leaving(id, Done(ok))] && SameCalls(w, w')
  {
  }

  // The exclusive section of a call, from its lock call on.
  lemma SectionAlone(ws: seq<World>, steps: seq<Step>, w: World, p: nat, op: Operation, t: nat)
    returns (ws': seq<World>, steps': seq<Step>)
    requires IsRun(ws, steps) && Quiet(w, p) && ws[|steps|].lock == RwLock.FREE && ws[|steps|].clock <= t && !op.Get?
    requires InCall(w, ws[|steps|], p, op, Wanting(|w.calls|, op))
    ensures IsRun(ws', steps') && ws'[0] == ws[0]
    ensures var (ok, c') := WriteEffect(ws[|steps|].cache, op, t, t);
            && CallsOnce(w, ws'[|steps'|], p, op, Answered(Done(ok)))
            && ws'[|steps'|].cache == c' && ws'[|steps'|].clock == t
  {
    var ok := WriteEffect(ws[|steps|].cache, op, t, t).0;
    ws', steps' := Take(ws, steps, LockGranted(p));
    WritingActs(ws'[|steps'|], p, |w.calls|, op, t);
    ws', steps' := Take(ws', steps', Act(p, t, t));
    ws', steps' := FinishCall(ws', steps', w, p, op, Done(ok));
  }

  /** A put, update or delete with nothing interleaved, at time t: it answers and changes the cache as its section is
      specified to; if it is refused the lock it changes nothing. */
  lemma WriteAlone(ws: seq<World>, steps: seq<Step>, p: nat, op: Operation, granted: bool, t: nat)
    returns (ws': seq<World>, steps': seq<Step>)
    requires IsRun(ws, steps) && Quiet(ws[|steps|], p)
    requires ValidOperation(op) && !op.Get? && ws[|steps|].clock <= t
    ensures IsRun(ws', steps') && ws'[0] == ws[0]
    ensures var w, w' := ws[|steps|], ws'[|steps'|];
            var (ok, c') := WriteEffect(w.cache, op, t, t);
            if granted then CallsOnce(w, w', p, op, Answered(Done(ok))) && w'.cache == c' && w'.clock == t
            else CallsOnce(w, w', p, op, LockFailed) && w'.cache == w.cache && w'.clock == w.clock
  {
    var w := ws[|steps|];
    ws', steps' := MakeCall(ws, steps, p, op);
    if granted {
      ws', steps' := SectionAlone(ws', steps', w, p, op, t);
    } else {
      ws', steps' := Take(ws', steps', LockRefused(p));
      ws', steps' := ReturnFrom(ws', steps', w, p, op, LockFailed);
    }
  }

  // The answer of a get that has read, and where it goes from there.
  function AfterRead(id: CallId, key: CString, seen: Seen, collisions: nat): Counter {
    if seen.SeenExpired? then WantingPurge(id, key, collisions) else WantingMetrics(id, GetResult(seen), collisions)
  }

  predicate SameShared(w: World, w': World) {
    w'.cache == w.cache && w'.clock == w.clock && w'.lock == w.lock
  }

  // One probe of a get: on to the next slot, or to the decision that the whole table supports.
  lemma ProbeMoves(w0: World, w: World, w': World, p: nat, key: CString, i: nat)
    requires SafeInv(w) && InCall(w0, w, p, Get(key), Probing(|w0.calls|, key, i))
    requires Enabled(w, Probe(p)) && w' == Next(w, Probe(p))
    ensures i <= |w.cache.slots| && SameShared(w, w')
    ensures var t := w.cache.slots;
            if Inspect(t, key, i, w.clock).None?
            then i < |t| && InCall(w0, w', p, Get(key), Probing(|w0.calls|, key, i + 1))
            else InCall(w0, w', p, Get(key), Decided(|w0.calls|, key, ReadLocked(t, key, w.clock), Collisions(t, key)))
  {
    assert ProbeSound(w.cache.slots, w.counters[p]);
    InspectDecides(w.cache.slots, key, i, w.clock);
    if Inspect(w.cache.slots, key, i, w.clock).None? {
      ProbeGoesOn(w0, w, p, key, i);
    } else {
      ProbeDecides(w0, w, p, key, i);
    }
  }

  lemma ProbeGoesOn(w0: World, w: World, p: nat, key: CString, i: nat)
    requires InCall(w0, w, p, Get(key), Probing(|w0.calls|, key, i)) && Inspect(w.cache.slots, key, i, w.clock).None?
    ensures InCall(w0, ProbeStep(w, p), p, Get(key), Probing(|w0.calls|, key, i + 1))
    ensures SameShared(w, ProbeStep(w, p))
  {
  }

  lemma ProbeDecides(w0: World, w: World, p: nat, key: CString, i: nat)
    requires InCall(w0, w, p, Get(key), Probing(|w0.calls|, key, i)) && Inspect(w.cache.slots, key, i, w.clock).Some?
    ensures var (seen, collisions) := Inspect(w.cache.slots, key, i, w.clock).value;
            InCall(w0, ProbeStep(w, p), p, Get(key), Decided(|w0.calls|, key, seen, collisions))
    ensures SameShared(w, ProbeStep(w, p))
  {
  }

  lemma ProbeAlone(ws: seq<World>, steps: seq<Step>, w0: World, p: nat, key: CString, i: nat)
    returns (ws': seq<World>, steps': seq<Step>)
    requires IsRun(ws, steps) && InCall(w0, ws[|steps|], p, Get(key), Probing(|w0.calls|, key, i))
    ensures IsRun(ws', steps') && ws'[0] == ws[0] && SameShared(ws[|steps|], ws'[|steps'|])
    ensures var w, w' := ws[|steps|], ws'[|steps'|];
            var t := w.cache.slots;
            if Inspect(t, key, i, w.clock).None?
            then i < |t| && InCall(w0, w', p, Get(key), Probing(|w0.calls|, key, i + 1))
            else InCall(w0, w', p, Get(key), Decided(|w0.calls|, key, ReadLocked(t, key, w.clock), Collisions(t, key)))
  {
    RunIsSafe(ws, steps, |steps|);
    ws', steps' := Take(ws, steps, Probe(p));
    ProbeMoves(w0, ws[|steps|], ws'[|steps'|], p, key, i);
  }

  // The probes of a get, up to its decision.
  lemma ReadAlone(ws: seq<World>, steps: seq<Step>, w0: World, p: nat, key: CString, i: nat)
    returns (ws': seq<World>, steps': seq<Step>)
    requires IsRun(ws, steps) && InCall(w0, ws[|steps|], p, Get(key), Probing(|w0.calls|, key, i))
    requires i <= |ws[|steps|].cache.slots|
    ensures IsRun(ws', steps') && ws'[0] == ws[0] && SameShared(ws[|steps|], ws'[|steps'|])
    ensures var w := ws[|steps|];
            InCall(w0, ws'[|steps'|], p, Get(key), Decided(|w0.calls|, key, ReadLocked(w.cache.slots, key, w.clock),
                                                           Collisions(w.cache.slots, key)))
    decreases |ws[|steps|].cache.slots| - i
  {
    var w := ws[|steps|];
    ws', steps' := ProbeAlone(ws, steps, w0, p, key, i);
    if Inspect(w.cache.slots, key, i, w.clock).None? {
      ws', steps' := ReadAlone(ws', steps', w0, p, key, i + 1);
    }
  }

  lemma BeginRead(ws: seq<World>, steps: seq<Step>, p: nat, key: CString) returns (ws': seq<World>, steps': seq<Step>)
    requires IsRun(ws, steps) && Quiet(ws[|steps|], p) && ValidKeyArgument(key)
    ensures IsRun(ws', steps') && ws'[0] == ws[0]
    ensures var w, w' := ws[|steps|], ws'[|steps'|];
            && InCall(w, w', p, Get(key), Probing(|w.calls|, key, 0))
            && w'.cache == w.cache && w'.clock == w.clock && w'.lock == RwLock.Lock(1, false)
  {
    ws', steps' := MakeCall(ws, steps, p, Get(key));
    ws', steps' := Take(ws', steps', LockGranted(p));
  }

  lemma EndRead(ws: seq<World>, steps: seq<Step>, w: World, p: nat, key: CString, seen: Seen, collisions: nat)
    returns (ws': seq<World>, steps': seq<Step>)
    requires IsRun(ws, steps) && ws[|steps|].lock == RwLock.Lock(1, false)
    requires InCall(w, ws[|steps|], p, Get(key), Decided(|w.calls|, key, seen, collisions))
    ensures IsRun(ws', steps') && ws'[0] == ws[0]
    ensures InCall(w, ws'[|steps'|], p, Get(key), AfterRead(|w.calls|, key, seen, collisions))
    ensures var w0, w' := ws[|steps|], ws'[|steps'|];
            w'.cache == w0.cache && w'.clock == w0.clock && w'.lock == RwLock.FREE
  {
    ws', steps' := Take(ws, steps, Unlock(p));
  }

  // A get up to the release of the shared lock.
  lemma ReadPhaseAlone(ws: seq<World>, steps: seq<Step>, p: nat, key: CString)
    returns (ws': seq<World>, steps': seq<Step>)
    requires IsRun(ws, steps) && Quiet(ws[|steps|], p) && ValidKeyArgument(key)
    ensures IsRun(ws', steps') && ws'[0] == ws[0]
    ensures var w, w' := ws[|steps|], ws'[|steps'|];
            && w'.cache == w.cache && w'.clock == w.clock && w'.lock == RwLock.FREE
            && InCall(w, w', p, Get(key), AfterRead(|w.calls|, key, ReadLocked(w.cache.slots, key, w.clock),
                                                    Collisions(w.cache.slots, key)))
  {
    var w := ws[|steps|];
    ws', steps' := BeginRead(ws, steps, p, key);
    ws', steps' := ReadAlone(ws', steps', w, p, key, 0);
    var seen, collisions := ReadLocked(w.cache.slots, key, w.clock), Collisions(w.cache.slots, key);
    ws', steps' := EndRead(ws', steps', w, p, key, seen, collisions);
  }

  // The second lock of a get is refused.
  lemma RefusedAlone(ws: seq<World>, steps: seq<Step>, w: World, p: nat, key: CString, seen: Seen, collisions: nat)
    returns (ws': seq<World>, steps': seq<Step>)
    requires IsRun(ws, steps) && Quiet(w, p) && ws[|steps|].lock == RwLock.FREE
    requires InCall(w, ws[|steps|], p, Get(key), AfterRead(|w.calls|, key, seen, collisions))
    ensures IsRun(ws', steps') && ws'[0] == ws[0]
    ensures CallsOnce(w, ws'[|steps'|], p, Get(key), Answered(GetResult(seen)))
    ensures ws'[|steps'|].cache == ws[|steps|].cache && ws'[|steps'|].clock == ws[|steps|].clock
    ensures collisions > 0 ==> Lossy(ws', steps')
  {
    ws', steps' := Take(ws, steps, LockRefused(p));
    ws', steps' := ReturnFrom(ws', steps', w, p, Get(key), Answered(GetResult(seen)));
  }

  // A get that has seen its entry live, or none, is counted.
  lemma CountAlone(ws: seq<World>, steps: seq<Step>, w: World, p: nat, key: CString, seen: Seen, collisions: nat)
    returns (ws': seq<World>, steps': seq<Step>)
    requires IsRun(ws, steps) && Quiet(w, p) && ws[|steps|].lock == RwLock.FREE && !seen.SeenExpired?
    requires InCall(w, ws[|steps|], p, Get(key), AfterRead(|w.calls|, key, seen, collisions))
    ensures IsRun(ws', steps') && ws'[0] == ws[0]
    ensures CallsOnce(w, ws'[|steps'|], p, Get(key), Answered(GetResult(seen)))
    ensures ws'[|steps'|].cache == CountGet(ws[|steps|].cache, seen.SeenLive?, collisions)
    ensures ws'[|steps'|].clock == ws[|steps|].clock
  {
    ws', steps' := Take(ws, steps, LockGranted(p));
    ws', steps' := Take(ws', steps', Act(p, ws[|steps|].clock, ws[|steps|].clock));
    ws', steps' := FinishCall(ws', steps', w, p, Get(key), GetResult(seen));
  }

  // A get that has seen its entry expired, at the same time still.
  lemma PurgeAlone(ws: seq<World>, steps: seq<Step>, w: World, p: nat, key: CString, collisions: nat)
    returns (ws': seq<World>, steps': seq<Step>)
    requires IsRun(ws, steps) && Quiet(w, p) && ws[|steps|].lock == RwLock.FREE
    requires InCall(w, ws[|steps|], p, Get(key), AfterRead(|w.calls|, key, SeenExpired, collisions))
    ensures IsRun(ws', steps') && ws'[0] == ws[0]
    ensures CallsOnce(w, ws'[|steps'|], p, Get(key), Answered(Miss))
    ensures ws'[|steps'|].cache == PurgeLocked(ws[|steps|].cache, key, collisions, ws[|steps|].clock)
    ensures ws'[|steps'|].clock == ws[|steps|].clock
    ensures !EndsAtStart(ws[|steps|].cache.slots, key) ==> Lossy(ws', steps')
  {
    ws', steps' := Take(ws, steps, LockGranted(p));
    ws', steps' := Take(ws', steps', Act(p, ws[|steps|].clock, ws[|steps|].clock));
    ws', steps' := FinishCall(ws', steps', w, p, Get(key), Miss);
  }

  // What a get reports, given what it may lock.
  function GetAnswer(m: Stored, key: CString, now: nat, read: bool): Answer {
    if !read then LockFailed
    else Answered(if key in Live(m, now) then Hit(m[key].value, m[key].timestamp) else Miss)
  }

  /** A get with nothing interleaved, whichever of its lock calls succeed: it answers from the live view and ends in
      what GetAlone specifies. If the search it does not count went beyond its first slot, it has lost collisions. */
  lemma GetRunAlone(ws: seq<World>, steps: seq<Step>, p: nat, key: CString, read: bool, write: bool)
    returns (ws': seq<World>, steps': seq<Step>)
    requires IsRun(ws, steps) && Quiet(ws[|steps|], p) && ValidKeyArgument(key)
    ensures IsRun(ws', steps') && ws'[0] == ws[0]
    ensures var w, w' := ws[|steps|], ws'[|steps'|];
            && CallsOnce(w, w', p, Get(key), GetAnswer(View(w.cache.slots), key, w.clock, read))
            && w'.cache == GetAlone(w.cache, key, read, w.clock, write, w.clock).1 && w'.clock == w.clock
    ensures var w, c' := ws[|steps|], ws'[|steps'|].cache;
            var live := key in Live(View(w.cache.slots), w.clock);
            && c'.hits == w.cache.hits + (if read && write && live then 1 else 0)
            && c'.misses == w.cache.misses + (if read && write && !live then 1 else 0)
    ensures var t, now := ws[|steps|].cache.slots, ws[|steps|].clock;
            read && (!write || ReadLocked(t, key, now) == SeenExpired) && !EndsAtStart(t, key) ==> Lossy(ws', steps')
  {
    var w := ws[|steps|];
    var seen, collisions := ReadLocked(w.cache.slots, key, w.clock), Collisions(w.cache.slots, key);
    NoCollisionsIff(w.cache.slots, key);
    RunIsSafe(ws, steps, |steps|);
    ReadAnswer(w.cache, key, w.clock);
    GetMovesItsCounter(w.cache, key, read, w.clock, write, w.clock);
    if !read {
      ws', steps' := MakeCall(ws, steps, p, Get(key));
      ws', steps' := Take(ws', steps', LockRefused(p));
      ws', steps' := ReturnFrom(ws', steps', w, p, Get(key), LockFailed);
    } else {
      ws', steps' := ReadPhaseAlone(ws, steps, p, key);
      if !write {
        ws', steps' := RefusedAlone(ws', steps', w, p, key, seen, collisions);
      } else if seen.SeenExpired? {
        ws', steps' := PurgeAlone(ws', steps', w, p, key, collisions);
      } else {
        ws', steps' := CountAlone(ws', steps', w, p, key, seen, collisions);
      }
    }
  }

  lemma ReadAnswer(c: Cache, key: CString, now: nat)
    requires CacheInv(c)
    ensures GetAnswer(View(c.slots), key, now, true) == Answered(GetResult(ReadLocked(c.slots, key, now)))
  {
    ReadRefines(c, key, now, 0);
  }

  // A run that has lost collisions shows too few, once no get is under way.
  lemma LossyUndercounts(ws: seq<World>, steps: seq<Step>)
    requires IsRun(ws, steps) && Lossy(ws, steps)
    requires var w := ws[|steps|];
             forall p | 0 <= p < |w.counters| :: !w.counters[p].Probing? && !AwaitsCounting(w.counters[p])
    ensures ws[|steps|].cache.collisions < Inspected(ws, steps, |steps|)
  {
    CollisionsExactIff(ws, steps, |steps|);
    RunAccountsForCollisions(ws, steps, |steps|);
  }

  // Two puts into an empty cache of two slots.
  lemma TwoPuts(w: World, p: nat) returns (ws: seq<World>, steps: seq<Step>)
    requires Initial(w) && |w.cache.slots| == 2 && w.clock == 0 && p < |w.counters|
    ensures IsRun(ws, steps) && ws[0] == w
    ensures var w' := ws[|steps|];
            w'.cache == AfterPuts(C, A) && w'.clock == 0 && w'.lock == w.lock && w'.counters == w.counters
  {
    ws, steps := [w], [];
    assert w.cache == Cache([EMPTY_ENTRY, EMPTY_ENTRY], 0, 0, 0, 0);
    ws, steps := WriteAlone(ws, steps, p, Put([99], [], 0), true, 0);
    ws, steps := WriteAlone(ws, steps, p, Put([97], [], 1), true, 0);
  }

  /** A reachable state in which the collision counter misses slots: two puts, a tick of the clock, and one get of the
      expired "a" behind "c" in a cache of two slots, all by one process. */
  lemma UndercountingRun(w: World, p: nat) returns (ws: seq<World>, steps: seq<Step>)
    requires Initial(w) && |w.cache.slots| == 2 && w.clock == 0 && p < |w.counters|
    ensures IsRun(ws, steps) && ws[0] == w
    ensures forall q | 0 <= q < |ws[|steps|].counters| :: ws[|steps|].counters[q] == Idle
    ensures ws[|steps|].cache.collisions < Inspected(ws, steps, |steps|)
  {
    ws, steps := TwoPuts(w, p);
    var c := ws[|steps|].cache;
    PutsFillInOrder(C, A);
    ws, steps := Take(ws, steps, Tick(1));
    ExpiredInSecondSlot(c);
    NoCollisionsIff(c.slots, [97]);
    ws, steps := GetRunAlone(ws, steps, p, [97], true, true);
    LossyUndercounts(ws, steps);
  }
}
