/** Liveness without fairness: as long as a call is under way some process can go on with its call, and unless new calls
    are made only so many steps remain until every call has returned. */
module Liveness {
  import opened TtlMap
  import opened CacheSpec
  import opened Processes
  import opened LockSafety
  import opened RunSafety
  import opened Linearizability
  import opened Traces
  import RwLock

  // ---- Somebody can go on ----

  // A step with which a process goes on with its call, without being refused a lock.
  predicate GoesOn(w: World, s: Step) {
    Enabled(w, s) && !s.Tick? && !s.Invoke? && !s.LockRefused?
  }

  // A process whose next step the lock does not hold up.
  predicate Free(lock: RwLock.Lock, pc: Counter) {
    match pc
    case Idle => false
    case Wanting(_, op) => if op.Get? then RwLock.MayRead(lock) else RwLock.MayWrite(lock)
    case WantingMetrics(_, _, _) => RwLock.MayWrite(lock)
    case WantingPurge(_, _, _) => RwLock.MayWrite(lock)
    case _ => true
  }

  // The next step of a process that has what it needs.
  function NextStep(w: World, p: nat): Step
    requires p < |w.counters|
  {
    match w.counters[p]
    case Wanting(_, _) => LockGranted(p)
    case Probing(_, _, _) => Probe(p)
    case Decided(_, _, _, _) => Unlock(p)
    case WantingMetrics(_, _, _) => LockGranted(p)
    case WantingPurge(_, _, _) => LockGranted(p)
    case Leaving(_, _) => Unlock(p)
    case Returning(_, _) => Return(p)
    case _ => Act(p, w.clock, w.clock)
  }

  lemma FreeGoesOn(w: World, p: nat)
    requires SafeInv(w) && p < |w.counters| && Free(w.lock, w.counters[p])
    ensures GoesOn(w, NextStep(w, p)) && NextStep(w, p).p == p
  {
    assert ArgumentsValid(w.counters[p]);
  }

  lemma {:induction false} SomeHolder(f: Counter -> nat, counters: seq<Counter>) returns (p: nat)
    requires Sum(f, counters) > 0
    ensures p < |counters| && f(counters[p]) > 0
  {
    if f(counters[0]) > 0 {
      p := 0;
    } else {
      p := SomeHolder(f, counters[1..]);
      p := p + 1;
    }
  }

  // Holders of the lock never wait for it, so if a process has to wait there is one that does not.
  lemma SomeoneIsFree(w: World, p: nat) returns (q: nat)
    requires LockInv(w) && p < |w.counters| && w.counters[p] != Idle
    ensures q < |w.counters| && Free(w.lock, w.counters[q])
  {
    if w.lock.writer {
      q := SomeHolder(HoldsWrite, w.counters);
    } else if w.lock.readers > 0 {
      q := SomeHolder(HoldsRead, w.counters);
    } else {
      q := p;
    }
  }

  /** No deadlock: in every reachable state in which some call is under way, some process can go on with its call, even
      if no lock call fails from then on. */
  lemma NeverStuck(ws: seq<World>, steps: seq<Step>, i: nat, p: nat) returns (s: Step)
    requires IsRun(ws, steps) && i < |ws| && p < |ws[i].counters| && ws[i].counters[p] != Idle
    ensures GoesOn(ws[i], s)
  {
    RunIsSafe(ws, steps, i);
    var q := SomeoneIsFree(ws[i], p);
    FreeGoesOn(ws[i], q);
    s := NextStep(ws[i], q);
  }

  // ---- Calls come to an end ----

  // More steps than these a process does not take before its call has returned, over n slots.
  function StepsLeft(pc: Counter, n: nat): nat {
    match pc
    case Idle => 0
    case Wanting(_, op) => if op.Get? then n + 7 else 4
    case Probing(_, _, i) => (if i < n then n - i else 0) + 6
    case Decided(_, _, _, _) => 5
    case WantingMetrics(_, _, _) => 4
    case WantingPurge(_, _, _) => 4
    case Counting(_, _, _) => 3
    case Purging(_, _, _) => 3
    case Writing(_, _) => 3
    case Leaving(_, _) => 2
    case Returning(_, _) => 1
  }

  // All steps left before every call made so far has returned.
  function AllStepsLeft(w: World): nat {
    var n := |w.cache.slots|;
    Sum(pc => StepsLeft(pc, n), w.counters)
  }

  // p comes closer to the end of its call, and nobody else is concerned.
  predicate Nears(w: World, w': World, p: nat) {
    && p < |w.counters| && |w'.counters| == |w.counters| && w'.counters == w.counters[p := w'.counters[p]]
    && |w'.cache.slots| == |w.cache.slots|
    && StepsLeft(w'.counters[p], |w.cache.slots|) < StepsLeft(w.counters[p], |w.cache.slots|)
  }

  lemma LockStepNears(w: World, s: Step)
    requires Enabled(w, s) && (s.LockGranted? || s.LockRefused? || s.Unlock?)
    ensures Nears(w, Next(w, s), s.p)
  {
  }

  lemma ProbeNears(w: World, p: nat)
    requires SafeInv(w) && Enabled(w, Probe(p))
    ensures Nears(w, ProbeStep(w, p), p)
  {
    assert ProbeSound(w.cache.slots, w.counters[p]);
  }

  lemma WritingNears(w: World, p: nat, t0: nat, t1: nat)
    requires Enabled(w, Act(p, t0, t1)) && w.counters[p].Writing?
    ensures Nears(w, ActStep(w, p, t0, t1), p)
  {
    var pc, e := w.counters[p], WriteEvent(w.cache, w.counters[p].id, w.counters[p].op, t0, t1);
    var (ok, c') := WriteEffect(w.cache, pc.op, t0, t1);
    EffectNears(w, p, pc.id, ok, c', t1, e);
  }

  lemma EffectNears(w: World, p: nat, id: CallId, ok: bool, c': Cache, now: nat, e: Event)
    requires p < |w.counters| && w.counters[p].Writing? && e.Call? && |c'.slots| == |w.cache.slots|
    ensures Nears(w, Effected(w, p, id, ok, c', now, e), p)
  {
  }

  lemma CountingNears(w: World, p: nat, t0: nat, t1: nat)
    requires Enabled(w, Act(p, t0, t1)) && !w.counters[p].Writing?
    ensures Nears(w, ActStep(w, p, t0, t1), p)
  {
  }

  lemma StepNears(w: World, s: Step)
    requires SafeInv(w) && Enabled(w, s) && !s.Tick? && !s.Invoke?
    ensures Nears(w, Next(w, s), s.p)
  {
    match s
    case Probe(p) => ProbeNears(w, p);
    case Act(p, t0, t1) =>
      if w.counters[p].Writing? {
        WritingNears(w, p, t0, t1);
      } else {
        CountingNears(w, p, t0, t1);
      }
    case Return(_) =>
    case LockGranted(_) => LockStepNears(w, s);
    case LockRefused(_) => LockStepNears(w, s);
    case Unlock(_) => LockStepNears(w, s);
  }

  lemma FewerStepsLeft(w: World, w': World, p: nat)
    requires Nears(w, w', p)
    ensures AllStepsLeft(w') < AllStepsLeft(w)
  {
    var n := |w.cache.slots|;
    SumMove(pc => StepsLeft(pc, n), w.counters, p, w'.counters[p]);
  }

  // The steps from i to k other than ticks of the clock.
  function Taken(steps: seq<Step>, i: nat, k: nat): nat
    requires i <= k <= |steps|
  {
    if i == k then 0 else Taken(steps, i, k - 1) + if steps[k - 1].Tick? then 0 else 1
  }

  /** From any state of a run on, while no new calls are made, the processes take no more steps than were left, whatever
      the lock calls answer; none is left exactly when every call made has returned. */
  lemma {:induction false} CallsComplete(ws: seq<World>, steps: seq<Step>, i: nat, k: nat)
    requires IsRun(ws, steps) && i <= k < |ws|
    requires forall j | i <= j < k :: !steps[j].Invoke?
    ensures Taken(steps, i, k) + AllStepsLeft(ws[k]) <= AllStepsLeft(ws[i])
    ensures AllStepsLeft(ws[k]) == 0 <==> forall id | 0 <= id < |ws[k].calls| :: ws[k].calls[id].returned.Some?
  {
    AllReturnedIff(ws, steps, k);
    if i == k {
    } else {
      CallsComplete(ws, steps, i, k - 1);
      RunIsSafe(ws, steps, k - 1);
      if !steps[k - 1].Tick? {
        StepNears(ws[k - 1], steps[k - 1]);
        FewerStepsLeft(ws[k - 1], ws[k], steps[k - 1].p);
      }
    }
  }

  lemma NoStepsLeftIff(w: World)
    ensures AllStepsLeft(w) == 0 <==> forall p | 0 <= p < |w.counters| :: w.counters[p] == Idle
  {
    var n := |w.cache.slots|;
    var f := pc => StepsLeft(pc, n);
    if AllStepsLeft(w) == 0 {
      forall p | 0 <= p < |w.counters| ensures w.counters[p] == Idle {
        SumMove(f, w.counters, p, w.counters[p]);
      }
    } else if forall p | 0 <= p < |w.counters| :: w.counters[p] == Idle {
      SumZero(f, w.counters);
    }
  }

  // ---- Who has not returned is under way ----

  ghost predicate UnreturnedUnderWay(w: World) {
    forall id | 0 <= id < |w.calls| && w.calls[id].returned.None? :: UnderWayAt(w, id, w.calls[id].process)
  }

  predicate UnderWayAt(w: World, id: CallId, p: nat) {
    p < |w.counters| && w.counters[p] != Idle && w.counters[p].id == id
  }

  lemma InvokeKeepsUnderWay(w: World, p: nat, op: Operation)
    requires UnreturnedUnderWay(w) && Enabled(w, Invoke(p, op))
    ensures UnreturnedUnderWay(InvokeStep(w, p, op))
  {
    var w' := InvokeStep(w, p, op);
    forall id | 0 <= id < |w'.calls| && w'.calls[id].returned.None? ensures UnderWayAt(w', id, w'.calls[id].process) {
      if id < |w.calls| {
        assert UnderWayAt(w, id, w.calls[id].process);
      }
    }
  }

  lemma ReturnKeepsUnderWay(w: World, p: nat)
    requires UnreturnedUnderWay(w) && CallInv(w) && Enabled(w, Return(p))
    ensures UnreturnedUnderWay(ReturnStep(w, p))
  {
    var w' := ReturnStep(w, p);
    assert ActiveSound(w, p);
    forall id | 0 <= id < |w'.calls| && w'.calls[id].returned.None? ensures UnderWayAt(w', id, w'.calls[id].process) {
      assert UnderWayAt(w, id, w.calls[id].process);
    }
  }

  // p goes on with the same call.
  predicate SameCallGoesOn(w: World, w': World, p: nat) {
    && p < |w.counters| && |w'.counters| == |w.counters| && w'.counters == w.counters[p := w'.counters[p]]
    && w.counters[p] != Idle && w'.counters[p] != Idle && w'.counters[p].id == w.counters[p].id
  }

  lemma InCallGoesOn(w: World, s: Step)
    requires Enabled(w, s) && !s.Tick? && !s.Invoke? && !s.Return?
    ensures SameCallGoesOn(w, Next(w, s), s.p)
  {
  }

  lemma InCallKeepsUnderWay(w: World, w': World, p: nat)
    requires UnreturnedUnderWay(w) && SameStory(w, w') && SameCallGoesOn(w, w', p)
    ensures UnreturnedUnderWay(w')
  {
    forall id | 0 <= id < |w'.calls| && w'.calls[id].returned.None? ensures UnderWayAt(w', id, w'.calls[id].process) {
      assert UnderWayAt(w, id, w.calls[id].process);
    }
  }

  lemma UnderWayStep(w: World, s: Step)
    requires UnreturnedUnderWay(w) && CallInv(w) && Enabled(w, s)
    ensures UnreturnedUnderWay(Next(w, s))
  {
    match s
    case Tick(_) =>
    case Invoke(p, op) => InvokeKeepsUnderWay(w, p, op);
    case Return(p) => ReturnKeepsUnderWay(w, p);
    case _ =>
      QuietStepKeepsStory(w, s);
      InCallGoesOn(w, s);
      InCallKeepsUnderWay(w, Next(w, s), s.p);
  }

  lemma {:induction false} RunKeepsUnderWay(ws: seq<World>, steps: seq<Step>, i: nat)
    requires IsRun(ws, steps) && i < |ws|
    ensures UnreturnedUnderWay(ws[i])
  {
    if i == 0 {
    } else {
      RunKeepsUnderWay(ws, steps, i - 1);
      RunKeepsCalls(ws, steps, i - 1);
      UnderWayStep(ws[i - 1], steps[i - 1]);
    }
  }

  lemma AllReturnedIff(ws: seq<World>, steps: seq<Step>, i: nat)
    requires IsRun(ws, steps) && i < |ws|
    ensures AllStepsLeft(ws[i]) == 0 <==> forall id | 0 <= id < |ws[i].calls| :: ws[i].calls[id].returned.Some?
  {
    var w := ws[i];
    NoStepsLeftIff(w);
    RunKeepsUnderWay(ws, steps, i);
    RunKeepsCalls(ws, steps, i);
    if forall id | 0 <= id < |w.calls| :: w.calls[id].returned.Some? {
      forall p | 0 <= p < |w.counters| ensures w.counters[p] == Idle {
        assert ActiveSound(w, p);
      }
    } else {
      var id :| 0 <= id < |w.calls| && w.calls[id].returned.None?;
      assert UnderWayAt(w, id, w.calls[id].process);
    }
  }
}
