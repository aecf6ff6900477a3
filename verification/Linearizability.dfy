/** Every run is linearizable to the sequential TTL map: each call takes effect at one instant between its invocation
    and its return, in an order that respects real time, and answers as the TTL map does at that instant. */
module Linearizability {
  import opened TtlMap
  import opened CacheSpec
  import opened Refinement
  import opened History
  import opened Processes
  import opened RunSafety

  ghost predicate StampsInv(w: World) {
    && |w.stamps| == |w.log|
    && (forall l, m | 0 <= l < m < |w.stamps| :: w.stamps[l] < w.stamps[m])
    && (forall l | 0 <= l < |w.stamps| :: w.stamps[l] < w.now)
  }

  // Every call in the log is a recorded call, at the place its record says.
  ghost predicate LoggedCallsRecorded(w: World) {
    forall l | 0 <= l < |w.log| && w.log[l].Call? ::
      w.log[l].id < |w.calls| && w.calls[w.log[l].id].effect == Some(l)
  }

  predicate TookEffectAt(w: World, id: CallId, l: nat)
    requires id < |w.calls|
  {
    && l < |w.log| && l < |w.stamps|
    && w.log[l].Call? && w.log[l].id == id && w.log[l].op == w.calls[id].op
    && w.calls[id].invoked < w.stamps[l]
  }

  predicate RecordSound(w: World, id: CallId)
    requires id < |w.calls|
  {
    var r := w.calls[id];
    && r.invoked < w.now
    && (r.effect.Some? ==> TookEffectAt(w, id, r.effect.value))
    && (r.returned.Some? <==> r.answer.Some?)
    && (r.returned.Some? ==> r.invoked < r.returned.value < w.now)
    && (r.answer == Some(LockFailed) ==> r.effect == None)
    && (r.answer.Some? && r.answer.value.Answered? ==>
          && r.effect.Some?
          && w.log[r.effect.value].result == r.answer.value.result
          && w.stamps[r.effect.value] < r.returned.value)
  }

  // What an active call has already been decided to answer, if it has taken effect.
  function Outcome(pc: Counter): Option<Result> {
    match pc
    case Decided(_, _, seen, _) => Some(GetResult(seen))
    case WantingMetrics(_, result, _) => Some(result)
    case Counting(_, result, _) => Some(result)
    case WantingPurge(_, _, _) => Some(Miss)
    case Purging(_, _, _) => Some(Miss)
    case Leaving(_, result) => Some(result)
    case Returning(_, Answered(result)) => Some(result)
    case _ => None
  }

  predicate ActiveSound(w: World, p: nat)
    requires p < |w.counters|
  {
    var pc := w.counters[p];
    pc != Idle ==>
      && pc.id < |w.calls|
      && var r := w.calls[pc.id];
      && r.process == p && r.returned == None
      && (pc.Wanting? || pc.Writing? ==> r.op == pc.op)
      && (pc.Probing? ==> r.op == Get(pc.key))
      && (AwaitsCounting(pc) ==> r.op.Get?)
      && match Outcome(pc)
         case None => r.effect == None
         case Some(result) => r.effect.Some? && r.effect.value < |w.log| && w.log[r.effect.value].Call? &&
                              w.log[r.effect.value].result == result
  }

  ghost predicate CallInv(w: World) {
    && StampsInv(w)
    && LoggedCallsRecorded(w)
    && (forall id | 0 <= id < |w.calls| :: RecordSound(w, id))
    && (forall p | 0 <= p < |w.counters| :: ActiveSound(w, p))
  }

  // A step that leaves log and records alone.
  lemma CallsQuiet(w: World, w': World, p: nat)
    requires CallInv(w) && p < |w.counters|
    requires w'.log == w.log && w'.stamps == w.stamps && w'.calls == w.calls && w'.now >= w.now
    requires |w'.counters| == |w.counters| && w'.counters == w.counters[p := w'.counters[p]]
    requires ActiveSound(w', p)
    ensures CallInv(w')
  {
    forall id | 0 <= id < |w'.calls| ensures RecordSound(w', id) {
      assert RecordSound(w, id);
    }
    forall q | 0 <= q < |w'.counters| ensures ActiveSound(w', q) {
      assert ActiveSound(w, q);
    }
  }

  // The active call of process p takes effect with event e.
  lemma CallTakesEffect(w: World, w': World, p: nat, e: Event)
    requires CallInv(w) && p < |w.counters| && w.counters[p] != Idle && Outcome(w.counters[p]) == None
    requires e.Call? && e.id == w.counters[p].id && e.id < |w.calls| && e.op == w.calls[e.id].op
    requires !w.counters[p].Returning?
    requires w'.log == w.log + [e] && w'.stamps == w.stamps + [w.now] && w'.now == w.now + 1
    requires w'.calls == w.calls[e.id := w.calls[e.id].(effect := Some(|w.log|))]
    requires |w'.counters| == |w.counters| && w'.counters == w.counters[p := w'.counters[p]]
    requires w'.counters[p] != Idle && w'.counters[p].id == e.id && Outcome(w'.counters[p]) == Some(e.result)
    requires !w'.counters[p].Wanting? && !w'.counters[p].Writing? && !w'.counters[p].Probing?
    requires AwaitsCounting(w'.counters[p]) ==> e.op.Get?
    ensures CallInv(w')
  {
    assert ActiveSound(w, p);
    assert RecordSound(w, e.id);
    forall id | 0 <= id < |w'.calls| ensures RecordSound(w', id) {
      assert RecordSound(w, id);
    }
    forall q | 0 <= q < |w'.counters| ensures ActiveSound(w', q) {
      assert ActiveSound(w, q);
    }
  }

  lemma PurgeEntersLog(w: World, w': World, p: nat, e: Event)
    requires CallInv(w) && p < |w.counters| && w.counters[p].Purging? && e.Purged?
    requires w'.log == w.log + [e] && w'.stamps == w.stamps + [w.now] && w'.now == w.now + 1 && w'.calls == w.calls
    requires |w'.counters| == |w.counters| && w'.counters == w.counters[p := Leaving(w.counters[p].id, Miss)]
    ensures CallInv(w')
  {
    forall id | 0 <= id < |w'.calls| ensures RecordSound(w', id) {
      assert RecordSound(w, id);
    }
    forall q | 0 <= q < |w'.counters| ensures ActiveSound(w', q) {
      assert ActiveSound(w, q);
    }
  }

  lemma InvokeKeeps(w: World, p: nat, op: Operation)
    requires CallInv(w) && Enabled(w, Invoke(p, op))
    ensures CallInv(Next(w, Invoke(p, op)))
  {
    var w' := Next(w, Invoke(p, op));
    forall id | 0 <= id < |w'.calls| ensures RecordSound(w', id) {
      if id < |w.calls| {
        assert RecordSound(w, id);
      }
    }
    forall q | 0 <= q < |w'.counters| ensures ActiveSound(w', q) {
      assert ActiveSound(w, q);
    }
  }

  lemma CallReturns(w: World, w': World, p: nat, id: CallId, answer: Answer)
    requires CallInv(w) && p < |w.counters| && w.counters[p] == Returning(id, answer) && id < |w.calls|
    requires w'.log == w.log && w'.stamps == w.stamps && w'.now == w.now + 1 && w'.counters == w.counters[p := Idle]
    requires w'.calls == w.calls[id := w.calls[id].(returned := Some(w.now), answer := Some(answer))]
    ensures CallInv(w')
  {
    assert ActiveSound(w, p);
    forall a | 0 <= a < |w'.calls| ensures RecordSound(w', a) {
      assert RecordSound(w, a);
    }
    forall q | 0 <= q < |w'.counters| ensures ActiveSound(w', q) {
      assert ActiveSound(w, q);
    }
  }

  lemma ReturnKeeps(w: World, p: nat)
    requires CallInv(w) && Enabled(w, Return(p))
    ensures CallInv(Next(w, Return(p)))
  {
    assert ActiveSound(w, p);
    CallReturns(w, Next(w, Return(p)), p, w.counters[p].id, w.counters[p].answer);
  }

  lemma ProbeKeepsCalls(w: World, p: nat)
    requires CallInv(w) && Enabled(w, Probe(p))
    ensures CallInv(Next(w, Probe(p)))
  {
    var w' := Next(w, Probe(p));
    assert ActiveSound(w, p);
    if w'.counters[p].Probing? {
      CallsQuiet(w, w', p);
    } else {
      CallTakesEffect(w, w', p, w'.log[|w.log|]);
    }
  }

  lemma WritingKeepsCalls(w: World, p: nat, t0: nat, t1: nat)
    requires CallInv(w) && Enabled(w, Act(p, t0, t1)) && w.counters[p].Writing?
    ensures CallInv(Next(w, Act(p, t0, t1)))
  {
    var id, op := w.counters[p].id, w.counters[p].op;
    var (ok, c') := WriteEffect(w.cache, op, t0, t1);
    EffectKeepsCalls(w, p, id, op, ok, c', t1, WriteEvent(w.cache, id, op, t0, t1));
  }

  lemma EffectKeepsCalls(w: World, p: nat, id: CallId, op: Operation, ok: bool, c': Cache, now: nat, e: Event)
    requires CallInv(w) && p < |w.counters| && w.counters[p] == Writing(id, op)
    requires e.Call? && e.id == id && e.op == op && e.result == Done(ok)
    ensures CallInv(Effected(w, p, id, ok, c', now, e).(now := w.now + 1))
  {
    assert ActiveSound(w, p);
    CallTakesEffect(w, Effected(w, p, id, ok, c', now, e).(now := w.now + 1), p, e);
  }

  lemma PurgingKeepsCalls(w: World, p: nat, t0: nat, t1: nat)
    requires CallInv(w) && Enabled(w, Act(p, t0, t1)) && w.counters[p].Purging?
    ensures CallInv(Next(w, Act(p, t0, t1)))
  {
    var w', pc := Next(w, Act(p, t0, t1)), w.counters[p];
    assert ActiveSound(w, p);
    if w'.log == w.log {
      CallsQuiet(w, w', p);
    } else {
      PurgeEntersLog(w, w', p, Purged(pc.key, t1));
    }
  }

  lemma CountingKeepsCalls(w: World, p: nat, t0: nat, t1: nat)
    requires CallInv(w) && Enabled(w, Act(p, t0, t1)) && w.counters[p].Counting?
    ensures CallInv(Next(w, Act(p, t0, t1)))
  {
    assert ActiveSound(w, p);
    CallsQuiet(w, Next(w, Act(p, t0, t1)), p);
  }

  lemma ActKeepsCalls(w: World, p: nat, t0: nat, t1: nat)
    requires CallInv(w) && Enabled(w, Act(p, t0, t1))
    ensures CallInv(Next(w, Act(p, t0, t1)))
  {
    match w.counters[p]
    case Counting(_, _, _) => CountingKeepsCalls(w, p, t0, t1);
    case Purging(_, _, _) => PurgingKeepsCalls(w, p, t0, t1);
    case Writing(_, _) => WritingKeepsCalls(w, p, t0, t1);
  }

  lemma CallInvStep(w: World, s: Step)
    requires CallInv(w) && Enabled(w, s)
    ensures CallInv(Next(w, s))
  {
    match s
    case Invoke(p, op) => InvokeKeeps(w, p, op);
    case Return(p) => ReturnKeeps(w, p);
    case Probe(p) => ProbeKeepsCalls(w, p);
    case Act(p, t0, t1) => ActKeepsCalls(w, p, t0, t1);
    case Tick(_) => TickKeepsCalls(w, s);
    case LockGranted(p) => LockStepKeepsCalls(w, s);
    case LockRefused(p) => LockStepKeepsCalls(w, s);
    case Unlock(p) => LockStepKeepsCalls(w, s);
  }

  // Taking or refusing a lock, or releasing one, decides nothing about the call.
  predicate SameCall(w: World, w': World, p: nat)
    requires p < |w.counters|
  {
    && w'.log == w.log && w'.stamps == w.stamps && w'.calls == w.calls && w'.now == w.now
    && |w'.counters| == |w.counters| && w'.counters == w.counters[p := w'.counters[p]]
    && var pc, pc' := w.counters[p], w'.counters[p];
       && pc != Idle && pc' != Idle && pc'.id == pc.id && Outcome(pc') == Outcome(pc)
       && (pc'.Wanting? || pc'.Writing? ==> pc.Wanting? && pc'.op == pc.op)
       && (pc'.Probing? ==> pc.Wanting? && pc.op == Get(pc'.key))
       && (AwaitsCounting(pc') ==> AwaitsCounting(pc))
  }

  lemma SameCallKeeps(w: World, w': World, p: nat, now: nat)
    requires CallInv(w) && p < |w.counters| && SameCall(w, w', p) && now >= w.now
    ensures CallInv(w'.(now := now))
  {
    assert ActiveSound(w, p);
    CallsQuiet(w, w'.(now := now), p);
  }

  lemma GrantIsSameCall(w: World, p: nat)
    requires Enabled(w, LockGranted(p))
    ensures SameCall(w, GrantStep(w, p), p)
  {
  }

  lemma RefuseIsSameCall(w: World, p: nat)
    requires Enabled(w, LockRefused(p))
    ensures SameCall(w, RefuseStep(w, p), p)
  {
  }

  lemma UnlockIsSameCall(w: World, p: nat)
    requires Enabled(w, Unlock(p))
    ensures SameCall(w, UnlockStep(w, p), p)
  {
  }

  lemma LockStepKeepsCalls(w: World, s: Step)
    requires CallInv(w) && Enabled(w, s) && (s.LockGranted? || s.LockRefused? || s.Unlock?)
    ensures CallInv(Next(w, s))
  {
    match s
    case LockGranted(p) =>
      GrantIsSameCall(w, p);
      SameCallKeeps(w, GrantStep(w, p), p, w.now + 1);
    case LockRefused(p) =>
      RefuseIsSameCall(w, p);
      SameCallKeeps(w, RefuseStep(w, p), p, w.now + 1);
    case Unlock(p) =>
      UnlockIsSameCall(w, p);
      SameCallKeeps(w, UnlockStep(w, p), p, w.now + 1);
  }

  lemma TickKeepsCalls(w: World, s: Step)
    requires CallInv(w) && Enabled(w, s) && s.Tick?
    ensures CallInv(Next(w, s))
  {
    var w' := Next(w, s);
    forall id | 0 <= id < |w'.calls| ensures RecordSound(w', id) {
      assert RecordSound(w, id);
    }
    forall q | 0 <= q < |w'.counters| ensures ActiveSound(w', q) {
      assert ActiveSound(w, q);
    }
  }

  lemma {:induction false} RunKeepsCalls(ws: seq<World>, steps: seq<Step>, i: nat)
    requires IsRun(ws, steps) && i < |ws|
    ensures CallInv(ws[i])
  {
    if i == 0 {
    } else {
      RunKeepsCalls(ws, steps, i - 1);
      CallInvStep(ws[i - 1], steps[i - 1]);
    }
  }

  predicate IsCall(e: Event, id: CallId) {
    e.Call? && e.id == id
  }

  // Call a had returned when call b was invoked.
  predicate ReturnedBefore(w: World, a: CallId, b: CallId) {
    a < |w.calls| && b < |w.calls| && w.calls[a].returned.Some? && w.calls[a].returned.value <= w.calls[b].invoked
  }

  // Each answered call is in the log with its operation and its answer; a call that failed to lock is not in it.
  ghost predicate AnswersLogged(w: World) {
    forall id | 0 <= id < |w.calls| && w.calls[id].answer.Some? ::
      match w.calls[id].answer.value
      case LockFailed => forall l | 0 <= l < |w.log| :: !IsCall(w.log[l], id)
      case Answered(result) =>
        exists l | 0 <= l < |w.log| ::
          IsCall(w.log[l], id) && w.log[l].op == w.calls[id].op && w.log[l].result == result
  }

  ghost predicate LoggedOnce(w: World) {
    forall l, m, id | 0 <= l < |w.log| && 0 <= m < |w.log| && IsCall(w.log[l], id) && IsCall(w.log[m], id) :: l == m
  }

  // The log holds no call that was not made, with that operation.
  ghost predicate NothingInvented(w: World) {
    forall l | 0 <= l < |w.log| && w.log[l].Call? :: w.log[l].id < |w.calls| && w.log[l].op == w.calls[w.log[l].id].op
  }

  // Calls that did not overlap are logged in their real-time order.
  ghost predicate RealTimeOrder(w: World) {
    forall l, m | 0 <= l < |w.log| && 0 <= m < |w.log| && w.log[l].Call? && w.log[m].Call? &&
                  ReturnedBefore(w, w.log[l].id, w.log[m].id) :: l < m
  }

  /** The log of atomic actions explains everything the calls returned: it is a legal sequential history of the TTL map
      that ends in the records now stored, holds each answered call exactly once and no call that was not made, and
      respects real time. */
  ghost predicate Explains(w: World) {
    && Legal(|w.cache.slots|, w.log)
    && Replay(|w.cache.slots|, w.log) == View(w.cache.slots)
    && AnswersLogged(w) && LoggedOnce(w) && NothingInvented(w) && RealTimeOrder(w)
  }

  lemma AnswersAreLogged(w: World)
    requires CallInv(w)
    ensures AnswersLogged(w)
  {
    forall id | 0 <= id < |w.calls| && w.calls[id].answer.Some?
      ensures match w.calls[id].answer.value
              case LockFailed => forall l | 0 <= l < |w.log| :: !IsCall(w.log[l], id)
              case Answered(result) =>
                exists l | 0 <= l < |w.log| ::
                  IsCall(w.log[l], id) && w.log[l].op == w.calls[id].op && w.log[l].result == result
    {
      assert RecordSound(w, id);
      if w.calls[id].answer.value.Answered? {
        assert IsCall(w.log[w.calls[id].effect.value], id);
      }
    }
  }

  lemma LogIsInRealTimeOrder(w: World)
    requires CallInv(w)
    ensures RealTimeOrder(w)
  {
    forall l, m | 0 <= l < |w.log| && 0 <= m < |w.log| && w.log[l].Call? && w.log[m].Call? &&
                  ReturnedBefore(w, w.log[l].id, w.log[m].id)
      ensures l < m
    {
      assert RecordSound(w, w.log[l].id) && RecordSound(w, w.log[m].id);
      assert w.stamps[l] < w.stamps[m];
    }
  }

  lemma LogHasCallsOnce(w: World)
    requires CallInv(w)
    ensures LoggedOnce(w) && NothingInvented(w)
  {
    forall l | 0 <= l < |w.log| && w.log[l].Call?
      ensures w.log[l].id < |w.calls| && w.log[l].op == w.calls[w.log[l].id].op
    {
      assert RecordSound(w, w.log[l].id);
    }
  }

  lemma InvariantsExplain(w: World)
    requires SafeInv(w) && CallInv(w)
    ensures Explains(w)
  {
    AnswersAreLogged(w);
    LogHasCallsOnce(w);
    LogIsInRealTimeOrder(w);
  }

  lemma EveryRunIsLinearizable(ws: seq<World>, steps: seq<Step>, i: nat)
    requires IsRun(ws, steps) && i < |ws|
    ensures Explains(ws[i])
  {
    RunIsSafe(ws, steps, i);
    RunKeepsCalls(ws, steps, i);
    InvariantsExplain(ws[i]);
  }
}
