/** What callers see of a run, call by call, and the log that explains it: linearizability in terms of calls and answers
    alone. */
module Traces {
  import opened TtlMap
  import opened History
  import opened Processes
  import opened Linearizability

  datatype Visible = Called(id: CallId, p: nat, op: Operation) | Returned(id: CallId, p: nat, answer: Answer)

  function Shows(w: World, s: Step): seq<Visible> {
    match s
    case Invoke(p, op) => [Called(|w.calls|, p, op)]
    case Return(p) =>
      if p < |w.counters| && w.counters[p].Returning? then [Returned(w.counters[p].id, p, w.counters[p].answer)] else []
    case _ => []
  }

  function Trace(ws: seq<World>, steps: seq<Step>): seq<Visible>
    requires |ws| == |steps| + 1
  {
    if steps == [] then []
    else
      var n := |steps| - 1;
      Trace(ws[..n + 1], steps[..n]) + Shows(ws[n], steps[n])
  }

  // The log contains each answered call with its answer, and no call that could not lock.
  ghost predicate AnswersInLog(log: Log, trace: seq<Visible>) {
    forall v | v in trace && v.Returned? :: AnswerInLog(log, v.id, v.answer)
  }

  ghost predicate AnswerInLog(log: Log, id: CallId, answer: Answer) {
    match answer
    case LockFailed => forall l | 0 <= l < |log| :: !IsCall(log[l], id)
    case Answered(result) => exists l | 0 <= l < |log| :: IsCall(log[l], id) && log[l].result == result
  }

  // It contains only calls that were made, with their operation.
  ghost predicate OnlyCallsMade(log: Log, trace: seq<Visible>) {
    forall l | 0 <= l < |log| && log[l].Call? ::
      exists v | v in trace :: v.Called? && v.id == log[l].id && v.op == log[l].op
  }

  // It contains no call twice.
  ghost predicate EachOnce(log: Log) {
    forall l, m | 0 <= l < |log| && 0 <= m < |log| && log[l].Call? && log[m].Call? && log[l].id == log[m].id :: l == m
  }

  // A call that returned before another was made comes before it.
  ghost predicate InOrder(log: Log, trace: seq<Visible>) {
    forall i, j, l, m | 0 <= i < j < |trace| && trace[i].Returned? && trace[j].Called? &&
                        0 <= l < |log| && 0 <= m < |log| &&
                        IsCall(log[l], trace[i].id) && IsCall(log[m], trace[j].id) ::
      l < m
  }

  ghost predicate ExplainsTrace(log: Log, trace: seq<Visible>) {
    AnswersInLog(log, trace) && OnlyCallsMade(log, trace) && EachOnce(log) && InOrder(log, trace)
  }

  // When something visible happened, according to the records.
  function TimeOf(w: World, v: Visible): nat {
    if v.id >= |w.calls| then 0
    else if v.Called? then w.calls[v.id].invoked
    else if w.calls[v.id].returned.Some? then w.calls[v.id].returned.value
    else 0
  }

  predicate Recorded(w: World, v: Visible) {
    && v.id < |w.calls| && w.calls[v.id].process == v.p
    && match v
       case Called(id, _, op) => w.calls[id].op == op
       case Returned(id, _, answer) => w.calls[id].answer == Some(answer)
  }

  // The records and the trace tell the same story, in the same order.
  ghost predicate TraceInv(w: World, trace: seq<Visible>) {
    && (forall i | 0 <= i < |trace| :: Recorded(w, trace[i]) && TimeOf(w, trace[i]) < w.now)
    && (forall i, j | 0 <= i < j < |trace| :: TimeOf(w, trace[i]) < TimeOf(w, trace[j]))
    && (forall id | 0 <= id < |w.calls| :: Called(id, w.calls[id].process, w.calls[id].op) in trace)
  }

  // A step between calls and returns changes nothing that is visible.
  predicate SameStory(w: World, w': World) {
    && |w'.calls| == |w.calls| && w'.now >= w.now
    && forall id | 0 <= id < |w.calls| :: w'.calls[id] == w.calls[id].(effect := w'.calls[id].effect)
  }

  lemma SameStoryKeeps(w: World, w': World, trace: seq<Visible>)
    requires TraceInv(w, trace) && SameStory(w, w')
    ensures TraceInv(w', trace)
  {
    forall i | 0 <= i < |trace| ensures Recorded(w', trace[i]) && TimeOf(w', trace[i]) == TimeOf(w, trace[i]) {
      assert Recorded(w, trace[i]);
    }
  }

  lemma QuietStepKeepsStory(w: World, s: Step)
    requires Enabled(w, s) && !s.Invoke? && !s.Return?
    ensures SameStory(w, Next(w, s)) && Shows(w, s) == []
  {
  }

  lemma InvokeKeepsTrace(w: World, p: nat, op: Operation, trace: seq<Visible>)
    requires TraceInv(w, trace) && Enabled(w, Invoke(p, op))
    ensures TraceInv(Next(w, Invoke(p, op)), trace + [Called(|w.calls|, p, op)])
  {
    var w', v := Next(w, Invoke(p, op)), Called(|w.calls|, p, op);
    forall i | 0 <= i < |trace| ensures Recorded(w', trace[i]) && TimeOf(w', trace[i]) == TimeOf(w, trace[i]) {
      assert Recorded(w, trace[i]);
    }
    forall id | 0 <= id < |w'.calls| ensures Called(id, w'.calls[id].process, w'.calls[id].op) in trace + [v] {
      if id < |w.calls| {
        assert Called(id, w.calls[id].process, w.calls[id].op) in trace;
      }
    }
  }

  lemma ReturnKeepsTrace(w: World, w': World, p: nat, id: CallId, answer: Answer, trace: seq<Visible>)
    requires TraceInv(w, trace) && id < |w.calls| && w.calls[id].process == p && w.calls[id].answer == None
    requires w'.calls == w.calls[id := w.calls[id].(returned := Some(w.now), answer := Some(answer))]
    requires w'.now == w.now + 1
    ensures TraceInv(w', trace + [Returned(id, p, answer)])
  {
    forall i | 0 <= i < |trace| ensures Recorded(w', trace[i]) && TimeOf(w', trace[i]) == TimeOf(w, trace[i]) {
      assert Recorded(w, trace[i]);
    }
    forall a | 0 <= a < |w'.calls|
      ensures Called(a, w'.calls[a].process, w'.calls[a].op) in trace + [Returned(id, p, answer)]
    {
      assert Called(a, w.calls[a].process, w.calls[a].op) in trace;
    }
  }

  lemma TraceStep(w: World, s: Step, trace: seq<Visible>)
    requires CallInv(w) && TraceInv(w, trace) && Enabled(w, s)
    ensures TraceInv(Next(w, s), trace + Shows(w, s))
  {
    match s
    case Invoke(p, op) => InvokeKeepsTrace(w, p, op, trace);
    case Return(p) =>
      var pc := w.counters[p];
      assert ActiveSound(w, p);
      assert RecordSound(w, pc.id);
      ReturnKeepsTrace(w, Next(w, s), p, pc.id, pc.answer, trace);
    case _ =>
      QuietStepKeepsStory(w, s);
      SameStoryKeeps(w, Next(w, s), trace);
      assert trace + [] == trace;
  }

  lemma RunExtends(ws: seq<World>, steps: seq<Step>, s: Step, w': World)
    requires IsRun(ws, steps) && Enabled(ws[|steps|], s) && w' == Next(ws[|steps|], s)
    ensures IsRun(ws + [w'], steps + [s])
  {
  }

  lemma TraceExtends(ws: seq<World>, steps: seq<Step>, s: Step, w': World)
    requires |ws| == |steps| + 1
    ensures Trace(ws + [w'], steps + [s]) == Trace(ws, steps) + Shows(ws[|steps|], s)
  {
    assert (ws + [w'])[..|ws|] == ws && (steps + [s])[..|steps|] == steps;
  }

  lemma RunPrefix(ws: seq<World>, steps: seq<Step>)
    requires IsRun(ws, steps) && steps != []
    ensures IsRun(ws[..|steps|], steps[..|steps| - 1])
  {
  }

  lemma {:induction false} RunKeepsTrace(ws: seq<World>, steps: seq<Step>)
    requires IsRun(ws, steps)
    ensures TraceInv(ws[|steps|], Trace(ws, steps))
  {
    if steps == [] {
    } else {
      var n := |steps| - 1;
      RunPrefix(ws, steps);
      RunKeepsTrace(ws[..n + 1], steps[..n]);
      RunKeepsCalls(ws, steps, n);
      TraceStep(ws[n], steps[n], Trace(ws[..n + 1], steps[..n]));
    }
  }

  lemma AnswersExplained(w: World, trace: seq<Visible>)
    requires TraceInv(w, trace) && AnswersLogged(w)
    ensures AnswersInLog(w.log, trace)
  {
    forall v | v in trace && v.Returned? ensures AnswerInLog(w.log, v.id, v.answer) {
      var i :| 0 <= i < |trace| && trace[i] == v;
      assert Recorded(w, trace[i]);
      assert w.calls[v.id].answer.Some?;
    }
  }

  lemma CallsExplained(w: World, trace: seq<Visible>)
    requires TraceInv(w, trace) && NothingInvented(w) && LoggedOnce(w)
    ensures OnlyCallsMade(w.log, trace) && EachOnce(w.log)
  {
    forall l | 0 <= l < |w.log| && w.log[l].Call?
      ensures exists v | v in trace :: v.Called? && v.id == w.log[l].id && v.op == w.log[l].op
    {
      var id := w.log[l].id;
      assert Called(id, w.calls[id].process, w.calls[id].op) in trace;
    }
    forall l, m | 0 <= l < |w.log| && 0 <= m < |w.log| && w.log[l].Call? && w.log[m].Call? && w.log[l].id == w.log[m].id
      ensures l == m
    {
      assert IsCall(w.log[l], w.log[l].id) && IsCall(w.log[m], w.log[l].id);
    }
  }

  lemma OrderExplained(w: World, trace: seq<Visible>)
    requires CallInv(w) && TraceInv(w, trace) && RealTimeOrder(w)
    ensures InOrder(w.log, trace)
  {
    forall i, j, l, m | 0 <= i < j < |trace| && trace[i].Returned? && trace[j].Called? &&
                        0 <= l < |w.log| && 0 <= m < |w.log| && IsCall(w.log[l], trace[i].id) &&
                        IsCall(w.log[m], trace[j].id)
      ensures l < m
    {
      assert Recorded(w, trace[i]) && Recorded(w, trace[j]) && TimeOf(w, trace[i]) < TimeOf(w, trace[j]);
      assert RecordSound(w, trace[i].id);
      assert ReturnedBefore(w, w.log[l].id, w.log[m].id);
    }
  }

  lemma RecordsExplainTrace(w: World, trace: seq<Visible>)
    requires CallInv(w) && TraceInv(w, trace) && Explains(w)
    ensures ExplainsTrace(w.log, trace)
  {
    AnswersExplained(w, trace);
    CallsExplained(w, trace);
    OrderExplained(w, trace);
  }

  // The log of a run explains what callers have seen of it.
  lemma RunTraceExplained(ws: seq<World>, steps: seq<Step>)
    requires IsRun(ws, steps)
    ensures ExplainsTrace(ws[|steps|].log, Trace(ws, steps))
  {
    EveryRunIsLinearizable(ws, steps, |steps|);
    RunKeepsCalls(ws, steps, |steps|);
    RunKeepsTrace(ws, steps);
    RecordsExplainTrace(ws[|steps|], Trace(ws, steps));
  }
}
