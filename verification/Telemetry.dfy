/** The shared counters over whole runs: what they show, with what gets have yet to report or were refused to, is what
    the finished reads and the searches of writes add up to. */
module Telemetry {
  import opened Table
  import opened TtlMap
  import opened CacheSpec
  import opened Refinement
  import opened History
  import opened Processes
  import opened RunSafety

  predicate GetHit(e: Event) {
    e.Call? && e.op.Get? && e.result.Hit?
  }

  predicate GetMiss(e: Event) {
    e.Call? && e.op.Get? && !e.result.Hit?
  }

  function Hits(log: Log): nat {
    if log == [] then 0 else Hits(log[..|log| - 1]) + if GetHit(log[|log| - 1]) then 1 else 0
  }

  function Misses(log: Log): nat {
    if log == [] then 0 else Misses(log[..|log| - 1]) + if GetMiss(log[|log| - 1]) then 1 else 0
  }

  function Cost(log: Log): nat {
    if log == [] then 0
    else
      var e := log[|log| - 1];
      Cost(log[..|log| - 1]) + if e.Call? then e.cost else 0
  }

  // A get whose read phase is over and that has yet to be counted: as a hit, as a miss, and with how many collisions.

  function AwaitsHit(pc: Counter): nat {
    match pc
    case Decided(_, _, seen, _) => if seen.SeenLive? then 1 else 0
    case WantingMetrics(_, result, _) => if result.Hit? then 1 else 0
    case Counting(_, result, _) => if result.Hit? then 1 else 0
    case _ => 0
  }

  function AwaitsMiss(pc: Counter): nat {
    match pc
    case Decided(_, _, seen, _) => if seen.SeenLive? then 0 else 1
    case WantingMetrics(_, result, _) => if result.Hit? then 0 else 1
    case Counting(_, result, _) => if result.Hit? then 0 else 1
    case WantingPurge(_, _, _) => 1
    case Purging(_, _, _) => 1
    case _ => 0
  }

  function AwaitsCost(pc: Counter): nat {
    match pc
    case Decided(_, _, _, collisions) => collisions
    case WantingMetrics(_, _, collisions) => collisions
    case Counting(_, _, collisions) => collisions
    case WantingPurge(_, _, collisions) => collisions
    case Purging(_, _, collisions) => collisions
    case _ => 0
  }

  // Counted, refused a lock while being counted, or still waiting: that is every get that has read, once.
  ghost predicate CountersInv(w: World) {
    && w.cache.hits + w.uncountedHits + Sum(AwaitsHit, w.counters) == Hits(w.log)
    && w.cache.misses + w.uncountedMisses + Sum(AwaitsMiss, w.counters) == Misses(w.log)
    && w.cache.collisions + w.uncountedCollisions + Sum(AwaitsCost, w.counters) == Cost(w.log)
  }

  lemma LogGrows(log: Log, e: Event)
    ensures Hits(log + [e]) == Hits(log) + if GetHit(e) then 1 else 0
    ensures Misses(log + [e]) == Misses(log) + if GetMiss(e) then 1 else 0
    ensures Cost(log + [e]) == Cost(log) + if e.Call? then e.cost else 0
  {
    assert (log + [e])[..|log|] == log;
  }

  // The three balances after a step that changes one program counter, given what it adds to each side.
  lemma Balance(w: World, w': World, p: nat)
    requires CountersInv(w) && p < |w.counters|
    requires |w'.counters| == |w.counters| && w'.counters == w.counters[p := w'.counters[p]]
    requires w'.log == w.log || (|w'.log| == |w.log| + 1 && w'.log[..|w.log|] == w.log)
    requires var pc, pc' := w.counters[p], w'.counters[p];
             var hit := if w'.log != w.log && GetHit(w'.log[|w.log|]) then 1 else 0;
             var miss := if w'.log != w.log && GetMiss(w'.log[|w.log|]) then 1 else 0;
             var cost := if w'.log != w.log && w'.log[|w.log|].Call? then w'.log[|w.log|].cost else 0;
             && w'.cache.hits + w'.uncountedHits + AwaitsHit(pc') ==
                  w.cache.hits + w.uncountedHits + AwaitsHit(pc) + hit
             && w'.cache.misses + w'.uncountedMisses + AwaitsMiss(pc') ==
                  w.cache.misses + w.uncountedMisses + AwaitsMiss(pc) + miss
             && w'.cache.collisions + w'.uncountedCollisions + AwaitsCost(pc') ==
                  w.cache.collisions + w.uncountedCollisions + AwaitsCost(pc) + cost
    ensures CountersInv(w')
  {
    SumMove(AwaitsHit, w.counters, p, w'.counters[p]);
    SumMove(AwaitsMiss, w.counters, p, w'.counters[p]);
    SumMove(AwaitsCost, w.counters, p, w'.counters[p]);
    if w'.log != w.log {
      assert w'.log == w.log + [w'.log[|w.log|]];
      LogGrows(w.log, w'.log[|w.log|]);
    }
  }

  lemma WriteEffectCounts(c: Cache, id: CallId, op: Operation, t0: nat, t1: nat)
    requires |c.slots| > 0 && !op.Get?
    ensures Counts(c, WriteEffect(c, op, t0, t1).1, WriteEvent(c, id, op, t0, t1).cost)
  {
    match op
    case Put(key, value, ttl) => PutCounts(c, key, value, ttl, t0, t1);
    case Update(_, _) =>
    case Delete(_) =>
  }

  lemma WritingBalances(w: World, p: nat, t0: nat, t1: nat)
    requires CountersInv(w) && Enabled(w, Act(p, t0, t1)) && w.counters[p].Writing?
    ensures CountersInv(ActStep(w, p, t0, t1))
  {
    WriteEffectCounts(w.cache, w.counters[p].id, w.counters[p].op, t0, t1);
    Balance(w, ActStep(w, p, t0, t1), p);
  }

  lemma ActBalances(w: World, p: nat, t0: nat, t1: nat)
    requires CountersInv(w) && Enabled(w, Act(p, t0, t1))
    ensures CountersInv(ActStep(w, p, t0, t1))
  {
    if w.counters[p].Writing? {
      WritingBalances(w, p, t0, t1);
    } else {
      Balance(w, ActStep(w, p, t0, t1), p);
    }
  }

  lemma ProbeBalances(w: World, p: nat)
    requires CountersInv(w) && Enabled(w, Probe(p))
    ensures CountersInv(ProbeStep(w, p))
  {
    Balance(w, ProbeStep(w, p), p);
  }

  lemma GrantBalances(w: World, p: nat)
    requires CountersInv(w) && Enabled(w, LockGranted(p))
    ensures CountersInv(GrantStep(w, p))
  {
    Balance(w, GrantStep(w, p), p);
  }

  lemma RefuseBalances(w: World, p: nat)
    requires CountersInv(w) && Enabled(w, LockRefused(p))
    ensures CountersInv(RefuseStep(w, p))
  {
    Balance(w, RefuseStep(w, p), p);
  }

  lemma UnlockBalances(w: World, p: nat)
    requires CountersInv(w) && Enabled(w, Unlock(p))
    ensures CountersInv(UnlockStep(w, p))
  {
    Balance(w, UnlockStep(w, p), p);
  }

  lemma CallBoundaryBalances(w: World, s: Step)
    requires CountersInv(w) && Enabled(w, s) && (s.Invoke? || s.Return?)
    ensures CountersInv(Next(w, s))
  {
    Balance(w, Next(w, s), s.p);
  }

  lemma CountersStep(w: World, s: Step)
    requires CountersInv(w) && Enabled(w, s)
    ensures CountersInv(Next(w, s))
  {
    match s
    case Tick(_) =>
    case Invoke(_, _) => CallBoundaryBalances(w, s);
    case Return(_) => CallBoundaryBalances(w, s);
    case LockGranted(p) => GrantBalances(w, p);
    case LockRefused(p) => RefuseBalances(w, p);
    case Probe(p) => ProbeBalances(w, p);
    case Act(p, t0, t1) => ActBalances(w, p, t0, t1);
    case Unlock(p) => UnlockBalances(w, p);
  }

  lemma {:induction false} RunKeepsCounters(ws: seq<World>, steps: seq<Step>, i: nat)
    requires IsRun(ws, steps) && i < |ws|
    ensures CountersInv(ws[i])
  {
    if i == 0 {
      SumZero(AwaitsHit, ws[0].counters);
      SumZero(AwaitsMiss, ws[0].counters);
      SumZero(AwaitsCost, ws[0].counters);
    } else {
      RunKeepsCounters(ws, steps, i - 1);
      CountersStep(ws[i - 1], steps[i - 1]);
    }
  }

  // The cost a read logs is that of its one search; the second search of an expired get is never counted.
  lemma LoggedReadCost(w: World, p: nat)
    requires SafeInv(w) && Enabled(w, Probe(p)) && ProbeStep(w, p).counters[p].Decided?
    ensures var pc, e := w.counters[p], ProbeStep(w, p).log[|w.log|];
            e.Call? && e.op == Get(pc.key) && e.cost == Collisions(w.cache.slots, pc.key)
  {
    var pc := w.counters[p];
    assert ProbeSound(w.cache.slots, pc);
    InspectDecides(w.cache.slots, pc.key, pc.i, w.clock);
  }
}
