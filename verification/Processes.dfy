/** Any number of processes on one cache: calls as interleaved steps under the lock, with an explicit program counter
    each. A get probes one slot per step; an exclusive section is one step, since the lock shuts everyone else out,
    but what lets it run is its process's program counter alone. Module FineRuns takes the sections apart, too. */
module Processes {
  import opened CStrings
  import opened Table
  import opened TtlMap
  import opened CacheSpec
  import opened Refinement
  import opened History
  import RwLock
  import Hash

  type CallId = nat

  datatype Counter =
    | Idle
    | Wanting(id: CallId, op: Operation)                                    // before the first lock call
    | Probing(id: CallId, key: CString, i: nat)                             // shared lock; next slot to inspect
    | Decided(id: CallId, key: CString, seen: Seen, collisions: nat)        // shared lock; the read phase is over
    | WantingMetrics(id: CallId, result: Result, collisions: nat)           // before the exclusive lock
    | Counting(id: CallId, result: Result, collisions: nat)                 // exclusive lock
    | WantingPurge(id: CallId, key: CString, collisions: nat)               // before the exclusive lock
    | Purging(id: CallId, key: CString, collisions: nat)                    // exclusive lock
    | Writing(id: CallId, op: Operation)                                    // exclusive lock
    | Leaving(id: CallId, result: Result)                                   // exclusive lock; about to unlock
    | Returning(id: CallId, answer: Answer)

  // A call whose first lock call failed returns false without having looked at the cache.
  datatype Answer = Answered(result: Result) | LockFailed

  // What is recorded of a call: when it was invoked and returned, and where in the log it took effect.
  datatype CallRecord = CallRecord(op: Operation, process: nat, invoked: nat, effect: Option<nat>,
                                   returned: Option<nat>, answer: Option<Answer>)

  datatype World = World(
    cache: Cache,
    lock: RwLock.Lock,
    clock: nat,
    counters: seq<Counter>,
    // History variables: no step depends on them.
    now: nat,
    log: Log,
    stamps: seq<nat>,
    calls: seq<CallRecord>,
    uncountedHits: nat,
    uncountedMisses: nat,
    uncountedCollisions: nat)

  datatype Step =
    | Tick(to: nat)
    | Invoke(p: nat, op: Operation)
    | LockGranted(p: nat)
    | LockRefused(p: nat)
    | Probe(p: nat)
    | Act(p: nat, t0: nat, t1: nat)
    | Unlock(p: nat)
    | Return(p: nat)

  // A get that has read the table and has not been counted.
  predicate AwaitsCounting(pc: Counter) {
    pc.Decided? || pc.WantingMetrics? || pc.Counting? || pc.WantingPurge? || pc.Purging?
  }

  predicate ValidOperation(op: Operation) {
    ValidKeyArgument(op.key) && (op.Put? || op.Update? ==> ValidValueArgument(op.value))
  }

  predicate Initial(w: World) {
    && 0 < |w.cache.slots| <= MAX_CAPACITY
    && w.cache == Cache(seq(|w.cache.slots|, _ => EMPTY_ENTRY), 0, 0, 0, 0)
    && w.lock == RwLock.FREE
    && (forall p | 0 <= p < |w.counters| :: w.counters[p] == Idle)
    && w.log == [] && w.stamps == [] && w.calls == []
    && w.uncountedHits == w.uncountedMisses == w.uncountedCollisions == 0
  }

  // What may happen next. A mapped region has at least one slot; the lock calls block until the lock admits them.
  predicate Enabled(w: World, s: Step) {
    |w.cache.slots| > 0 &&
    if s.Tick? then s.to >= w.clock
    else
      s.p < |w.counters| &&
      var pc := w.counters[s.p];
      match s
      case Tick(_) => true
      case Invoke(_, op) => pc == Idle && ValidOperation(op)
      case LockGranted(_) =>
        if pc.Wanting? && pc.op.Get? then RwLock.MayRead(w.lock)
        else (pc.Wanting? || pc.WantingMetrics? || pc.WantingPurge?) && RwLock.MayWrite(w.lock)
      case LockRefused(_) => pc.Wanting? || pc.WantingMetrics? || pc.WantingPurge?
      case Probe(_) => pc.Probing?
      case Act(_, t0, t1) =>
        && (pc.Counting? || pc.Purging? || (pc.Writing? && !pc.op.Get?))
        && w.clock <= t0 <= t1 && (pc.Purging? ==> t0 == t1)
      case Unlock(_) => pc.Decided? || pc.Leaving?
      case Return(_) => pc.Returning?
  }

  function Move(w: World, p: nat, pc: Counter): World
    requires p < |w.counters|
  {
    w.(counters := w.counters[p := pc])
  }

  // The call takes effect: its action enters the log.
  function TakeEffect(w: World, e: Event): World
    requires e.Call?
  {
    var w' := w.(log := w.log + [e], stamps := w.stamps + [w.now]);
    if e.id < |w.calls| then w'.(calls := w.calls[e.id := w.calls[e.id].(effect := Some(|w.log|))]) else w'
  }

  function InvokeStep(w: World, p: nat, op: Operation): World
    requires p < |w.counters|
  {
    Move(w, p, Wanting(|w.calls|, op)).(calls := w.calls + [CallRecord(op, p, w.now, None, None, None)])
  }

  function GrantStep(w: World, p: nat): World
    requires p < |w.counters|
  {
    match w.counters[p]
    case Wanting(id, op) =>
      if op.Get? then Move(w, p, Probing(id, op.key, 0)).(lock := RwLock.AcquireRead(w.lock))
      else Move(w, p, Writing(id, op)).(lock := RwLock.AcquireWrite(w.lock))
    case WantingMetrics(id, result, collisions) =>
      Move(w, p, Counting(id, result, collisions)).(lock := RwLock.AcquireWrite(w.lock))
    case WantingPurge(id, key, collisions) =>
      Move(w, p, Purging(id, key, collisions)).(lock := RwLock.AcquireWrite(w.lock))
    case _ => w
  }

  function RefuseStep(w: World, p: nat): World
    requires p < |w.counters|
  {
    match w.counters[p]
    case Wanting(id, op) => Move(w, p, Returning(id, LockFailed))
    case WantingMetrics(id, result, collisions) =>
      Move(w, p, Returning(id, Answered(result))).(
        uncountedHits := w.uncountedHits + if result.Hit? then 1 else 0,
        uncountedMisses := w.uncountedMisses + if result.Hit? then 0 else 1,
        uncountedCollisions := w.uncountedCollisions + collisions)
    case WantingPurge(id, key, collisions) =>
      Move(w, p, Returning(id, Answered(Miss))).(
        uncountedMisses := w.uncountedMisses + 1,
        uncountedCollisions := w.uncountedCollisions + collisions)
    case _ => w
  }

  function Decide(w: World, p: nat, id: CallId, key: CString, seen: Seen, collisions: nat): World
    requires p < |w.counters|
  {
    TakeEffect(Move(w, p, Decided(id, key, seen, collisions)),
               Call(id, Get(key), w.clock, w.clock, None, GetResult(seen), collisions))
  }

  // One turn of the loop in cache_get: what it decides, with the collisions so far, or None to go on.
  function Inspect(t: Slots, key: CString, i: nat, now: nat): Option<(Seen, nat)>
    requires |t| > 0
  {
    if i >= |t| then Some((SeenNothing, |t| - 1))
    else
      var j := Pos(Hash.Start(key, |t|), i, |t|);
      if t[j].state == EMPTY then Some((SeenNothing, i))
      else if !Holds(t, j, key) then None
      else if Stale(t[j], now) then Some((SeenExpired, i))
      else Some((SeenLive(t[j].value, t[j].timestamp), i))
  }

  function ProbeStep(w: World, p: nat): World
    requires p < |w.counters| && |w.cache.slots| > 0
  {
    match w.counters[p]
    case Probing(id, key, i) =>
      (match Inspect(w.cache.slots, key, i, w.clock)
       case None => Move(w, p, Probing(id, key, i + 1))
       case Some(decision) => Decide(w, p, id, key, decision.0, decision.1))
    case _ => w
  }

  // What an operation does to the cache under the exclusive lock, the key it evicts, and what its searches cost.

  function WriteEffect(c: Cache, op: Operation, t0: nat, t1: nat): (r: (bool, Cache))
    requires |c.slots| > 0
    ensures |r.1.slots| == |c.slots|
  {
    match op
    case Put(key, value, ttl) => PutLocked(c, key, value, ttl, t0, t1)
    case Update(key, value) => UpdateLocked(c, key, value, t0, t1)
    case Delete(key) => DeleteLocked(c, key)
    case Get(_) => (false, c)
  }

  function WriteEvent(c: Cache, id: CallId, op: Operation, t0: nat, t1: nat): Event
    requires |c.slots| > 0
  {
    var ok := WriteEffect(c, op, t0, t1).0;
    if op.Put? then PutEvent(c, id, op, t0, t1, ok)
    else Call(id, op, t0, t1, None, Done(ok), Collisions(c.slots, op.key))
  }

  function WriteStep(w: World, p: nat, id: CallId, op: Operation, t0: nat, t1: nat): World
    requires p < |w.counters| && |w.cache.slots| > 0
  {
    var (ok, c') := WriteEffect(w.cache, op, t0, t1);
    Effected(w, p, id, ok, c', t1, WriteEvent(w.cache, id, op, t0, t1))
  }

  // The section of call id has answered ok, left the cache as c' and taken effect with e.
  function Effected(w: World, p: nat, id: CallId, ok: bool, c': Cache, now: nat, e: Event): World
    requires p < |w.counters| && e.Call?
  {
    TakeEffect(Move(w, p, Leaving(id, Done(ok))).(cache := c', clock := now), e)
  }

  function PurgeStep(w: World, p: nat, id: CallId, key: CString, collisions: nat, now: nat): World
    requires p < |w.counters|
  {
    var w' := Move(w, p, Leaving(id, Miss)).(cache := PurgeLocked(w.cache, key, collisions, now), clock := now);
    var j := Find(w.cache.slots, key);
    if j >= 0 && Stale(w.cache.slots[j], now)
    then w'.(log := w.log + [Purged(key, now)], stamps := w.stamps + [w.now])
    else w'
  }

  function ActStep(w: World, p: nat, t0: nat, t1: nat): World
    requires p < |w.counters| && |w.cache.slots| > 0
  {
    match w.counters[p]
    case Counting(id, result, collisions) =>
      Move(w, p, Leaving(id, result)).(cache := CountGet(w.cache, result.Hit?, collisions), clock := t1)
    case Purging(id, key, collisions) => PurgeStep(w, p, id, key, collisions, t1)
    case Writing(id, op) => WriteStep(w, p, id, op, t0, t1)
    case _ => w
  }

  function UnlockStep(w: World, p: nat): World
    requires p < |w.counters|
  {
    var w' := w.(lock := RwLock.Release(w.lock));
    match w.counters[p]
    case Decided(id, key, seen, collisions) =>
      if seen.SeenExpired? then Move(w', p, WantingPurge(id, key, collisions))
      else Move(w', p, WantingMetrics(id, GetResult(seen), collisions))
    case Leaving(id, result) => Move(w', p, Returning(id, Answered(result)))
    case _ => w
  }

  function ReturnStep(w: World, p: nat): World
    requires p < |w.counters|
  {
    match w.counters[p]
    case Returning(id, answer) =>
      var w' := Move(w, p, Idle);
      if id >= |w.calls| then w'
      else w'.(calls := w.calls[id := w.calls[id].(returned := Some(w.now), answer := Some(answer))])
    case _ => w
  }

  function Next(w: World, s: Step): World
    requires Enabled(w, s)
  {
    var w' := match s
      case Tick(to) => w.(clock := to)
      case Invoke(p, op) => InvokeStep(w, p, op)
      case LockGranted(p) => GrantStep(w, p)
      case LockRefused(p) => RefuseStep(w, p)
      case Probe(p) => ProbeStep(w, p)
      case Act(p, t0, t1) => ActStep(w, p, t0, t1)
      case Unlock(p) => UnlockStep(w, p)
      case Return(p) => ReturnStep(w, p);
    w'.(now := w.now + 1)
  }

  // A run from an empty cache, state by state.
  ghost predicate IsRun(ws: seq<World>, steps: seq<Step>) {
    && |ws| == |steps| + 1
    && Initial(ws[0])
    && forall i | 0 <= i < |steps| :: Enabled(ws[i], steps[i]) && ws[i + 1] == Next(ws[i], steps[i])
  }

  // ---- Sums over the processes ----

  function Sum(f: Counter -> nat, counters: seq<Counter>): nat {
    if counters == [] then 0 else f(counters[0]) + Sum(f, counters[1..])
  }

  lemma {:induction false} SumMove(f: Counter -> nat, counters: seq<Counter>, p: nat, pc: Counter)
    requires p < |counters|
    ensures Sum(f, counters[p := pc]) == Sum(f, counters) - f(counters[p]) + f(pc)
    ensures f(counters[p]) <= Sum(f, counters)
  {
    if p > 0 {
      SumMove(f, counters[1..], p - 1, pc);
      assert counters[p := pc][1..] == counters[1..][p - 1 := pc];
    } else {
      assert counters[p := pc][1..] == counters[1..];
    }
  }

  lemma {:induction false} SumTwo(f: Counter -> nat, counters: seq<Counter>, p: nat, q: nat)
    requires p < q < |counters|
    ensures f(counters[p]) + f(counters[q]) <= Sum(f, counters)
  {
    if p == 0 {
      SumMove(f, counters[1..], q - 1, counters[q]);
    } else {
      SumTwo(f, counters[1..], p - 1, q - 1);
    }
  }

  lemma {:induction false} SumZero(f: Counter -> nat, counters: seq<Counter>)
    requires forall p | 0 <= p < |counters| :: f(counters[p]) == 0
    ensures Sum(f, counters) == 0
  {
    if counters == [] {
    } else {
      SumZero(f, counters[1..]);
    }
  }
}
