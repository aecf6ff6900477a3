/** Mutual exclusion over all runs: who holds the lock is read off the program counters, and it never conflicts. */
module LockSafety {
  import opened Processes
  import opened RwLock

  // Between a granted read lock and its unlock.
  function HoldsRead(pc: Counter): nat {
    if pc.Probing? || pc.Decided? then 1 else 0
  }

  // Between a granted write lock and its unlock.
  function HoldsWrite(pc: Counter): nat {
    if pc.Counting? || pc.Purging? || pc.Writing? || pc.Leaving? then 1 else 0
  }

  // The lock word counts exactly the holders, and never a writer beside anyone else.
  ghost predicate LockInv(w: World) {
    && w.lock.readers == Sum(HoldsRead, w.counters)
    && (if w.lock.writer then 1 else 0) == Sum(HoldsWrite, w.counters)
    && (w.lock.writer ==> w.lock.readers == 0)
  }

  lemma LockInvInitial(w: World)
    requires Initial(w)
    ensures LockInv(w)
  {
    SumZero(HoldsRead, w.counters);
    SumZero(HoldsWrite, w.counters);
  }

  // What a step of p does to the holds of p, it does to the lock word.
  predicate MovesLock(w: World, w': World, p: nat) {
    && p < |w.counters| && |w'.counters| == |w.counters| && w'.counters == w.counters[p := w'.counters[p]]
    && w'.lock.readers == w.lock.readers + HoldsRead(w'.counters[p]) - HoldsRead(w.counters[p])
    && (if w'.lock.writer then 1 else 0) ==
         (if w.lock.writer then 1 else 0) + HoldsWrite(w'.counters[p]) - HoldsWrite(w.counters[p])
    && (w'.lock.writer ==> w'.lock.readers == 0)
  }

  lemma GrantMovesLock(w: World, p: nat)
    requires LockInv(w) && Enabled(w, LockGranted(p))
    ensures MovesLock(w, GrantStep(w, p), p)
  {
  }

  lemma UnlockMovesLock(w: World, p: nat)
    requires LockInv(w) && Enabled(w, Unlock(p))
    ensures MovesLock(w, UnlockStep(w, p), p)
  {
    HolderIsCounted(w, p);
  }

  // Every other step leaves the lock, and its process's hold on it, alone.

  lemma ActKeepsLock(w: World, p: nat, t0: nat, t1: nat)
    requires LockInv(w) && Enabled(w, Act(p, t0, t1))
    ensures MovesLock(w, ActStep(w, p, t0, t1), p)
  {
  }

  lemma ProbeKeepsLock(w: World, p: nat)
    requires LockInv(w) && Enabled(w, Probe(p))
    ensures MovesLock(w, ProbeStep(w, p), p)
  {
  }

  lemma OutsideKeepsLock(w: World, s: Step)
    requires LockInv(w) && Enabled(w, s) && (s.Invoke? || s.LockRefused? || s.Return?)
    ensures MovesLock(w, Next(w, s), s.p)
  {
  }

  lemma BalanceLock(w: World, w': World, p: nat)
    requires LockInv(w) && MovesLock(w, w', p)
    ensures LockInv(w')
  {
    SumMove(HoldsRead, w.counters, p, w'.counters[p]);
    SumMove(HoldsWrite, w.counters, p, w'.counters[p]);
  }

  lemma LockInvStep(w: World, s: Step)
    requires LockInv(w) && Enabled(w, s)
    ensures LockInv(Next(w, s))
  {
    match s
    case Tick(_) =>
    case LockGranted(p) =>
      GrantMovesLock(w, p);
      BalanceLock(w, GrantStep(w, p), p);
    case Unlock(p) =>
      UnlockMovesLock(w, p);
      BalanceLock(w, UnlockStep(w, p), p);
    case Act(p, t0, t1) =>
      ActKeepsLock(w, p, t0, t1);
      BalanceLock(w, ActStep(w, p, t0, t1), p);
    case Probe(p) =>
      ProbeKeepsLock(w, p);
      BalanceLock(w, ProbeStep(w, p), p);
    case _ =>
      OutsideKeepsLock(w, s);
      BalanceLock(w, Next(w, s), s.p);
  }

  // While one process writes, no other process holds the lock in any way.
  lemma WriterIsAlone(w: World, p: nat, q: nat)
    requires LockInv(w) && p < |w.counters| && q < |w.counters| && p != q && HoldsWrite(w.counters[p]) == 1
    ensures w.lock == Lock(0, true)
    ensures HoldsRead(w.counters[q]) == 0 && HoldsWrite(w.counters[q]) == 0
  {
    SumTwo(HoldsWrite, w.counters, if p < q then p else q, if p < q then q else p);
    SumMove(HoldsRead, w.counters, q, w.counters[q]);
  }

  lemma HolderIsCounted(w: World, p: nat)
    requires LockInv(w) && p < |w.counters|
    ensures HoldsWrite(w.counters[p]) == 1 ==> w.lock.writer
    ensures HoldsRead(w.counters[p]) == 1 ==> w.lock.readers > 0 && !w.lock.writer
  {
    SumMove(HoldsRead, w.counters, p, w.counters[p]);
    SumMove(HoldsWrite, w.counters, p, w.counters[p]);
  }

  lemma {:induction false} SumIsZeroIff(f: Counter -> nat, counters: seq<Counter>)
    ensures Sum(f, counters) == 0 <==> forall p | 0 <= p < |counters| :: f(counters[p]) == 0
  {
    if counters == [] {
    } else {
      SumIsZeroIff(f, counters[1..]);
      assert forall p | 1 <= p < |counters| :: counters[p] == counters[1..][p - 1];
    }
  }

  /** Readers share the lock and writers do not: a get may start reading exactly if nobody is writing, everything else
      may take the lock exactly if nobody holds it; and any lock call may fail. */
  lemma LockAdmits(w: World, p: nat)
    requires LockInv(w) && p < |w.counters| && |w.cache.slots| > 0
    requires w.counters[p].Wanting? || w.counters[p].WantingMetrics? || w.counters[p].WantingPurge?
    ensures Enabled(w, LockGranted(p)) <==>
            forall q | 0 <= q < |w.counters| :: HoldsWrite(w.counters[q]) == 0 &&
              (HoldsRead(w.counters[q]) == 0 || (w.counters[p].Wanting? && w.counters[p].op.Get?))
    ensures Enabled(w, LockRefused(p))
  {
    SumIsZeroIff(HoldsWrite, w.counters);
    SumIsZeroIff(HoldsRead, w.counters);
  }

  // Slots and counters are read only under the lock and written only under the exclusive lock; an unlock releases the
  // hold of its own process, which has exactly one, of the kind the lock word shows; a call returns without any.
  lemma LockDiscipline(w: World, s: Step)
    requires LockInv(w) && Enabled(w, s)
    ensures s.Probe? ==> w.lock.readers > 0 && !w.lock.writer
    ensures s.Act? ==> w.lock == Lock(0, true)
    ensures Next(w, s).cache != w.cache ==> s.Act?
    ensures s.Unlock? ==>
              && HoldsRead(w.counters[s.p]) + HoldsWrite(w.counters[s.p]) == 1
              && (HoldsRead(w.counters[s.p]) == 1 ==> w.lock.readers > 0 && !w.lock.writer)
              && (HoldsWrite(w.counters[s.p]) == 1 ==> w.lock == Lock(0, true))
              && HoldsRead(Next(w, s).counters[s.p]) + HoldsWrite(Next(w, s).counters[s.p]) == 0
    ensures s.Return? ==> HoldsRead(w.counters[s.p]) == 0 && HoldsWrite(w.counters[s.p]) == 0
  {
    if !s.Tick? {
      HolderIsCounted(w, s.p);
    }
  }
}
