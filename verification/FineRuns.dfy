/** Runs in which the exclusive sections, too, take one slot per step, while other processes and the clock go on. What
    callers see of such a run, they see of a run in which every exclusive section is one step. */
module FineRuns {
  import opened TtlMap
  import opened CacheSpec
  import opened Refinement
  import opened History
  import opened Processes
  import opened LockSafety
  import opened RunSafety
  import opened Traces
  import opened Liveness
  import opened Sections
  import RwLock

  // Where each process is in its exclusive section. The history variables of world are not kept.
  datatype Fine = Fine(world: World, sections: seq<Section>)

  // A step as before, or a turn of an exclusive section. Counting a get touches no slot and is one step.
  datatype FineStep = Whole(step: Step) | Turn(p: nat)

  predicate InSection(pc: Counter) {
    pc.Purging? || (pc.Writing? && !pc.op.Get?)
  }

  predicate FineInitial(f: Fine) {
    Initial(f.world) && |f.sections| == |f.world.counters| && AllOutside(f)
  }

  predicate AllOutside(f: Fine) {
    forall p | 0 <= p < |f.sections| :: f.sections[p] == Outside
  }

  predicate FineEnabled(f: Fine, s: FineStep) {
    |f.sections| == |f.world.counters| &&
    match s
    case Whole(step) =>
      Enabled(f.world, step) &&
      (step.Act? ==> f.world.counters[step.p].Counting? && step.t0 == step.t1 == f.world.clock)
    case Turn(p) =>
      && |f.world.cache.slots| > 0 && p < |f.sections| && InSection(f.world.counters[p])
      && InBounds(f.sections[p], |f.world.cache.slots|)
  }

  function TurnOf(c: Cache, pc: Counter, section: Section, now: nat): Progress
    requires |c.slots| > 0 && InSection(pc) && InBounds(section, |c.slots|)
  {
    match pc
    case Purging(_, key, collisions) => PurgeTurn(c, key, collisions, section, now)
    case Writing(_, op) => WriteTurn(c, op, section, now)
  }

  function TurnStep(f: Fine, p: nat): Fine
    requires FineEnabled(f, Turn(p))
  {
    var pc := f.world.counters[p];
    match TurnOf(f.world.cache, pc, f.sections[p], f.world.clock)
    case Going(c', section') => Fine(f.world.(cache := c'), f.sections[p := section'])
    case Finished(c', ok) =>
      var result := if pc.Purging? then Miss else Done(ok);
      Fine(Move(f.world, p, Leaving(pc.id, result)).(cache := c'), f.sections[p := Outside])
  }

  function FineNext(f: Fine, s: FineStep): Fine
    requires FineEnabled(f, s)
  {
    match s
    case Whole(step) => f.(world := Next(f.world, step))
    case Turn(p) => TurnStep(f, p)
  }

  ghost predicate IsFineRun(fs: seq<Fine>, steps: seq<FineStep>) {
    && |fs| == |steps| + 1
    && FineInitial(fs[0])
    && forall i | 0 <= i < |steps| :: FineEnabled(fs[i], steps[i]) && fs[i + 1] == FineNext(fs[i], steps[i])
  }

  // ---- What callers see ----

  function FineShows(f: Fine, s: FineStep): seq<Visible> {
    match s
    case Whole(step) => Shows(f.world, step)
    case Turn(_) => []
  }

  function FineTrace(fs: seq<Fine>, steps: seq<FineStep>): seq<Visible>
    requires |fs| == |steps| + 1
  {
    if steps == [] then []
    else
      var n := |steps| - 1;
      FineTrace(fs[..n + 1], steps[..n]) + FineShows(fs[n], steps[n])
  }

  // ---- The simulation ----

  // What the section has done so far to the cache c0 it began with.
  ghost predicate SectionSound(c0: Cache, c: Cache, pc: Counter, section: Section)
    requires |c0.slots| > 0
  {
    match pc
    case Purging(_, key, _) => LookingSound(c0, c, key, section)
    case Writing(_, op) => WriteSound(c0, c, op, section)
    case _ => false
  }

  // w is as f, but for a section that is under way: for w it has not begun.
  ghost predicate UnderWay(f: Fine, w: World, p: nat)
    requires p < |f.sections| == |f.world.counters|
  {
    && 0 < |w.cache.slots| && InBounds(f.sections[p], |f.world.cache.slots|)
    && SectionSound(w.cache, f.world.cache, f.world.counters[p], f.sections[p])
    && Timely(f.sections[p], w.clock, f.world.clock)
  }

  predicate SameShell(a: World, b: World) {
    && a.lock == b.lock && a.counters == b.counters && |a.calls| == |b.calls|
    && |a.cache.slots| == |b.cache.slots|
  }

  predicate Alike(a: World, b: World) {
    SameShell(a, b) && a.cache == b.cache && a.clock == b.clock
  }

  ghost predicate Tracks(f: Fine, w: World) {
    && |f.sections| == |f.world.counters| && SameShell(f.world, w)
    && (forall p | 0 <= p < |f.sections| && f.sections[p] != Outside ::
          InSection(f.world.counters[p]) && UnderWay(f, w, p))
    && (AllOutside(f) ==> Alike(f.world, w))
  }

  // Mutual exclusion: while p is in its section, nobody else is anywhere in one.
  lemma OthersOutside(f: Fine, w: World, p: nat)
    requires LockInv(w) && Tracks(f, w) && p < |f.sections| && InSection(f.world.counters[p])
    ensures forall q | 0 <= q < |f.sections| && q != p :: f.sections[q] == Outside && !InSection(f.world.counters[q])
    ensures w.lock == RwLock.Lock(0, true)
  {
    HolderIsCounted(w, p);
    forall q | 0 <= q < |f.sections| && q != p ensures f.sections[q] == Outside && !InSection(f.world.counters[q]) {
      WriterIsAlone(w, p, q);
    }
  }

  lemma SectionUnderWay(f: Fine, w: World, p: nat)
    requires SafeInv(w) && Tracks(f, w) && p < |f.sections| && InSection(f.world.counters[p])
    ensures UnderWay(f, w, p)
  {
    if f.sections[p] == Outside {
      OthersOutside(f, w, p);
      assert AllOutside(f);
    }
  }

  // A turn keeps its section sound, or completes the section as one step of w would.
  ghost predicate Completes(w: World, w': World, p: nat, pc: Counter, section: Section, now: nat, progress: Progress)
    requires |w.cache.slots| > 0
  {
    match progress
    case Going(c', section') =>
      && w' == w && section' != Outside && |c'.slots| == |w.cache.slots| && InBounds(section', |c'.slots|)
      && SectionSound(w.cache, c', pc, section') && Timely(section', w.clock, now)
    case Finished(c', ok) =>
      p < |w.counters| && InSection(pc) &&
      SameShell(w', Move(w, p, Leaving(pc.id, if pc.Purging? then Miss else Done(ok)))) &&
      w'.cache == c' && w'.clock == now
  }

  // The step of w that a turn of p amounts to, if it ends the section.
  function EndingStep(f: Fine, p: nat): Step
    requires p < |f.sections| && p < |f.world.counters|
  {
    var now := f.world.clock;
    Act(p, if f.world.counters[p].Purging? then now else FirstReading(f.sections[p], now), now)
  }

  lemma WritingTurn(f: Fine, w: World, w': World, p: nat)
    requires SafeInv(w) && FineEnabled(f, Turn(p)) && SameShell(f.world, w) && UnderWay(f, w, p)
    requires f.world.counters[p].Writing?
    requires Enabled(w, EndingStep(f, p))
    requires var pc := f.world.counters[p];
             w' == if WriteTurn(f.world.cache, pc.op, f.sections[p], f.world.clock).Going? then w
                   else ActStep(w, p, EndingStep(f, p).t0, f.world.clock)
    ensures var pc := f.world.counters[p];
            Completes(w, w', p, pc, f.sections[p], f.world.clock,
                      WriteTurn(f.world.cache, pc.op, f.sections[p], f.world.clock))
  {
    var pc := f.world.counters[p];
    WriteTurnSound(w.cache, f.world.cache, pc.op, f.sections[p], f.world.clock);
    TurnsAreTimely(f.world.cache, pc.op, f.sections[p], w.clock, f.world.clock);
  }

  lemma PurgingTurn(f: Fine, w: World, w': World, p: nat)
    requires SafeInv(w) && FineEnabled(f, Turn(p)) && SameShell(f.world, w) && UnderWay(f, w, p)
    requires f.world.counters[p].Purging?
    requires var pc := f.world.counters[p];
             w' == if PurgeTurn(f.world.cache, pc.key, pc.collisions, f.sections[p], f.world.clock).Going? then w
                   else ActStep(w, p, f.world.clock, f.world.clock)
    ensures var pc := f.world.counters[p];
            Completes(w, w', p, pc, f.sections[p], f.world.clock,
                      PurgeTurn(f.world.cache, pc.key, pc.collisions, f.sections[p], f.world.clock))
  {
    var pc := f.world.counters[p];
    PurgeTurnSound(w.cache, f.world.cache, pc.key, pc.collisions, f.sections[p], f.world.clock);
  }

  lemma EndingStepEnabled(f: Fine, w: World, p: nat)
    requires FineEnabled(f, Turn(p)) && SameShell(f.world, w) && UnderWay(f, w, p)
    ensures Enabled(w, EndingStep(f, p))
  {
    var pc := f.world.counters[p];
    if pc.Writing? {
      TurnsAreTimely(f.world.cache, pc.op, f.sections[p], w.clock, f.world.clock);
    }
  }

  lemma TurnTracks(f: Fine, w: World, w': World, p: nat)
    requires LockInv(w) && Tracks(f, w) && FineEnabled(f, Turn(p)) && |w.cache.slots| > 0
    requires Completes(w, w', p, f.world.counters[p], f.sections[p], f.world.clock,
                       TurnOf(f.world.cache, f.world.counters[p], f.sections[p], f.world.clock))
    ensures Tracks(TurnStep(f, p), w')
  {
    OthersOutside(f, w, p);
  }

  // ---- Steps outside the sections ----

  predicate AlikeAfter(a: World, b: World, a': World, b': World) {
    Alike(a', b') && |a'.counters| == |a.counters|
  }

  lemma AlikeActOrProbe(a: World, b: World, s: Step)
    requires Alike(a, b) && Enabled(a, s) && (s.Probe? || (s.Act? && a.counters[s.p].Counting?))
    ensures Enabled(b, s) && AlikeAfter(a, b, Next(a, s), Next(b, s))
  {
  }

  lemma AlikeLockStep(a: World, b: World, s: Step)
    requires Alike(a, b) && Enabled(a, s) && (s.LockGranted? || s.Unlock?)
    ensures Enabled(b, s) && AlikeAfter(a, b, Next(a, s), Next(b, s))
  {
  }

  lemma ShellStep(a: World, b: World, s: Step)
    requires SameShell(a, b) && Enabled(a, s) && (s.Invoke? || s.Return? || s.LockRefused?)
    ensures Enabled(b, s) && SameShell(Next(a, s), Next(b, s))
    ensures Next(a, s).cache == a.cache && Next(a, s).clock == a.clock
    ensures Next(b, s).cache == b.cache && Next(b, s).clock == b.clock
    ensures |Next(a, s).counters| == |a.counters| && Next(a, s).counters == a.counters[s.p := Next(a, s).counters[s.p]]
    ensures !InSection(a.counters[s.p])
  {
  }

  lemma AlikeStep(a: World, b: World, s: Step)
    requires Alike(a, b) && Enabled(a, s) && (s.Act? ==> a.counters[s.p].Counting?)
    ensures Enabled(b, s) && AlikeAfter(a, b, Next(a, s), Next(b, s))
  {
    match s
    case Tick(_) =>
    case Probe(_) => AlikeActOrProbe(a, b, s);
    case Act(_, _, _) => AlikeActOrProbe(a, b, s);
    case LockGranted(_) => AlikeLockStep(a, b, s);
    case Unlock(_) => AlikeLockStep(a, b, s);
    case _ => ShellStep(a, b, s);
  }

  // While a section is under way, nobody else can take the lock, read, count or unlock.
  lemma OnlyShellSteps(f: Fine, w: World, q: nat, s: Step)
    requires LockInv(w) && Tracks(f, w) && q < |f.sections| && InSection(f.world.counters[q])
    requires FineEnabled(f, Whole(s))
    ensures s.Tick? || s.Invoke? || s.Return? || s.LockRefused?
  {
    OthersOutside(f, w, q);
    if !s.Tick? && s.p != q {
      WriterIsAlone(w, q, s.p);
    }
  }

  // A step outside the sections while none is under way: w takes it, too.
  lemma StepTracks(f: Fine, w: World, s: Step)
    requires Tracks(f, w) && FineEnabled(f, Whole(s)) && AllOutside(f)
    ensures Enabled(w, s) && Tracks(FineNext(f, Whole(s)), Next(w, s))
  {
    AlikeStep(f.world, w, s);
  }

  // The same while some section is under way.
  lemma ShellStepTracks(f: Fine, w: World, s: Step)
    requires Tracks(f, w) && FineEnabled(f, Whole(s)) && !AllOutside(f) && (s.Invoke? || s.Return? || s.LockRefused?)
    ensures Enabled(w, s) && Tracks(FineNext(f, Whole(s)), Next(w, s))
  {
    ShellStep(f.world, w, s);
    assert f.sections[s.p] == Outside;
    var f' := FineNext(f, Whole(s));
    forall p | 0 <= p < |f'.sections| && f'.sections[p] != Outside
      ensures InSection(f'.world.counters[p]) && UnderWay(f', Next(w, s), p)
    {
      assert UnderWay(f, w, p) && p != s.p;
    }
  }

  // The clock goes on while a section is under way; for w it has not begun.
  lemma TickTracks(f: Fine, w: World, s: Step)
    requires Tracks(f, w) && FineEnabled(f, Whole(s)) && !AllOutside(f) && s.Tick?
    ensures Tracks(FineNext(f, Whole(s)), w)
  {
    var f' := FineNext(f, Whole(s));
    forall p | 0 <= p < |f'.sections| && f'.sections[p] != Outside
      ensures InSection(f'.world.counters[p]) && UnderWay(f', w, p)
    {
      assert UnderWay(f, w, p);
    }
  }

  lemma WholeSimulated(f: Fine, w: World, step: Step) returns (taken: seq<Step>, w': World)
    requires SafeInv(w) && Tracks(f, w) && FineEnabled(f, Whole(step))
    ensures Tracks(FineNext(f, Whole(step)), w')
    ensures if taken == [] then w' == w && FineShows(f, Whole(step)) == []
            else taken == [step] && Enabled(w, step) && w' == Next(w, step) && Shows(w, step) == Shows(f.world, step)
  {
    if AllOutside(f) {
      StepTracks(f, w, step);
      taken, w' := [step], Next(w, step);
    } else {
      var q :| 0 <= q < |f.sections| && f.sections[q] != Outside;
      OnlyShellSteps(f, w, q, step);
      if step.Tick? {
        TickTracks(f, w, step);
        taken, w' := [], w;
      } else {
        ShellStepTracks(f, w, step);
        taken, w' := [step], Next(w, step);
      }
    }
  }

  lemma NowIsUntracked(f: Fine, w: World, now: nat)
    requires Tracks(f, w)
    ensures Tracks(f, w.(now := now))
  {
    var w' := w.(now := now);
    forall p | 0 <= p < |f.sections| && f.sections[p] != Outside
      ensures InSection(f.world.counters[p]) && UnderWay(f, w', p)
    {
      assert UnderWay(f, w, p);
    }
  }

  lemma TurnSimulated(f: Fine, w: World, p: nat) returns (taken: seq<Step>, w': World)
    requires SafeInv(w) && Tracks(f, w) && FineEnabled(f, Turn(p))
    ensures Tracks(FineNext(f, Turn(p)), w')
    ensures if taken == [] then w' == w
            else taken == [EndingStep(f, p)] && Enabled(w, taken[0]) && w' == Next(w, taken[0])
  {
    var pc, s := f.world.counters[p], EndingStep(f, p);
    SectionUnderWay(f, w, p);
    EndingStepEnabled(f, w, p);
    var going := TurnOf(f.world.cache, pc, f.sections[p], f.world.clock).Going?;
    var reached := if going then w else ActStep(w, p, s.t0, s.t1);
    if pc.Writing? {
      WritingTurn(f, w, reached, p);
    } else {
      PurgingTurn(f, w, reached, p);
    }
    TurnTracks(f, w, reached, p);
    if going {
      taken, w' := [], w;
    } else {
      taken, w' := [s], reached.(now := w.now + 1);
      NowIsUntracked(TurnStep(f, p), reached, w.now + 1);
    }
  }

  lemma InitialTracks(f: Fine)
    requires FineInitial(f)
    ensures Tracks(f, f.world)
  {
  }

  lemma FineRunPrefix(fs: seq<Fine>, steps: seq<FineStep>)
    requires IsFineRun(fs, steps) && steps != []
    ensures IsFineRun(fs[..|steps|], steps[..|steps| - 1])
  {
  }

  /** Refinement: for every run in which exclusive sections take one slot per step, with other processes and the clock
      going on in between, there is a run with sections of one step that shows callers exactly the same, and whose last
      state is the same but for a section under way. */
  lemma {:induction false} FineRunRefines(fs: seq<Fine>, fsteps: seq<FineStep>)
    returns (ws: seq<World>, steps: seq<Step>)
    requires IsFineRun(fs, fsteps)
    ensures IsRun(ws, steps) && Trace(ws, steps) == FineTrace(fs, fsteps)
    ensures Tracks(fs[|fsteps|], ws[|steps|])
  {
    if fsteps == [] {
      ws, steps := [fs[0].world], [];
      InitialTracks(fs[0]);
    } else {
      var n := |fsteps| - 1;
      FineRunPrefix(fs, fsteps);
      ws, steps := FineRunRefines(fs[..n + 1], fsteps[..n]);
      ws, steps := Advance(fs[n], fsteps[n], ws, steps);
    }
  }

  lemma Advance(f: Fine, s: FineStep, ws: seq<World>, steps: seq<Step>) returns (ws': seq<World>, steps': seq<Step>)
    requires IsRun(ws, steps) && Tracks(f, ws[|steps|]) && FineEnabled(f, s)
    ensures IsRun(ws', steps') && Tracks(FineNext(f, s), ws'[|steps'|])
    ensures Trace(ws', steps') == Trace(ws, steps) + FineShows(f, s)
  {
    var w := ws[|steps|];
    RunIsSafe(ws, steps, |steps|);
    var taken, w';
    match s {
      case Whole(step) => taken, w' := WholeSimulated(f, w, step);
      case Turn(p) => taken, w' := TurnSimulated(f, w, p);
    }
    if taken == [] {
      ws', steps' := ws, steps;
    } else {
      RunExtends(ws, steps, taken[0], w');
      TraceExtends(ws, steps, taken[0], w');
      ws', steps' := ws + [w'], steps + taken;
    }
  }

  /** What callers see of a run with sections slot by slot is linearizable: a legal history of the TTL map explains it,
      and while no section is under way, that history ends in the records that are stored. */
  lemma FineRunsAreLinearizable(fs: seq<Fine>, fsteps: seq<FineStep>) returns (log: Log)
    requires IsFineRun(fs, fsteps)
    ensures var f := fs[|fsteps|];
            && Legal(|f.world.cache.slots|, log) && ExplainsTrace(log, FineTrace(fs, fsteps))
            && (AllOutside(f) ==> Replay(|f.world.cache.slots|, log) == View(f.world.cache.slots))
  {
    var ws, steps := FineRunRefines(fs, fsteps);
    RunIsSafe(ws, steps, |steps|);
    RunTraceExplained(ws, steps);
    log := ws[|steps|].log;
  }

  // In every state of such a run the next turn of a section can be taken.
  lemma TurnsAreEnabled(fs: seq<Fine>, fsteps: seq<FineStep>, p: nat)
    requires IsFineRun(fs, fsteps)
    requires var f := fs[|fsteps|];
             p < |f.sections| && p < |f.world.counters| && InSection(f.world.counters[p])
    ensures FineEnabled(fs[|fsteps|], Turn(p))
  {
    var f := fs[|fsteps|];
    var ws, steps := FineRunRefines(fs, fsteps);
    RunIsSafe(ws, steps, |steps|);
    SectionUnderWay(f, ws[|steps|], p);
  }

  // ---- Sections end ----

  predicate InSectionAt(f: Fine, p: nat) {
    p < |f.sections| && p < |f.world.counters| && InSection(f.world.counters[p])
  }

  // The turns left to the section of p, which is always within bounds.
  function TurnsLeftAt(f: Fine, p: nat): nat
    requires InSectionAt(f, p)
  {
    var n := |f.world.cache.slots|;
    if InBounds(f.sections[p], n) then TurnsLeft(f.sections[p], n) else 0
  }

  // A turn that does not end its section brings it closer to the end.
  lemma OwnTurnDecreases(f: Fine, w: World, p: nat)
    requires SafeInv(w) && Tracks(f, w) && FineEnabled(f, Turn(p)) && InSectionAt(TurnStep(f, p), p)
    ensures TurnsLeftAt(TurnStep(f, p), p) < TurnsLeftAt(f, p)
  {
    var pc, now := f.world.counters[p], f.world.clock;
    SectionUnderWay(f, w, p);
    if pc.Writing? {
      TurnsDecrease(w.cache, f.world.cache, pc.op, f.sections[p], now);
    } else {
      PurgeTurnsDecrease(w.cache, f.world.cache, pc.key, pc.collisions, f.sections[p], now);
    }
  }

  // Nothing else moves the section, nor changes the number of slots.

  lemma WholeStepsWait(f: Fine, step: Step, p: nat)
    requires FineEnabled(f, Whole(step)) && InSectionAt(f, p)
    ensures var f' := FineNext(f, Whole(step));
            InSectionAt(f', p) ==> TurnsLeftAt(f', p) == TurnsLeftAt(f, p)
  {
    SlotsStay(f.world, step);
  }

  lemma OtherTurnsWait(f: Fine, q: nat, p: nat)
    requires FineEnabled(f, Turn(q)) && q != p && InSectionAt(f, p) && InSectionAt(TurnStep(f, q), p)
    ensures TurnsLeftAt(TurnStep(f, q), p) == TurnsLeftAt(f, p)
  {
  }

  lemma SlotsStay(w: World, s: Step)
    requires Enabled(w, s)
    ensures |Next(w, s).cache.slots| == |w.cache.slots|
  {
  }

  // The turns p takes from step i up to step k.
  function TurnsTaken(steps: seq<FineStep>, p: nat, i: nat, k: nat): nat
    requires i <= k <= |steps|
  {
    if i == k then 0 else TurnsTaken(steps, p, i, k - 1) + if steps[k - 1] == Turn(p) then 1 else 0
  }

  lemma PrefixIsRun(fs: seq<Fine>, steps: seq<FineStep>, n: nat)
    requires IsFineRun(fs, steps) && n <= |steps|
    ensures IsFineRun(fs[..n + 1], steps[..n])
  {
  }

  lemma NextTurnDecreases(fs: seq<Fine>, steps: seq<FineStep>, p: nat, k: nat)
    requires IsFineRun(fs, steps) && k < |steps| && InSectionAt(fs[k], p) && InSectionAt(fs[k + 1], p)
    ensures TurnsLeftAt(fs[k + 1], p) + (if steps[k] == Turn(p) then 1 else 0) <= TurnsLeftAt(fs[k], p)
  {
    if steps[k] == Turn(p) {
      PrefixIsRun(fs, steps, k);
      var ws, wsteps := FineRunRefines(fs[..k + 1], steps[..k]);
      RunIsSafe(ws, wsteps, |wsteps|);
      OwnTurnDecreases(fs[k], ws[|wsteps|], p);
    } else {
      match steps[k]
      case Whole(step) => WholeStepsWait(fs[k], step, p);
      case Turn(q) => OtherTurnsWait(fs[k], q, p);
    }
  }

  lemma {:induction false} TakenAndLeft(left: seq<nat>, steps: seq<FineStep>, p: nat, i: nat, k: nat)
    requires i <= k < |left| && |left| == |steps| + 1
    requires forall j | i <= j < k :: left[j + 1] + (if steps[j] == Turn(p) then 1 else 0) <= left[j]
    ensures TurnsTaken(steps, p, i, k) + left[k] <= left[i]
  {
    if i == k {
    } else {
      TakenAndLeft(left, steps, p, i, k - 1);
      assert left[k - 1 + 1] + (if steps[k - 1] == Turn(p) then 1 else 0) <= left[k - 1];
    }
  }

  /** In any run, while a process stays in one exclusive section (a put, update, delete or purge), it takes at most
      5 * capacity + 8 turns, and what it has taken and what is left never exceeds what was left to begin with. */
  lemma SectionsEnd(fs: seq<Fine>, steps: seq<FineStep>, p: nat, i: nat, k: nat)
    requires IsFineRun(fs, steps) && i <= k < |fs|
    requires forall j | i <= j <= k :: InSectionAt(fs[j], p)
    ensures TurnsTaken(steps, p, i, k) + TurnsLeftAt(fs[k], p) <= TurnsLeftAt(fs[i], p)
    ensures TurnsLeftAt(fs[i], p) <= 5 * |fs[i].world.cache.slots| + 8
  {
    var left := seq(|fs|, j requires 0 <= j < |fs| => if InSectionAt(fs[j], p) then TurnsLeftAt(fs[j], p) else 0);
    forall j | i <= j < k ensures left[j + 1] + (if steps[j] == Turn(p) then 1 else 0) <= left[j] {
      assert InSectionAt(fs[j], p) && InSectionAt(fs[j + 1], p);
      NextTurnDecreases(fs, steps, p, j);
    }
    TakenAndLeft(left, steps, p, i, k);
  }

  /** No deadlock, slot by slot: as long as a call is under way some process can take its next step or turn without
      being refused a lock. */
  lemma FineNeverStuck(fs: seq<Fine>, steps: seq<FineStep>, p: nat) returns (s: FineStep)
    requires IsFineRun(fs, steps) && p < |fs[|steps|].world.counters| && fs[|steps|].world.counters[p] != Idle
    ensures FineEnabled(fs[|steps|], s) && (s.Whole? ==> GoesOn(fs[|steps|].world, s.step))
  {
    var f := fs[|steps|];
    var ws, wsteps := FineRunRefines(fs, steps);
    var w := ws[|wsteps|];
    RunIsSafe(ws, wsteps, |wsteps|);
    var q := SomeoneIsFree(w, p);
    FreeGoesOn(w, q);
    if InSection(f.world.counters[q]) {
      SectionUnderWay(f, w, q);
      s := Turn(q);
    } else {
      s := Whole(NextStep(f.world, q));
    }
  }
}
