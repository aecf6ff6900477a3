/** What one open of a name does when nobody else moves, for every state it may find, and what must have happened in any
    run before an object appears or an open reports success. */
module OpenCalls {
  import opened TtlMap
  import opened CacheSpec
  import opened Table
  import opened Lifecycle
  import opened LifecycleSafety
  import Layout

  // ---- One open, with nobody else moving and every system call succeeding ----

  // p goes on until its open is over, for at most n steps.
  ghost function Goes(w: World, p: nat, n: nat): World
    decreases n
  {
    if n == 0 || !Enabled(w, Go(p, true)) then w else Goes(Next(w, Go(p, true)), p, n - 1)
  }

  // The whole open, for n at least the ten steps it can take.
  ghost function Opened(w: World, p: nat, createIfMissing: bool, n: nat): World
    requires Enabled(w, Begin(p, createIfMissing))
  {
    Goes(Next(w, Begin(p, createIfMissing)), p, n)
  }

  // What an attacher accepts, in the numbers of the header.
  predicate Acceptable(abi: Layout.Abi, r: Region) {
    && r.size == 4194304 && r.magic == 0xDEAD_BEEF && r.version == 1 && r.dataOffset == abi.header
    && r.capacity > 0 && abi.header + r.capacity * abi.entry <= 4194304
    && r.cache.count <= r.capacity
  }

  // The object as its creator publishes it.
  function Created(abi: Layout.Abi, creator: nat): Region {
    Region(creator, 4194304, 0xDEAD_BEEF, 1, 1000, abi.header, true, Cache(seq(1000, _ => EMPTY_ENTRY), 0, 0, 0, 0))
  }

  lemma GoOn(w: World, p: nat, w': World, n: nat)
    requires n > 0 && Enabled(w, Go(p, true)) && w' == Next(w, Go(p, true))
    ensures Goes(w, p, n) == Goes(w', p, n - 1)
  {
  }

  // p has counter pc; nothing else has changed.
  function At(w: World, p: nat, pc: Counter): World
    requires p < |w.counters|
  {
    w.(counters := w.counters[p := pc])
  }

  // p has given up, or has mapped o and reported so.
  function Attached(w: World, p: nat, o: ObjectId): World
    requires p < |w.counters|
  {
    At(w, p, Mapped(o, false)).(reports := w.reports + [Report(o, false)])
  }

  lemma AtTwice(w: World, p: nat, pc: Counter, pc': Counter)
    requires p < |w.counters|
    ensures At(At(w, p, pc), p, pc') == At(w, p, pc')
    ensures w.counters[p] == pc' ==> At(At(w, p, pc), p, pc') == w
  {
    assert w.counters[p := pc][p := pc'] == w.counters[p := pc'];
  }

  /** An attach-only open of a missing name fails, whatever its system call answers, and leaves everything as it was. */
  lemma MissingNameIsNotCreated(w: World, p: nat, ok: bool, n: nat)
    requires Enabled(w, Begin(p, false)) && w.bound == None && n >= 10
    ensures Enabled(Next(w, Begin(p, false)), Go(p, ok)) && Next(Next(w, Begin(p, false)), Go(p, ok)) == w
    ensures Opened(w, p, false, n) == w
  {
    AtTwice(w, p, Opening, Idle);
    GoOn(Next(w, Begin(p, false)), p, w, n);
  }

  lemma CountDecides(w: World, p: nat, o: ObjectId, n: nat)
    requires w.abi.entry > 0 && p < |w.counters| && o < |w.objects| && n >= 1
    ensures Goes(At(w, p, CheckingCount(o)), p, n) ==
              if w.objects[o].cache.count <= w.objects[o].capacity then Attached(w, p, o) else At(w, p, Idle)
  {
    var pc := if w.objects[o].cache.count <= w.objects[o].capacity then Mapped(o, false) else Idle;
    AtTwice(w, p, CheckingCount(o), pc);
    var w' := if pc.Mapped? then Attached(w, p, o) else At(w, p, Idle);
    GoOn(At(w, p, CheckingCount(o)), p, w', n);
  }

  lemma LockDecides(w: World, p: nat, o: ObjectId, n: nat)
    requires w.abi.entry > 0 && p < |w.counters| && o < |w.objects| && n >= 2
    ensures Goes(At(w, p, LockingShared(o)), p, n) ==
              if w.objects[o].cache.count <= w.objects[o].capacity then Attached(w, p, o) else At(w, p, Idle)
  {
    AtTwice(w, p, LockingShared(o), CheckingCount(o));
    GoOn(At(w, p, LockingShared(o)), p, At(w, p, CheckingCount(o)), n);
    CountDecides(w, p, o, n - 1);
  }

  lemma LayoutDecides(w: World, p: nat, o: ObjectId, n: nat)
    requires w.abi.entry > 0 && p < |w.counters| && o < |w.objects| && n >= 3
    ensures Goes(At(w, p, CheckingLayout(o)), p, n) ==
              if LayoutAccepted(w.abi, w.objects[o]) && w.objects[o].cache.count <= w.objects[o].capacity
              then Attached(w, p, o) else At(w, p, Idle)
  {
    AtTwice(w, p, CheckingLayout(o), LockingShared(o));
    AtTwice(w, p, CheckingLayout(o), Idle);
    if LayoutAccepted(w.abi, w.objects[o]) {
      GoOn(At(w, p, CheckingLayout(o)), p, At(w, p, LockingShared(o)), n);
      LockDecides(w, p, o, n - 1);
    } else {
      GoOn(At(w, p, CheckingLayout(o)), p, At(w, p, Idle), n);
    }
  }

  lemma MagicDecides(w: World, p: nat, o: ObjectId, n: nat)
    requires w.abi.entry > 0 && p < |w.counters| && o < |w.objects| && w.objects[o].size == 4194304 && n >= 4
    ensures Goes(At(w, p, CheckingMagic(o)), p, n) ==
              if Acceptable(w.abi, w.objects[o]) then Attached(w, p, o) else At(w, p, Idle)
  {
    Layout.ValidCapacityIffFits(w.abi, 4194304, w.objects[o].capacity);
    AtTwice(w, p, CheckingMagic(o), CheckingLayout(o));
    AtTwice(w, p, CheckingMagic(o), Idle);
    if Ready(w.objects[o]) {
      GoOn(At(w, p, CheckingMagic(o)), p, At(w, p, CheckingLayout(o)), n);
      LayoutDecides(w, p, o, n - 1);
    } else {
      GoOn(At(w, p, CheckingMagic(o)), p, At(w, p, Idle), n);
    }
  }

  lemma SizeDecides(w: World, p: nat, o: ObjectId, n: nat)
    requires w.abi.entry > 0 && p < |w.counters| && o < |w.objects| && n >= 6
    ensures Goes(At(w, p, Inspecting(o)), p, n) ==
              if Acceptable(w.abi, w.objects[o]) then Attached(w, p, o) else At(w, p, Idle)
  {
    AtTwice(w, p, Inspecting(o), MappingOld(o));
    AtTwice(w, p, Inspecting(o), Idle);
    if w.objects[o].size == 4194304 {
      AtTwice(w, p, MappingOld(o), CheckingMagic(o));
      GoOn(At(w, p, Inspecting(o)), p, At(w, p, MappingOld(o)), n);
      GoOn(At(w, p, MappingOld(o)), p, At(w, p, CheckingMagic(o)), n - 1);
      MagicDecides(w, p, o, n - 2);
    } else {
      GoOn(At(w, p, Inspecting(o)), p, At(w, p, Idle), n);
    }
  }

  /** An open of an existing name, whether it may create or not, attaches if and only if the object has the exact size,
      the magic word, the version, the offset and a capacity that fits, and counts no more entries than that. It changes
      nothing about the object or the name, and gives up otherwise. */
  lemma ExistingNameAttachesIff(w: World, p: nat, createIfMissing: bool, o: ObjectId, n: nat)
    requires Enabled(w, Begin(p, createIfMissing)) && w.bound == Some(o) && o < |w.objects| && n >= 10
    ensures Opened(w, p, createIfMissing, n) == if Acceptable(w.abi, w.objects[o]) then Attached(w, p, o) else w
  {
    AtTwice(w, p, Opening, Inspecting(o));
    AtTwice(w, p, Creating, Opening);
    AtTwice(w, p, Idle, Idle);
    assert At(w, p, Idle) == w;
    if createIfMissing {
      GoOn(At(w, p, Creating), p, At(w, p, Opening), n);
      GoOn(At(w, p, Opening), p, At(w, p, Inspecting(o)), n - 1);
      SizeDecides(w, p, o, n - 2);
    } else {
      GoOn(At(w, p, Opening), p, At(w, p, Inspecting(o)), n);
      SizeDecides(w, p, o, n - 1);
    }
  }

  // w with one more object, r, which p is creating, and with the name bound to it.
  function Making(w: World, p: nat, pc: Counter, r: Region): World
    requires p < |w.counters|
  {
    At(w, p, pc).(bound := Some(|w.objects|), objects := w.objects + [r])
  }

  // One step of a creator changes its counter and its object only.
  lemma MakeOn(w: World, p: nat, pc: Counter, r: Region, n: nat)
    requires w.abi.entry > 0 && p < |w.counters| && n > 0
    requires CreatorOf(pc) == Some(|w.objects|) && !pc.Unlinking?
    ensures var (pc', r') := CreatorMove(w.abi, |w.objects|, pc, r, true);
            Goes(Making(w, p, pc, r), p, n) == Goes(Making(w, p, pc', r'), p, n - 1)
  {
    var (pc', r') := CreatorMove(w.abi, |w.objects|, pc, r, true);
    var a, b := Making(w, p, pc, r), Making(w, p, pc', r');
    assert a.counters[p := pc'] == b.counters;
    assert a.objects[|w.objects| := r'] == b.objects;
    GoOn(a, p, b, n);
  }

  // The creator's counter and object after k steps without a failure.
  function Built(abi: Layout.Abi, o: ObjectId, pc: Counter, r: Region, k: nat): (Counter, Region)
    requires abi.entry > 0
    decreases k
  {
    if k == 0 || CreatorOf(pc) != Some(o) || pc.Unlinking? then (pc, r)
    else
      var (pc', r') := CreatorMove(abi, o, pc, r, true);
      Built(abi, o, pc', r', k - 1)
  }

  // Whatever stays the same with every step of a creator stays the same with k of them.
  lemma {:induction false} BuildKeeps<T>(abi: Layout.Abi, o: ObjectId, pc: Counter, r: Region, k: nat, n: nat,
                                         g: (Counter, Region, nat) -> T) returns (m: nat)
    requires abi.entry > 0 && k <= n
    requires forall a, b, i: nat | i > 0 && CreatorOf(a) == Some(o) && !a.Unlinking? ::
               g(a, b, i) == g(CreatorMove(abi, o, a, b, true).0, CreatorMove(abi, o, a, b, true).1, i - 1)
    ensures n - k <= m <= n
    ensures var (pc', r') := Built(abi, o, pc, r, k);
            g(pc, r, n) == g(pc', r', m)
    decreases k
  {
    if k == 0 || CreatorOf(pc) != Some(o) || pc.Unlinking? {
      m := n;
    } else {
      var (pc', r') := CreatorMove(abi, o, pc, r, true);
      assert g(pc, r, n) == g(pc', r', n - 1);
      m := BuildKeeps(abi, o, pc', r', k - 1, n - 1, g);
    }
  }

  // What p ends in from counter pc and object r, in i steps.
  ghost function EndOf(w: World, p: nat): (Counter, Region, nat) -> World
    requires p < |w.counters|
  {
    (pc: Counter, r: Region, i: nat) => if p < |w.counters| then Goes(Making(w, p, pc, r), p, i) else w
  }

  lemma EndStays(w: World, p: nat, a: Counter, b: Region, i: nat)
    requires w.abi.entry > 0 && p < |w.counters| && i > 0 && CreatorOf(a) == Some(|w.objects|) && !a.Unlinking?
    ensures EndOf(w, p)(a, b, i) ==
            EndOf(w, p)(CreatorMove(w.abi, |w.objects|, a, b, true).0,
                        CreatorMove(w.abi, |w.objects|, a, b, true).1, i - 1)
  {
    MakeOn(w, p, a, b, i);
  }

  lemma EndAfter(w: World, p: nat, pc: Counter, r: Region, k: nat, n: nat) returns (m: nat)
    requires w.abi.entry > 0 && p < |w.counters| && k <= n
    ensures n - k <= m <= n
    ensures EndOf(w, p)(pc, r, n) ==
            EndOf(w, p)(Built(w.abi, |w.objects|, pc, r, k).0, Built(w.abi, |w.objects|, pc, r, k).1, m)
  {
    forall a, b, i: nat | i > 0 && CreatorOf(a) == Some(|w.objects|) && !a.Unlinking?
      ensures EndOf(w, p)(a, b, i) ==
              EndOf(w, p)(CreatorMove(w.abi, |w.objects|, a, b, true).0,
                          CreatorMove(w.abi, |w.objects|, a, b, true).1, i - 1)
    {
      EndStays(w, p, a, b, i);
    }
    m := BuildKeeps(w.abi, |w.objects|, pc, r, k, n, EndOf(w, p));
  }

  lemma BuildOn(w: World, p: nat, pc: Counter, r: Region, k: nat, n: nat) returns (m: nat)
    requires w.abi.entry > 0 && p < |w.counters| && k <= n
    ensures n - k <= m <= n
    ensures var (pc', r') := Built(w.abi, |w.objects|, pc, r, k);
            Goes(Making(w, p, pc, r), p, n) == Goes(Making(w, p, pc', r'), p, m)
  {
    m := EndAfter(w, p, pc, r, k, n);
  }

  lemma ReportAlone(w: World, p: nat, r: Region, n: nat)
    requires w.abi.entry > 0 && p < |w.counters| && n >= 1
    ensures var o := |w.objects|;
            Goes(Making(w, p, Published(o), r), p, n) ==
            Making(w, p, Mapped(o, true), r).(reports := w.reports + [Report(o, true)])
  {
    var o := |w.objects|;
    var last := Making(w, p, Mapped(o, true), r).(reports := w.reports + [Report(o, true)]);
    assert Making(w, p, Published(o), r).counters[p := Mapped(o, true)] == last.counters;
    GoOn(Making(w, p, Published(o), r), p, last, n);
  }

  // What a creator makes of a new object, once it is sized: it takes eight steps, or one if the layout is impossible.
  lemma BuiltIs(abi: Layout.Abi, o: ObjectId, p: nat, r: Region)
    requires abi.entry > 0 && r == Region(p, 4194304, 0, 0, 0, 0, false, NOTHING)
    ensures Built(abi, o, MappingNew(o), r, 7) ==
              if abi.header + 1000 * abi.entry <= 4194304 then (Published(o), Created(abi, p)) else (Unlinking(o), r)
  {
    Layout.ValidCapacityIffFits(abi, 4194304, 1000);
    assert Fresh(1000).slots == Created(abi, p).cache.slots;
    if abi.header + 1000 * abi.entry <= 4194304 {
      var r2 := Region(p, 4194304, 0, 1, 1000, 0, false, Fresh(1000));
      assert Built(abi, o, Filling(o, 2), r2, 3) == (Published(o), Created(abi, p));
      assert Built(abi, o, Zeroing(o), r, 6) == Built(abi, o, Filling(o, 2), r2, 3);
    }
  }

  // A creator whose layout is impossible.
  lemma UnlinkAlone(w: World, p: nat, r: Region, n: nat)
    requires w.abi.entry > 0 && p < |w.counters| && n >= 1 && w.counters[p] == Idle && w.bound == None
    ensures Goes(Making(w, p, Unlinking(|w.objects|), r), p, n) == w.(objects := w.objects + [r])
  {
    var last := w.(objects := w.objects + [r]);
    assert Making(w, p, Unlinking(|w.objects|), r).counters[p := Idle] == last.counters;
    GoOn(Making(w, p, Unlinking(|w.objects|), r), p, last, n);
  }

  // The first steps of a creator, up to its mmap.
  lemma SizeAlone(w: World, p: nat, r: Region, n: nat)
    requires Enabled(w, Begin(p, true)) && w.bound == None && n >= 10
    requires r == Region(p, 4194304, 0, 0, 0, 0, false, NOTHING)
    ensures Opened(w, p, true, n) == Goes(Making(w, p, MappingNew(|w.objects|), r), p, n - 2)
  {
    var o, r0 := |w.objects|, r.(size := 0);
    AtTwice(w, p, Creating, Sizing(o));
    assert Making(w, p, Sizing(o), r0) == Next(At(w, p, Creating), Go(p, true));
    GoOn(At(w, p, Creating), p, Making(w, p, Sizing(o), r0), n);
    MakeOn(w, p, Sizing(o), r0, n - 1);
  }

  /** An open that may create a missing name does so, with every system call succeeding: it ends up mapped to a region
      of 4 MiB with 1000 EMPTY slots, ready, bound to the name, and reports having created it. If 1000 entries do not
      fit, it unlinks the name again and reports nothing. */
  lemma MissingNameIsCreatedIffItFits(w: World, p: nat, n: nat)
    requires Enabled(w, Begin(p, true)) && w.bound == None && n >= 10
    ensures var o := |w.objects|;
            Opened(w, p, true, n) ==
              if w.abi.header + 1000 * w.abi.entry <= 4194304
              then Making(w, p, Mapped(o, true), Created(w.abi, p)).(reports := w.reports + [Report(o, true)])
              else w.(objects := w.objects + [Region(p, 4194304, 0, 0, 0, 0, false, NOTHING)])
  {
    var o, r := |w.objects|, Region(p, 4194304, 0, 0, 0, 0, false, NOTHING);
    SizeAlone(w, p, r, n);
    var m := BuildOn(w, p, MappingNew(o), r, 7, n - 2);
    BuiltIs(w.abi, o, p, r);
    if w.abi.header + 1000 * w.abi.entry <= 4194304 {
      ReportAlone(w, p, Created(w.abi, p), m);
    } else {
      UnlinkAlone(w, p, r, m);
    }
  }

  // What a creator has made, anybody attaches to, and so does the creator once it has closed it.
  lemma CreatedIsAttached(w: World, made: World, p: nat, q: nat, createIfMissing: bool, n: nat)
    requires Enabled(w, Begin(p, true)) && w.bound == None && w.abi.header + 1000 * w.abi.entry <= 4194304 && n >= 10
    requires q < |w.counters| && w.counters[q] == Idle && made == Opened(w, p, true, n)
    ensures q != p ==> Enabled(made, Begin(q, createIfMissing)) &&
                       Opened(made, q, createIfMissing, n) == Attached(made, q, |w.objects|)
    ensures Enabled(made, Close(p)) && Enabled(Next(made, Close(p)), Begin(p, createIfMissing))
    ensures var closed := Next(made, Close(p));
            Opened(closed, p, createIfMissing, n) == Attached(closed, p, |w.objects|)
  {
    MissingNameIsCreatedIffItFits(w, p, n);
    assert made.objects[|w.objects|] == Created(w.abi, p);
    if q != p {
      ExistingNameAttachesIff(made, q, createIfMissing, |w.objects|, n);
    }
    ExistingNameAttachesIff(Next(made, Close(p)), p, createIfMissing, |w.objects|, n);
  }

  // What a process does to a cache it has mapped, everybody sees who has mapped the same object.
  lemma MappedIsShared(w: World, p: nat, q: nat, cache: Cache)
    requires Enabled(w, Use(p, cache)) && q < |w.counters| && w.counters[q].Mapped?
    requires w.counters[q].target == w.counters[p].target
    ensures var w' := Next(w, Use(p, cache));
            w'.counters == w.counters && w'.objects[w'.counters[q].target].cache == cache
  {
  }

  // Runs start with nothing, whatever the structure sizes and the number of processes.
  lemma RunsStart(abi: Layout.Abi, processes: nat) returns (w: World)
    requires abi.entry > 0
    ensures w.abi == abi && w.bound == None && w.objects == [] && w.reports == []
    ensures |w.counters| == processes && IsRun([w], [])
  {
    w := World(abi, None, [], seq(processes, _ => Idle), []);
  }

  // ---- What has happened before an object appears or an open succeeds ----

  // Before a system call.
  predicate Calls(pc: Counter) {
    || pc.Creating? || pc.Opening? || pc.Sizing? || pc.MappingNew? || pc.InitializingLock? || pc.Unlinking?
    || pc.Inspecting? || pc.MappingOld? || pc.LockingShared?
  }

  // In the course of an open that nothing has failed in.
  predicate Open(pc: Counter) {
    pc != Idle && !pc.Mapped? && !pc.Unlinking?
  }

  predicate Creates(pc: Counter) {
    pc.Creating? || CreatorOf(pc).Some? || pc.Published?
  }

  // The open of p under way in state i began with step j, and since then its system calls have succeeded.
  ghost predicate OpenSince(ws: seq<World>, steps: seq<Step>, i: nat, p: nat, j: nat)
    requires j < i <= |steps| && |ws| == |steps| + 1
  {
    && steps[j].Begin? && steps[j].p == p
    && (forall m | j < m <= i :: p < |ws[m].counters| && Open(ws[m].counters[p]))
    && (forall m | j < m < i && steps[m].p == p :: Calls(ws[m].counters[p]) ==> steps[m].Go? && steps[m].ok)
    && (Creates(ws[i].counters[p]) ==> steps[j].createIfMissing)
  }

  lemma OpenStep(w: World, s: Step, p: nat)
    requires Enabled(w, s) && p < |w.counters| && p < |Next(w, s).counters| && Open(Next(w, s).counters[p])
    ensures var pc, pc' := w.counters[p], Next(w, s).counters[p];
            if s.Begin? && s.p == p then Creates(pc') ==> s.createIfMissing
            else
              && Open(pc) && (Creates(pc') ==> Creates(pc))
              && (s.p == p && Calls(pc) ==> s.Go? && s.ok)
  {
  }

  // If the open of p is under way after step i, what that says of the step.
  predicate OpenMoves(ws: seq<World>, steps: seq<Step>, i: nat, p: nat) {
    && i < |steps| && i + 1 < |ws|
    && (p < |ws[i + 1].counters| && Open(ws[i + 1].counters[p]) ==>
          p < |ws[i].counters| &&
          var s, pc, pc' := steps[i], ws[i].counters[p], ws[i + 1].counters[p];
          if s.Begin? && s.p == p then Creates(pc') ==> s.createIfMissing
          else
            && Open(pc) && (Creates(pc') ==> Creates(pc))
            && (s.p == p && Calls(pc) ==> s.Go? && s.ok))
  }

  lemma RunOpenStep(ws: seq<World>, steps: seq<Step>, i: nat, p: nat)
    requires IsRun(ws, steps) && i < |steps|
    ensures OpenMoves(ws, steps, i, p)
  {
    ProcessesStay(ws[i], steps[i]);
    if p < |ws[i + 1].counters| && Open(ws[i + 1].counters[p]) {
      OpenStep(ws[i], steps[i], p);
    }
  }

  lemma NotInitiallyOpen(w: World, p: nat)
    requires Initial(w)
    ensures p < |w.counters| ==> !Open(w.counters[p])
  {
  }

  lemma OpenSinceNext(ws: seq<World>, steps: seq<Step>, i: nat, p: nat, j: nat)
    requires |ws| == |steps| + 1 && j < i < |steps| && OpenSince(ws, steps, i, p, j)
    requires p < |ws[i + 1].counters| && Open(ws[i + 1].counters[p])
    requires Creates(ws[i + 1].counters[p]) ==> Creates(ws[i].counters[p])
    requires steps[i].p == p && Calls(ws[i].counters[p]) ==> steps[i].Go? && steps[i].ok
    ensures OpenSince(ws, steps, i + 1, p, j)
  {
  }

  lemma {:induction false} OpenHasBegunBefore(ws: seq<World>, steps: seq<Step>, i: nat, p: nat) returns (j: nat)
    requires |ws| == |steps| + 1 && i < |ws| && p < |ws[i].counters| && Open(ws[i].counters[p])
    requires p < |ws[0].counters| ==> !Open(ws[0].counters[p])
    requires forall m | 0 <= m < |steps| :: OpenMoves(ws, steps, m, p)
    ensures j < i && OpenSince(ws, steps, i, p, j)
  {
    assert OpenMoves(ws, steps, i - 1, p);
    if steps[i - 1].Begin? && steps[i - 1].p == p {
      j := i - 1;
    } else {
      j := OpenHasBegunBefore(ws, steps, i - 1, p);
      OpenSinceNext(ws, steps, i - 1, p, j);
    }
  }

  /** Every open under way began with Begin, all its system calls have succeeded since, and if it creates the object it
      was asked to. */
  lemma OpenHasBegun(ws: seq<World>, steps: seq<Step>, i: nat, p: nat) returns (j: nat)
    requires IsRun(ws, steps) && i < |ws| && p < |ws[i].counters| && Open(ws[i].counters[p])
    ensures j < i && OpenSince(ws, steps, i, p, j)
  {
    NotInitiallyOpen(ws[0], p);
    forall m | 0 <= m < |steps| ensures OpenMoves(ws, steps, m, p) {
      RunOpenStep(ws, steps, m, p);
    }
    j := OpenHasBegunBefore(ws, steps, i, p);
  }

  /** Objects appear, and opens report success, only in an open all of whose system calls succeeded; an object appears,
      and success is reported of creating one, only in an open that was asked to create. */
  lemma SuccessWasAskedFor(ws: seq<World>, steps: seq<Step>, k: nat) returns (j: nat)
    requires IsRun(ws, steps) && k < |steps|
    requires |ws[k + 1].objects| > |ws[k].objects| || |ws[k + 1].reports| > |ws[k].reports|
    ensures j < k && OpenSince(ws, steps, k, steps[k].p, j)
    ensures |ws[k + 1].objects| > |ws[k].objects| ==> steps[j].createIfMissing
    ensures |ws[k + 1].reports| > |ws[k].reports| && ws[k + 1].reports[|ws[k].reports|].created ==>
              steps[j].createIfMissing
  {
    SuccessIsOpen(ws[k], steps[k]);
    j := OpenHasBegun(ws, steps, k, steps[k].p);
  }

  lemma SuccessIsOpen(w: World, s: Step)
    requires Enabled(w, s)
    ensures |Next(w, s).objects| > |w.objects| ==> Open(w.counters[s.p]) && Creates(w.counters[s.p])
    ensures |Next(w, s).reports| > |w.reports| ==>
              Open(w.counters[s.p]) && (Next(w, s).reports[|w.reports|].created ==> Creates(w.counters[s.p]))
  {
  }
}
