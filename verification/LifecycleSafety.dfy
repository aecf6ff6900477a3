/** Safety of the lifecycle over every interleaving of creators and attachers. */
module LifecycleSafety {
  import opened TtlMap
  import opened CacheSpec
  import opened Table
  import opened Lifecycle
  import Layout

  // w' differs from w in the counter of p, and by what the step of p did otherwise.
  predicate Moves(w: World, w': World, p: nat) {
    && w'.abi == w.abi && p < |w.counters|
    && |w'.counters| == |w.counters| && w'.counters == w.counters[p := w'.counters[p]]
  }

  // p changes no object: it looks, gives up, or reports that it attached.
  lemma LookingKeeps(w: World, w': World, p: nat)
    requires LifecycleInv(w) && Moves(w, w', p) && w'.objects == w.objects && w'.bound == w.bound
    requires !w.counters[p].Published? && !w'.counters[p].Published? && CounterSound(w', p)
    requires w'.reports == w.reports ||
             (w'.counters[p].Mapped? && w'.reports == w.reports + [Report(w'.counters[p].target, false)])
    ensures LifecycleInv(w')
  {
    forall q | 0 <= q < |w'.counters| ensures CounterSound(w', q) {
      assert CounterSound(w, q);
    }
    forall o | 0 <= o < |w'.objects| ensures ReadySound(w', o) && CreatorAccounted(w', o) {
      assert ReadySound(w, o) && CreatorAccounted(w, o);
      ReportsGrow(w, w', o);
    }
  }

  lemma ReportsGrow(w: World, w': World, o: ObjectId)
    requires |w.reports| <= |w'.reports| && w'.reports[..|w.reports|] == w.reports
    ensures CreationReported(w, o) ==> CreationReported(w', o)
  {
    if CreationReported(w, o) {
      var i :| 0 <= i < |w.reports| && w.reports[i] == Report(o, true);
      assert w'.reports[i] == w.reports[i];
    }
  }

  // p works on the object it is creating, before publishing it.
  lemma BuildingKeeps(w: World, w': World, p: nat, r: Region)
    requires LifecycleInv(w) && Moves(w, w', p) && CreatorOf(w.counters[p]).Some?
    requires CounterSound(w, p) && r.creator == p && !Ready(r)
    requires w'.objects == w.objects[w.counters[p].target := r] && w'.bound == w.bound && w'.reports == w.reports
    requires !w'.counters[p].Published? && CounterSound(w', p)
    ensures LifecycleInv(w')
  {
    forall q | 0 <= q < |w'.counters| ensures CounterSound(w', q) {
      assert CounterSound(w, q);
    }
    forall o | 0 <= o < |w'.objects| ensures ReadySound(w', o) && CreatorAccounted(w', o) {
      assert ReadySound(w, o) && CreatorAccounted(w, o);
    }
    ReportsStaySound(w, w');
  }

  // Reports are of ready objects, and those the step has left alone.
  lemma ReportsStaySound(w: World, w': World)
    requires ReportsSound(w) && w'.reports == w.reports && |w'.objects| >= |w.objects|
    requires forall o | 0 <= o < |w.objects| && Ready(w.objects[o]) :: Ready(w'.objects[o])
    requires forall p | 0 <= p < |w'.counters| && w'.counters[p].Published? ::
               p < |w.counters| && w.counters[p].Published?
    ensures ReportsSound(w')
  {
  }

  // At most one object can be ready, so nothing has been reported while the name belongs to one that is not.
  lemma NothingReadyYet(w: World, o: ObjectId)
    requires LifecycleInv(w) && w.bound == Some(o) && !Ready(w.objects[o])
    ensures forall a | 0 <= a < |w.objects| :: !Ready(w.objects[a])
    ensures w.reports == []
    ensures forall p | 0 <= p < |w.counters| :: !w.counters[p].Published? && !w.counters[p].Mapped?
  {
    assert w.reports != [] ==> Ready(w.objects[w.reports[0].target]);
    forall a | 0 <= a < |w.objects| ensures !Ready(w.objects[a]) {
      assert ReadySound(w, a);
    }
    forall p | 0 <= p < |w.counters| ensures !w.counters[p].Published? && !w.counters[p].Mapped? {
      assert CounterSound(w, p);
    }
  }

  lemma PublishKeeps(w: World, p: nat, ok: bool)
    requires LifecycleInv(w) && Enabled(w, Go(p, ok)) && w.counters[p].Publishing?
    ensures LifecycleInv(Next(w, Go(p, ok)))
  {
    var w', o := Next(w, Go(p, ok)), w.counters[p].target;
    assert CounterSound(w, p);
    NothingReadyYet(w, o);
    assert Usable(w'.abi, w'.objects[o]) by {
      assert OccupiedSet(Fresh(DEFAULT_CAPACITY).slots) == {};
    }
    forall q | 0 <= q < |w'.counters| ensures CounterSound(w', q) {
      assert CounterSound(w, q);
    }
    forall a | 0 <= a < |w'.objects| ensures ReadySound(w', a) && CreatorAccounted(w', a) {
    }
  }

  lemma ReportCreationKeeps(w: World, p: nat, ok: bool)
    requires LifecycleInv(w) && Enabled(w, Go(p, ok)) && w.counters[p].Published?
    ensures LifecycleInv(Next(w, Go(p, ok)))
  {
    var w', o := Next(w, Go(p, ok)), w.counters[p].target;
    assert CounterSound(w, p);
    assert w'.reports[|w.reports|] == Report(o, true);
    forall q | 0 <= q < |w'.counters| ensures CounterSound(w', q) && !w'.counters[q].Published? {
      assert CounterSound(w, q);
    }
    forall a | 0 <= a < |w'.objects| ensures ReadySound(w', a) && CreatorAccounted(w', a) {
      assert ReadySound(w, a);
    }
  }

  lemma CreateKeeps(w: World, p: nat)
    requires LifecycleInv(w) && Enabled(w, Go(p, true)) && w.counters[p].Creating? && w.bound == None
    ensures LifecycleInv(Next(w, Go(p, true)))
  {
    var w' := Next(w, Go(p, true));
    forall a | 0 <= a < |w.objects| ensures !Ready(w.objects[a]) {
      assert ReadySound(w, a);
    }
    forall q | 0 <= q < |w'.counters| ensures CounterSound(w', q) {
      assert CounterSound(w, q);
    }
    forall a | 0 <= a < |w'.objects| ensures ReadySound(w', a) && CreatorAccounted(w', a) {
    }
    ReportsStaySound(w, w');
  }

  lemma UnlinkKeeps(w: World, p: nat, ok: bool)
    requires LifecycleInv(w) && Enabled(w, Go(p, ok)) && w.counters[p].Unlinking?
    ensures LifecycleInv(Next(w, Go(p, ok)))
  {
    var w' := Next(w, Go(p, ok));
    assert CounterSound(w, p);
    NothingReadyYet(w, w.counters[p].target);
    forall q | 0 <= q < |w'.counters| ensures CounterSound(w', q) {
      assert CounterSound(w, q);
    }
    forall a | 0 <= a < |w'.objects| ensures ReadySound(w', a) && CreatorAccounted(w', a) {
    }
  }

  lemma UseKeeps(w: World, p: nat, cache: Cache)
    requires LifecycleInv(w) && Enabled(w, Use(p, cache))
    ensures LifecycleInv(Next(w, Use(p, cache)))
  {
    var w', o := Next(w, Use(p, cache)), w.counters[p].target;
    assert CounterSound(w, p);
    forall q | 0 <= q < |w'.counters| ensures CounterSound(w', q) {
      assert CounterSound(w, q);
    }
    forall a | 0 <= a < |w'.objects| ensures ReadySound(w', a) && CreatorAccounted(w', a) {
      assert ReadySound(w, a) && CreatorAccounted(w, a);
    }
    ReportsStaySound(w, w');
  }

  // The creator p has made progress with its object, which is still not ready.
  ghost predicate Builds(w: World, w': World, p: nat, o: ObjectId) {
    && w'.abi.entry > 0 && Moves(w, w', p) && CounterSound(w', p) && !w'.counters[p].Published?
    && o < |w'.objects| == |w.objects| && w'.objects == w.objects[o := w'.objects[o]]
    && w'.objects[o].creator == p && !Ready(w'.objects[o])
    && w'.bound == w.bound && w'.reports == w.reports
  }

  lemma FillingProgresses(w: World, p: nat, ok: bool)
    requires LifecycleInv(w) && Enabled(w, Go(p, ok)) && w.counters[p].Filling?
    ensures Builds(w, Next(w, Go(p, ok)), p, w.counters[p].target)
  {
    assert CounterSound(w, p);
  }

  lemma SettingUpProgresses(w: World, p: nat, ok: bool)
    requires LifecycleInv(w) && Enabled(w, Go(p, ok))
    requires var pc := w.counters[p];
             pc.Sizing? || pc.MappingNew? || pc.Zeroing? || pc.InitializingLock?
    ensures Builds(w, Next(w, Go(p, ok)), p, w.counters[p].target)
  {
    assert CounterSound(w, p);
  }

  lemma CreatorKeeps(w: World, p: nat, ok: bool)
    requires LifecycleInv(w) && Enabled(w, Go(p, ok)) && CreatorOf(w.counters[p]).Some?
    ensures LifecycleInv(Next(w, Go(p, ok)))
  {
    var pc, w' := w.counters[p], Next(w, Go(p, ok));
    assert CounterSound(w, p);
    if pc.Publishing? {
      PublishKeeps(w, p, ok);
    } else if pc.Unlinking? {
      UnlinkKeeps(w, p, ok);
    } else {
      if pc.Filling? {
        FillingProgresses(w, p, ok);
      } else {
        SettingUpProgresses(w, p, ok);
      }
      BuildingKeeps(w, w', p, w'.objects[pc.target]);
    }
  }

  lemma AttacherLooks(w: World, p: nat, ok: bool)
    requires LifecycleInv(w) && Enabled(w, Go(p, ok)) && HasObject(w.counters[p])
    requires CreatorOf(w.counters[p]).None? && !w.counters[p].Published?
    ensures var w' := Next(w, Go(p, ok));
            && CounterSound(w', p) && !w'.counters[p].Published? && Moves(w, w', p)
            && w'.objects == w.objects && w'.bound == w.bound
            && (w'.reports == w.reports ||
                (w'.counters[p].Mapped? && w'.reports == w.reports + [Report(w'.counters[p].target, false)]))
  {
    assert CounterSound(w, p);
  }

  lemma AttacherKeeps(w: World, p: nat, ok: bool)
    requires LifecycleInv(w) && Enabled(w, Go(p, ok)) && HasObject(w.counters[p])
    requires CreatorOf(w.counters[p]).None? && !w.counters[p].Published?
    ensures LifecycleInv(Next(w, Go(p, ok)))
  {
    AttacherLooks(w, p, ok);
    LookingKeeps(w, Next(w, Go(p, ok)), p);
  }

  lemma LifecycleStep(w: World, s: Step)
    requires LifecycleInv(w) && Enabled(w, s)
    ensures LifecycleInv(Next(w, s))
  {
    var pc := w.counters[s.p];
    match s
    case Begin(p, _) => LookingKeeps(w, Next(w, s), p);
    case Close(p) => LookingKeeps(w, Next(w, s), p);
    case Use(p, cache) => UseKeeps(w, p, cache);
    case Go(p, ok) =>
      if pc.Creating? && ok && w.bound.None? {
        CreateKeeps(w, p);
      } else if pc.Creating? || pc.Opening? {
        LookingKeeps(w, Next(w, s), p);
      } else if pc.Published? {
        ReportCreationKeeps(w, p, ok);
      } else if CreatorOf(pc).Some? {
        CreatorKeeps(w, p, ok);
      } else {
        AttacherKeeps(w, p, ok);
      }
  }

  lemma {:induction false} RunIsSafe(ws: seq<World>, steps: seq<Step>, i: nat)
    requires IsRun(ws, steps) && i < |ws|
    ensures LifecycleInv(ws[i])
  {
    if i == 0 {
    } else {
      RunIsSafe(ws, steps, i - 1);
      LifecycleStep(ws[i - 1], steps[i - 1]);
    }
  }

  // ---- The promises ----

  /** At most one object is ever ready; every successful open of the name maps that object; at most one open reports
      that it created it, and if any open has succeeded, its creator has reported or is about to. */
  lemma OneCacheOneCreator(ws: seq<World>, steps: seq<Step>, i: nat)
    requires IsRun(ws, steps) && i < |ws|
    ensures forall a, b | 0 <= a < |ws[i].objects| && 0 <= b < |ws[i].objects| &&
                          Ready(ws[i].objects[a]) && Ready(ws[i].objects[b]) :: a == b
    ensures forall m, n | 0 <= m < |ws[i].reports| && 0 <= n < |ws[i].reports| ::
              ws[i].reports[m].target == ws[i].reports[n].target
    ensures forall m, n | 0 <= m < |ws[i].reports| && 0 <= n < |ws[i].reports| &&
                          ws[i].reports[m].created && ws[i].reports[n].created :: m == n
    ensures forall m | 0 <= m < |ws[i].reports| ::
              || CreationReported(ws[i], ws[i].reports[m].target)
              || exists p | 0 <= p < |ws[i].counters| :: ws[i].counters[p] == Published(ws[i].reports[m].target)
  {
    var w := ws[i];
    RunIsSafe(ws, steps, i);
    forall a | 0 <= a < |w.objects| && Ready(w.objects[a]) ensures w.bound == Some(a) {
      assert ReadySound(w, a);
    }
    forall m | 0 <= m < |w.reports|
      ensures CreationReported(w, w.reports[m].target) ||
              exists p | 0 <= p < |w.counters| :: w.counters[p] == Published(w.reports[m].target)
    {
      assert CreatorAccounted(w, w.reports[m].target);
    }
  }

  // A failing creator that unlinks the name unlinks its own object, which is not ready.
  lemma OnlyOwnObjectUnlinked(ws: seq<World>, steps: seq<Step>, i: nat)
    requires IsRun(ws, steps) && i < |steps| && ws[i].bound.Some? && ws[i + 1].bound != ws[i].bound
    ensures var o := ws[i].bound.value;
            && o < |ws[i].objects| && ws[i].objects[o].creator == steps[i].p && !Ready(ws[i].objects[o])
            && ws[i].counters[steps[i].p] == Unlinking(o)
  {
    RunIsSafe(ws, steps, i);
    assert CounterSound(ws[i], steps[i].p);
  }

  // Whoever is about to use the lock, or has mapped the cache, finds the lock initialized and the layout accepted.
  lemma LockUsedOnlyWhenInitialized(ws: seq<World>, steps: seq<Step>, i: nat, p: nat)
    requires IsRun(ws, steps) && i < |ws| && p < |ws[i].counters|
    requires var pc := ws[i].counters[p];
             pc.CheckingLayout? || pc.LockingShared? || pc.CheckingCount? || pc.Mapped?
    ensures var o := ws[i].counters[p].target;
            o < |ws[i].objects| && ws[i].abi.entry > 0 && Usable(ws[i].abi, ws[i].objects[o])
  {
    RunIsSafe(ws, steps, i);
    assert CounterSound(ws[i], p);
    assert ReadySound(ws[i], ws[i].counters[p].target);
  }

  // A ready object stays as it is, the name with it, except for operations of processes that have it mapped.
  lemma AttachingChangesNothing(ws: seq<World>, steps: seq<Step>, i: nat, o: ObjectId)
    requires IsRun(ws, steps) && i < |steps| && o < |ws[i].objects| && Ready(ws[i].objects[o])
    ensures o < |ws[i + 1].objects| && Ready(ws[i + 1].objects[o]) && ws[i + 1].bound == Some(o)
    ensures ws[i + 1].objects[o] != ws[i].objects[o] ==> steps[i].Use? && ws[i].counters[steps[i].p].Mapped?
  {
    RunIsSafe(ws, steps, i);
    RunIsSafe(ws, steps, i + 1);
    assert ReadySound(ws[i], o);
    assert CounterSound(ws[i], steps[i].p);
    assert ReadySound(ws[i + 1], o);
  }

  // Creation of o failed: it is not ready and its creator no longer works on it.
  predicate Abandoned(w: World, o: ObjectId) {
    && o < |w.objects| && !Ready(w.objects[o]) && w.objects[o].creator < |w.counters|
    && CreatorOf(w.counters[w.objects[o].creator]) != Some(o)
  }

  lemma AbandonedStep(w: World, s: Step, o: ObjectId)
    requires LifecycleInv(w) && Enabled(w, s) && Abandoned(w, o)
    ensures Abandoned(Next(w, s), o)
  {
    assert CounterSound(w, s.p);
    if w.objects[o].creator == s.p {
      CreatorStaysAway(w, s, o);
    } else {
      OthersStay(w, s, w.objects[o].creator);
      AbandonedStaysUnready(w, s, o);
    }
  }

  lemma CreatorStaysAway(w: World, s: Step, o: ObjectId)
    requires LifecycleInv(w) && Enabled(w, s) && Abandoned(w, o) && w.objects[o].creator == s.p && CounterSound(w, s.p)
    ensures Abandoned(Next(w, s), o)
  {
  }

  lemma AbandonedStaysUnready(w: World, s: Step, o: ObjectId)
    requires LifecycleInv(w) && Enabled(w, s) && Abandoned(w, o) && w.objects[o].creator != s.p && CounterSound(w, s.p)
    ensures o < |Next(w, s).objects| && Next(w, s).objects[o] == w.objects[o]
  {
  }

  // An abandoned object stays abandoned.
  lemma AbandonedForever(ws: seq<World>, steps: seq<Step>, i: nat, k: nat, o: ObjectId)
    requires IsRun(ws, steps) && i <= k < |ws| && Abandoned(ws[i], o)
    ensures Abandoned(ws[k], o)
  {
    if !Abandoned(ws[k], o) {
      var j := Ceases(seq(|ws|, n requires 0 <= n < |ws| => Abandoned(ws[n], o)), i, k);
      RunIsSafe(ws, steps, j);
      AbandonedStep(ws[j], steps[j], o);
      assert false;
    }
  }

  // An object whose creation failed is never attached, then or later.
  lemma AbandonedNeverAttached(ws: seq<World>, steps: seq<Step>, i: nat, k: nat, o: ObjectId)
    requires IsRun(ws, steps) && i <= k < |ws| && Abandoned(ws[i], o)
    ensures forall m | 0 <= m < |ws[k].reports| :: ws[k].reports[m].target != o
  {
    AbandonedForever(ws, steps, i, k, o);
    RunIsSafe(ws, steps, k);
  }

  // p is creating o, or has published it, or has reported so.
  ghost predicate Pursues(w: World, p: nat, o: ObjectId) {
    p < |w.counters| && (CreatorOf(w.counters[p]) == Some(o) || w.counters[p] == Published(o) || CreationReported(w, o))
  }

  // In this step the creator p of o gives up, trying to unlink the name; if that works, the name is free.
  predicate GivesUp(w: World, s: Step, w': World, p: nat, o: ObjectId) {
    && p < |w.counters| == |w'.counters| && w.counters[p] == Unlinking(o) && w'.counters[p].Idle?
    && s.Go? && s.p == p && w'.bound == (if s.ok then None else w.bound)
  }

  lemma ReportsOnlyGrow(w: World, s: Step)
    requires Enabled(w, s)
    ensures |w.reports| <= |Next(w, s).reports| && Next(w, s).reports[..|w.reports|] == w.reports
  {
  }

  lemma ReportedStays(w: World, s: Step, o: ObjectId)
    requires Enabled(w, s) && CreationReported(w, o)
    ensures CreationReported(Next(w, s), o)
  {
    ReportsOnlyGrow(w, s);
    ReportsGrow(w, Next(w, s), o);
  }

  lemma OwnPursuitStep(w: World, s: Step, o: ObjectId)
    requires Enabled(w, s) && (CreatorOf(w.counters[s.p]) == Some(o) || w.counters[s.p] == Published(o))
    ensures Pursues(Next(w, s), s.p, o) || GivesUp(w, s, Next(w, s), s.p, o)
  {
    if w.counters[s.p] == Published(o) {
      assert Next(w, s).reports[|w.reports|] == Report(o, true);
    }
  }

  lemma OthersStay(w: World, s: Step, p: nat)
    requires Enabled(w, s) && p < |w.counters| && p != s.p
    ensures |Next(w, s).counters| == |w.counters| && Next(w, s).counters[p] == w.counters[p]
  {
  }

  lemma PursuitStep(w: World, s: Step, p: nat, o: ObjectId)
    requires Enabled(w, s) && Pursues(w, p, o)
    ensures Pursues(Next(w, s), p, o) || GivesUp(w, s, Next(w, s), p, o)
  {
    if CreationReported(w, o) {
      ReportedStays(w, s, o);
      ProcessesStay(w, s);
    } else if s.p == p {
      OwnPursuitStep(w, s, o);
    } else {
      OthersStay(w, s, p);
    }
  }

  lemma ProcessesStay(w: World, s: Step)
    requires Enabled(w, s)
    ensures |Next(w, s).counters| == |w.counters|
  {
  }

  // What holds first and not at last ceases to hold in between.
  lemma {:induction false} Ceases(holds: seq<bool>, i: nat, k: nat) returns (j: nat)
    requires i <= k < |holds| && holds[i] && !holds[k]
    ensures i <= j < k && holds[j] && !holds[j + 1]
  {
    if holds[k - 1] {
      j := k - 1;
    } else {
      j := Ceases(holds, i, k - 1);
    }
  }

  /** In any run a process that was creating an object, and is done with it without having reported it created, has in
      between given up on it and tried to unlink the name of that object; if that worked, the name was free again. */
  lemma FailedCreatorUnlinks(ws: seq<World>, steps: seq<Step>, i: nat, k: nat, p: nat, o: ObjectId)
    requires IsRun(ws, steps) && i <= k < |ws| && p < |ws[i].counters| && CreatorOf(ws[i].counters[p]) == Some(o)
    requires p < |ws[k].counters| && ws[k].counters[p].Idle? && !CreationReported(ws[k], o)
    ensures exists j | i <= j < k :: GivesUp(ws[j], steps[j], ws[j + 1], p, o)
  {
    var j := Ceases(seq(|ws|, n requires 0 <= n < |ws| => Pursues(ws[n], p, o)), i, k);
    PursuitStep(ws[j], steps[j], p, o);
  }

  // A call of the creator p of o fails, or the layout is impossible.
  predicate Fails(w: World, s: Step, p: nat, o: ObjectId) {
    && s.Go? && s.p == p < |w.counters| && CreatorOf(w.counters[p]) == Some(o) && !w.counters[p].Unlinking?
    && w.abi.entry > 0 && (!s.ok || !Layout.ValidCapacity(w.abi, SHARED_MEMORY_SIZE, DEFAULT_CAPACITY))
  }

  predicate UnlinksNow(w: World, p: nat, o: ObjectId) {
    p < |w.counters| && w.counters[p] == Unlinking(o)
  }

  lemma FailureStep(w: World, s: Step, p: nat, o: ObjectId)
    requires Enabled(w, s) && !UnlinksNow(w, p, o) && UnlinksNow(Next(w, s), p, o)
    ensures Fails(w, s, p, o)
  {
  }

  // Nobody unlinks who has not failed.
  lemma UnlinkingMeansFailure(ws: seq<World>, steps: seq<Step>, k: nat, p: nat, o: ObjectId)
    requires IsRun(ws, steps) && k < |ws| && p < |ws[k].counters| && ws[k].counters[p] == Unlinking(o)
    ensures exists m | 0 <= m < k :: Fails(ws[m], steps[m], p, o)
  {
    var j := Ceases(seq(|ws|, n requires 0 <= n < |ws| => !UnlinksNow(ws[n], p, o)), 0, k);
    ProcessesStay(ws[j], steps[j]);
    FailureStep(ws[j], steps[j], p, o);
  }

  // An attacher whose calls succeed is never turned away from a ready object.
  lemma ReadyObjectIsAccepted(ws: seq<World>, steps: seq<Step>, i: nat)
    requires IsRun(ws, steps) && i < |steps| && steps[i].Go? && steps[i].ok && HasObject(ws[i].counters[steps[i].p])
    requires var pc := ws[i].counters[steps[i].p];
             CreatorOf(pc).None? && pc.target < |ws[i].objects| && Ready(ws[i].objects[pc.target])
    ensures var pc' := ws[i + 1].counters[steps[i].p];
            HasObject(pc') && pc'.target == ws[i].counters[steps[i].p].target
  {
    RunIsSafe(ws, steps, i);
    assert ReadySound(ws[i], ws[i].counters[steps[i].p].target);
    CountFits(ws[i].objects[ws[i].counters[steps[i].p].target].cache);
  }

  lemma CountFits(c: Cache)
    requires CacheInv(c)
    ensures c.count <= |c.slots|
  {
    CountBound(c.slots);
  }
}
