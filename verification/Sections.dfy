/** The exclusive sections turn by turn: each turn inspects one slot, or makes one change. What a section has done so
    far is tied to the cache it began with; when it ends, it has done what the section as a whole is specified to do. */
module Sections {
  import opened CStrings
  import opened Table
  import opened TtlMap
  import opened CacheSpec
  import opened Refinement
  import opened Processes
  import Hash

  // Where a section is. t0 is the first clock reading, once the section has taken it.
  datatype Section =
    | Outside
    | Seeking(i: nat, reuse: int, round: nat, t0: nat)   // find_slot_internal, for the first, second or third time
    | Reclaiming(i: nat, t0: nat)                        // reclaim_expired
    | Choosing(i: nat, oldest: int, t0: nat)             // evict_oldest_write
    | Storing(index: nat, t0: nat)
    | Looking(i: nat)                                    // the probe loop of update, delete and purge
    | Rewriting(index: nat, t0: nat)

  datatype Progress = Going(cache: Cache, section: Section) | Finished(cache: Cache, ok: bool)

  predicate InBounds(section: Section, n: nat) {
    match section
    case Seeking(i, reuse, _, _) => i <= n && -1 <= reuse < n
    case Reclaiming(i, _) => i <= n
    case Choosing(i, oldest, _) => i <= n && -1 <= oldest < n
    case Storing(index, _) => index < n
    case Looking(i) => i <= n
    case Rewriting(index, _) => index < n
    case Outside => true
  }

  // ---- One turn of a probe loop ----

  // One turn of find_slot_internal: the slot it settles on and its collisions, or the slot to reuse so far.
  datatype Sought = Chosen(index: int, collisions: nat) | NotYet(reuse: int)

  function SeekTurn(t: Slots, key: CString, i: nat, reuse: int): Sought
    requires |t| > 0
  {
    if i >= |t| then Chosen(reuse, |t| - 1)
    else
      var j := Pos(Hash.Start(key, |t|), i, |t|);
      match t[j].state
      case EMPTY => Chosen(if reuse != -1 then reuse else j, i)
      case DELETED => NotYet(if reuse == -1 then j else reuse)
      case OCCUPIED => if t[j].key == key then Chosen(j, i) else NotYet(reuse)
  }

  lemma SeekTurnSound(t: Slots, key: CString, i: nat, reuse: int)
    requires Inv(t) && SeekSound(t, key, i, reuse)
    ensures match SeekTurn(t, key, i, reuse)
            case NotYet(reuse') => i < |t| && SeekSound(t, key, i + 1, reuse')
            case Chosen(index, collisions) => index == SlotFor(t, key) && collisions == Collisions(t, key)
  {
    if i == |t| || Stops(t, key, Pos(Hash.Start(key, |t|), i, |t|)) {
      SeekEnds(t, key, i, reuse);
    } else {
      SeekGoesOn(t, key, i, reuse);
    }
  }

  // One turn of the loops that look for a stored key: the slot, or -1, and the collisions, or None to go on.
  function LookTurn(t: Slots, key: CString, i: nat): Option<(int, nat)>
    requires |t| > 0
  {
    if i >= |t| then Some((-1, |t| - 1))
    else
      var j := Pos(Hash.Start(key, |t|), i, |t|);
      if t[j].state == EMPTY then Some((-1, i)) else if Holds(t, j, key) then Some((j, i)) else None
  }

  lemma LookTurnSound(t: Slots, key: CString, i: nat)
    requires Inv(t) && LookSound(t, key, i)
    ensures match LookTurn(t, key, i)
            case None => i < |t| && LookSound(t, key, i + 1)
            case Some(found) => found == (Find(t, key), Collisions(t, key))
  {
    if LookTurn(t, key, i).Some? {
      LookEnds(t, key, i);
    }
  }

  // ---- Turns of the sections ----

  function Counted(c: Cache, collisions: nat): Cache {
    c.(collisions := c.collisions + collisions)
  }

  function SeekingTurn(c: Cache, key: CString, section: Section, now: nat): Progress
    requires |c.slots| > 0 && section.Seeking?
  {
    var Seeking(i, reuse, round, t0) := section;
    match SeekTurn(c.slots, key, i, reuse)
    case NotYet(reuse') => Going(c, Seeking(i + 1, reuse', round, t0))
    case Chosen(index, collisions) => AfterSearch(Counted(c, collisions), index, round, t0, now)
  }

  // How a put goes on after a search that has been counted.
  function AfterSearch(c: Cache, index: int, round: nat, t0: nat, now: nat): Progress {
    if index >= 0 then Going(c, Storing(index, if round == 0 then now else t0))
    else if round == 0 then Going(c, Reclaiming(0, now))
    else if round == 1 then Going(c, Choosing(0, -1, t0))
    else Finished(c, false)
  }

  function ReclaimingTurn(c: Cache, section: Section): Progress
    requires section.Reclaiming?
  {
    var Reclaiming(i, t0) := section;
    if i >= |c.slots| then Going(c, Seeking(0, -1, 1, t0))
    else Going(if Stale(c.slots[i], t0) then RemoveAt(c, i) else c, Reclaiming(i + 1, t0))
  }

  function ChoosingTurn(c: Cache, section: Section): Progress
    requires section.Choosing? && InBounds(section, |c.slots|)
  {
    var Choosing(i, oldest, t0) := section;
    if i < |c.slots| then
      var older := Occupied(c.slots, i) && (oldest == -1 || c.slots[i].timestamp < c.slots[oldest].timestamp);
      Going(c, Choosing(i + 1, if older then i else oldest, t0))
    else if oldest == -1 then Finished(c, false)
    else Going(RemoveAt(c, oldest), Seeking(0, -1, 2, t0))
  }

  function PutTurn(c: Cache, key: CString, value: CString, ttl: nat, section: Section, now: nat): Progress
    requires |c.slots| > 0 && InBounds(section, |c.slots|)
  {
    match section
    case Outside => SeekingTurn(c, key, Seeking(0, -1, 0, now), now)
    case Seeking(_, _, _, _) => SeekingTurn(c, key, section, now)
    case Reclaiming(_, _) => ReclaimingTurn(c, section)
    case Choosing(_, _, _) => ChoosingTurn(c, section)
    case Storing(index, _) => Finished(Write(c, index, key, value, ttl, now), true)
    case _ => Finished(c, false)
  }

  function UpdateTurn(c: Cache, key: CString, value: CString, section: Section, now: nat): Progress
    requires |c.slots| > 0 && InBounds(section, |c.slots|)
  {
    if section.Rewriting? then
      var j := section.index;
      Finished(c.(slots := c.slots[j := c.slots[j].(value := value, timestamp := now)]), true)
    else
      var i := if section.Looking? then section.i else 0;
      match LookTurn(c.slots, key, i)
      case None => Going(c, Looking(i + 1))
      case Some((j, collisions)) =>
        var c' := Counted(c, collisions);
        if j < 0 then Finished(c', false)
        else if Stale(c.slots[j], now) then Finished(RemoveAt(c', j), false)
        else Going(c', Rewriting(j, now))
  }

  function DeleteTurn(c: Cache, key: CString, section: Section): Progress
    requires |c.slots| > 0
  {
    var i := if section.Looking? then section.i else 0;
    match LookTurn(c.slots, key, i)
    case None => Going(c, Looking(i + 1))
    case Some((j, collisions)) =>
      var c' := Counted(c, collisions);
      if j < 0 then Finished(c', false) else Finished(RemoveAt(c', j), true)
  }

  // The second phase of a get, which counts what the first one inspected.
  function PurgeTurn(c: Cache, key: CString, collisions: nat, section: Section, now: nat): Progress
    requires |c.slots| > 0
  {
    var i := if section.Looking? then section.i else 0;
    match LookTurn(c.slots, key, i)
    case None => Going(c, Looking(i + 1))
    case Some((j, _)) =>
      Finished(CountGet(if j >= 0 && Stale(c.slots[j], now) then RemoveAt(c, j) else c, false, collisions), false)
  }

  function WriteTurn(c: Cache, op: Operation, section: Section, now: nat): Progress
    requires |c.slots| > 0 && InBounds(section, |c.slots|)
  {
    match op
    case Put(key, value, ttl) => PutTurn(c, key, value, ttl, section, now)
    case Update(key, value) => UpdateTurn(c, key, value, section, now)
    case Delete(key) => DeleteTurn(c, key, section)
    case Get(_) => Finished(c, false)
  }

  // ---- What a section has done so far to the cache c0 it began with, at time from ----

  // Between reclaiming and the end of a put: the reclaimed cache, in which a search for key fails or not.
  function Reclaimed(c0: Cache, key: CString, t0: nat): Cache
    requires |c0.slots| > 0
  {
    Reclaim(Searched(c0, key), t0)
  }

  ghost predicate PutSound(c0: Cache, c: Cache, key: CString, value: CString, ttl: nat, section: Section)
    requires |c0.slots| > 0
  {
    match section
    case Outside => c == c0
    case Seeking(i, reuse, round, t0) =>
      && SeekSound(c.slots, key, i, reuse)
      && (round == 0 ==> c == c0)
      && (round > 0 ==> SlotFor(c0.slots, key) < 0)
      && (round == 1 ==> c == Reclaimed(c0, key, t0))
      && (round > 1 ==> SlotFor(Reclaimed(c0, key, t0).slots, key) < 0 &&
                        Evict(Searched(Reclaimed(c0, key, t0), key)) == (true, c))
    case Reclaiming(i, t0) =>
      SlotFor(c0.slots, key) < 0 && i <= |c0.slots| && c == ReclaimUpTo(Searched(c0, key), t0, i)
    case Choosing(i, oldest, t0) =>
      && SlotFor(c0.slots, key) < 0 && SlotFor(Reclaimed(c0, key, t0).slots, key) < 0
      && c == Searched(Reclaimed(c0, key, t0), key)
      && i <= |c.slots| && oldest == VictimBelow(c.slots, i)
    case Storing(index, t0) =>
      index < |c.slots| && StoreCompletes(c0, c, key, value, ttl, index, t0)
    case _ => false
  }

  // Whenever the entry is stored in index, that completes the put.
  ghost predicate StoreCompletes(c0: Cache, c: Cache, key: CString, value: CString, ttl: nat, index: nat, t0: nat)
    requires |c0.slots| > 0 && index < |c.slots|
  {
    forall t1: nat :: PutLocked(c0, key, value, ttl, t0, t1) == (true, Write(c, index, key, value, ttl, t1))
  }

  ghost predicate UpdateSound(c0: Cache, c: Cache, key: CString, section: Section)
    requires |c0.slots| > 0
  {
    match section
    case Outside => c == c0
    case Looking(i) => c == c0 && LookSound(c.slots, key, i)
    case Rewriting(index, t0) =>
      c == Searched(c0, key) && index == Find(c0.slots, key) && !Stale(c0.slots[index], t0)
    case _ => false
  }

  ghost predicate LookingSound(c0: Cache, c: Cache, key: CString, section: Section) {
    c == c0 && (section.Outside? || (section.Looking? && LookSound(c.slots, key, section.i)))
  }

  ghost predicate WriteSound(c0: Cache, c: Cache, op: Operation, section: Section)
    requires |c0.slots| > 0
  {
    match op
    case Put(key, value, ttl) => PutSound(c0, c, key, value, ttl, section)
    case Update(key, _) => UpdateSound(c0, c, key, section)
    case Delete(key) => LookingSound(c0, c, key, section)
    case Get(_) => false
  }

  // A clock reading taken in a section lies between its beginning and now.
  predicate Timely(section: Section, from: nat, now: nat) {
    from <= now &&
    match section
    case Seeking(_, _, _, t0) => from <= t0 <= now
    case Reclaiming(_, t0) => from <= t0 <= now
    case Choosing(_, _, t0) => from <= t0 <= now
    case Storing(_, t0) => from <= t0 <= now
    case Rewriting(_, t0) => from <= t0 <= now
    case _ => true
  }

  // The first clock reading of a section that ends now.
  function FirstReading(section: Section, now: nat): nat {
    match section
    case Seeking(_, _, _, t0) => t0
    case Choosing(_, _, t0) => t0
    case Storing(_, t0) => t0
    case Rewriting(_, t0) => t0
    case _ => now
  }

  // ---- Each turn keeps it, and the last turn completes the section ----

  // The turn leaves a sound section, or has done all of what the section is specified to do.
  ghost predicate TurnSound(c0: Cache, op: Operation, section: Section, now: nat, progress: Progress)
    requires |c0.slots| > 0
  {
    match progress
    case Going(c', section') =>
      && |c'.slots| == |c0.slots| && InBounds(section', |c'.slots|)
      && section' != Outside && WriteSound(c0, c', op, section')
    case Finished(c', ok) => WriteEffect(c0, op, FirstReading(section, now), now) == (ok, c')
  }

  // A turn of a search either leaves it to go on, or the search has found what it is specified to find.
  lemma SeekingTurnCases(c: Cache, key: CString, section: Section, now: nat)
    requires section.Seeking? && Inv(c.slots) && SeekSound(c.slots, key, section.i, section.reuse)
    ensures var progress := SeekingTurn(c, key, section, now);
            if SeekTurn(c.slots, key, section.i, section.reuse).NotYet?
            then
              && progress.Going? && progress.cache == c && progress.section.Seeking?
              && InBounds(progress.section, |c.slots|)
              && progress.section == Seeking(section.i + 1, progress.section.reuse, section.round, section.t0)
              && SeekSound(c.slots, key, section.i + 1, progress.section.reuse)
            else progress == AfterSearch(Searched(c, key), SlotFor(c.slots, key), section.round, section.t0, now)
  {
    SeekTurnSound(c.slots, key, section.i, section.reuse);
  }

  lemma FirstSearchDone(c0: Cache, op: Operation, section: Section, now: nat)
    requires |c0.slots| > 0 && op.Put? && section.Seeking? && section.round == 0
    ensures TurnSound(c0, op, section, now,
                      AfterSearch(Searched(c0, op.key), SlotFor(c0.slots, op.key), 0, section.t0, now))
  {
  }

  lemma SecondSearchDone(c0: Cache, c: Cache, op: Operation, section: Section, now: nat)
    requires |c0.slots| > 0 && op.Put? && section.Seeking? && section.round == 1
    requires SlotFor(c0.slots, op.key) < 0 && c == Reclaimed(c0, op.key, section.t0)
    ensures TurnSound(c0, op, section, now,
                      AfterSearch(Searched(c, op.key), SlotFor(c.slots, op.key), 1, section.t0, now))
  {
  }

  // A put that has evicted goes on as specified.
  lemma PutAfterEviction(c0: Cache, c: Cache, key: CString, value: CString, ttl: nat, t0: nat, t1: nat)
    requires |c0.slots| > 0 && SlotFor(c0.slots, key) < 0 && SlotFor(Reclaimed(c0, key, t0).slots, key) < 0
    requires Evict(Searched(Reclaimed(c0, key, t0), key)) == (true, c)
    ensures PutLocked(c0, key, value, ttl, t0, t1) == PutEvicted(c, key, value, ttl, t1)
  {
  }

  lemma ThirdSearchDone(c0: Cache, c: Cache, op: Operation, section: Section, now: nat)
    requires |c.slots| == |c0.slots| > 0 && op.Put? && section.Seeking? && section.round > 1
    requires SlotFor(c0.slots, op.key) < 0 && SlotFor(Reclaimed(c0, op.key, section.t0).slots, op.key) < 0
    requires Evict(Searched(Reclaimed(c0, op.key, section.t0), op.key)) == (true, c)
    ensures TurnSound(c0, op, section, now,
                      AfterSearch(Searched(c, op.key), SlotFor(c.slots, op.key), section.round, section.t0, now))
  {
    PutAfterEviction(c0, c, op.key, op.value, op.ttl, section.t0, now);
    if SlotFor(c.slots, op.key) >= 0 {
      EvictedStoreCompletes(c0, c, op.key, op.value, op.ttl, section.t0);
    }
  }

  lemma EvictedStoreCompletes(c0: Cache, c: Cache, key: CString, value: CString, ttl: nat, t0: nat)
    requires |c.slots| == |c0.slots| > 0 && SlotFor(c0.slots, key) < 0 && SlotFor(Reclaimed(c0, key, t0).slots, key) < 0
    requires Evict(Searched(Reclaimed(c0, key, t0), key)) == (true, c) && SlotFor(c.slots, key) >= 0
    ensures StoreCompletes(c0, Searched(c, key), key, value, ttl, SlotFor(c.slots, key), t0)
  {
    forall t1: nat
      ensures PutLocked(c0, key, value, ttl, t0, t1) ==
              (true, Write(Searched(c, key), SlotFor(c.slots, key), key, value, ttl, t1))
    {
      PutAfterEviction(c0, c, key, value, ttl, t0, t1);
    }
  }

  lemma EvictedInv(c0: Cache, c: Cache, key: CString, t0: nat)
    requires CacheInv(c0) && Evict(Searched(Reclaimed(c0, key, t0), key)) == (true, c)
    ensures CacheInv(c) && |c.slots| == |c0.slots|
  {
    var c1 := Searched(Reclaimed(c0, key, t0), key);
    ReclaimRefines(Searched(c0, key), t0);
    RemoveRefines(c1, Victim(c1.slots));
  }

  // In each round of searching the table is sound.
  lemma SearchedInv(c0: Cache, c: Cache, op: Operation, section: Section)
    requires CacheInv(c0) && op.Put? && section.Seeking? && WriteSound(c0, c, op, section)
    ensures CacheInv(c) && |c.slots| == |c0.slots|
  {
    if section.round == 1 {
      ReclaimRefines(Searched(c0, op.key), section.t0);
    } else if section.round > 1 {
      EvictedInv(c0, c, op.key, section.t0);
    }
  }

  lemma SearchingSound(c0: Cache, c: Cache, op: Operation, section: Section, now: nat)
    requires CacheInv(c0) && |c.slots| > 0 && op.Put? && section.Seeking? && WriteSound(c0, c, op, section)
    ensures TurnSound(c0, op, section, now, SeekingTurn(c, op.key, section, now))
  {
    SearchedInv(c0, c, op, section);
    SeekingTurnCases(c, op.key, section, now);
    if SeekTurn(c.slots, op.key, section.i, section.reuse).Chosen? {
      SearchDone(c0, c, op, section, now);
    }
  }

  lemma SearchDone(c0: Cache, c: Cache, op: Operation, section: Section, now: nat)
    requires |c.slots| == |c0.slots| > 0 && op.Put? && section.Seeking? && WriteSound(c0, c, op, section)
    ensures TurnSound(c0, op, section, now,
                      AfterSearch(Searched(c, op.key), SlotFor(c.slots, op.key), section.round, section.t0, now))
  {
    if section.round == 0 {
      FirstSearchDone(c0, op, section, now);
    } else if section.round == 1 {
      SecondSearchDone(c0, c, op, section, now);
    } else {
      ThirdSearchDone(c0, c, op, section, now);
    }
  }

  lemma ReclaimingSound(c0: Cache, c: Cache, op: Operation, section: Section, now: nat)
    requires |c0.slots| > 0 && op.Put? && section.Reclaiming? && WriteSound(c0, c, op, section)
    ensures TurnSound(c0, op, section, now, ReclaimingTurn(c, section))
  {
  }

  lemma ChoosingTurnIs(c: Cache, section: Section)
    requires section.Choosing? && section.i < |c.slots| && section.oldest == VictimBelow(c.slots, section.i)
    ensures var oldest := VictimBelow(c.slots, section.i + 1);
            ChoosingTurn(c, section) == Going(c, Choosing(section.i + 1, oldest, section.t0))
  {
  }

  lemma ChoosingSound(c0: Cache, c: Cache, op: Operation, section: Section, now: nat)
    requires |c0.slots| > 0 && op.Put? && section.Choosing? && section.i < |c.slots| && WriteSound(c0, c, op, section)
    ensures TurnSound(c0, op, section, now, ChoosingTurn(c, section))
  {
    ChoosingTurnIs(c, section);
  }

  // A put that gets as far as choosing a victim finds one: it never leaves by the exit for an empty table.
  lemma ChosenSound(c0: Cache, c: Cache, op: Operation, section: Section, now: nat)
    requires |c0.slots| > 0 && op.Put? && section.Choosing? && section.i == |c.slots| && WriteSound(c0, c, op, section)
    ensures ChoosingTurn(c, section).Going?
    ensures TurnSound(c0, op, section, now, ChoosingTurn(c, section))
  {
    SlotForFailsIffFull(Reclaimed(c0, op.key, section.t0).slots, op.key);
    assert Occupied(c.slots, 0);
    assert Evict(c) == (true, RemoveAt(c, section.oldest));
  }

  lemma PutTurnSound(c0: Cache, c: Cache, op: Operation, section: Section, now: nat)
    requires CacheInv(c0) && op.Put? && WriteSound(c0, c, op, section) && InBounds(section, |c.slots|) && |c.slots| > 0
    ensures TurnSound(c0, op, section, now, PutTurn(c, op.key, op.value, op.ttl, section, now))
  {
    match section
    case Outside => SearchingSound(c0, c, op, Seeking(0, -1, 0, now), now);
    case Seeking(_, _, _, _) => SearchingSound(c0, c, op, section, now);
    case Reclaiming(_, _) => ReclaimingSound(c0, c, op, section, now);
    case Choosing(i, _, _) =>
      if i < |c.slots| {
        ChoosingSound(c0, c, op, section, now);
      } else {
        ChosenSound(c0, c, op, section, now);
      }
    case Storing(_, _) =>
  }

  lemma UpdateTurnSound(c0: Cache, c: Cache, op: Operation, section: Section, now: nat)
    requires CacheInv(c0) && op.Update? && WriteSound(c0, c, op, section)
    requires InBounds(section, |c.slots|) && |c.slots| > 0
    ensures TurnSound(c0, op, section, now, UpdateTurn(c, op.key, op.value, section, now))
  {
    if !section.Rewriting? {
      LookTurnSound(c.slots, op.key, if section.Looking? then section.i else 0);
    }
  }

  lemma DeleteTurnSound(c0: Cache, c: Cache, op: Operation, section: Section, now: nat)
    requires CacheInv(c0) && op.Delete? && WriteSound(c0, c, op, section)
    ensures TurnSound(c0, op, section, now, DeleteTurn(c, op.key, section))
  {
    LookTurnSound(c.slots, op.key, if section.Looking? then section.i else 0);
  }

  /** Every turn of an exclusive section keeps the section sound, or completes what the section is specified to do. */
  lemma WriteTurnSound(c0: Cache, c: Cache, op: Operation, section: Section, now: nat)
    requires CacheInv(c0) && WriteSound(c0, c, op, section) && InBounds(section, |c.slots|) && |c.slots| > 0
    ensures TurnSound(c0, op, section, now, WriteTurn(c, op, section, now))
  {
    match op
    case Put(_, _, _) => PutTurnSound(c0, c, op, section, now);
    case Update(_, _) => UpdateTurnSound(c0, c, op, section, now);
    case Delete(_) => DeleteTurnSound(c0, c, op, section, now);
  }

  lemma PurgeTurnSound(c0: Cache, c: Cache, key: CString, collisions: nat, section: Section, now: nat)
    requires CacheInv(c0) && LookingSound(c0, c, key, section)
    ensures match PurgeTurn(c, key, collisions, section, now)
            case Going(c', section') =>
              |c'.slots| == |c0.slots| && InBounds(section', |c'.slots|) && section' != Outside &&
              LookingSound(c0, c', key, section')
            case Finished(c', _) => c' == PurgeLocked(c0, key, collisions, now)
  {
    LookTurnSound(c.slots, key, if section.Looking? then section.i else 0);
  }

  lemma TurnsAreTimely(c: Cache, op: Operation, section: Section, from: nat, now: nat)
    requires |c.slots| > 0 && InBounds(section, |c.slots|) && Timely(section, from, now)
    ensures WriteTurn(c, op, section, now).Going? ==> Timely(WriteTurn(c, op, section, now).section, from, now)
    ensures from <= FirstReading(section, now) <= now
  {
  }

  // ---- Sections end ----

  // More turns than these a section over n slots does not take.
  function TurnsLeft(section: Section, n: nat): (turns: nat)
    requires InBounds(section, n)
    ensures turns <= 5 * n + 8
  {
    match section
    case Outside => 5 * n + 8
    case Seeking(i, _, round, _) =>
      n - i + (if round == 0 then 4 * n + 7 else if round == 1 then 2 * n + 4 else 2)
    case Reclaiming(i, _) => n - i + 3 * n + 6
    case Choosing(i, _, _) => n - i + n + 3
    case Looking(i) => n - i + 2
    case Storing(_, _) => 1
    case Rewriting(_, _) => 1
  }

  lemma SeekingTurnsDecrease(c: Cache, key: CString, section: Section, now: nat)
    requires |c.slots| > 0 && section.Seeking? && InBounds(section, |c.slots|)
    ensures var progress := SeekingTurn(c, key, section, now);
            progress.Going? && InBounds(progress.section, |c.slots|) ==>
              TurnsLeft(progress.section, |c.slots|) < TurnsLeft(section, |c.slots|)
  {
  }

  // Every turn brings a section closer to its end.
  lemma TurnsDecrease(c0: Cache, c: Cache, op: Operation, section: Section, now: nat)
    requires CacheInv(c0) && WriteSound(c0, c, op, section) && InBounds(section, |c.slots|) && |c.slots| > 0
    ensures var progress := WriteTurn(c, op, section, now);
            progress.Going? ==>
              |progress.cache.slots| == |c0.slots| == |c.slots| && InBounds(progress.section, |c.slots|) &&
              TurnsLeft(progress.section, |c.slots|) < TurnsLeft(section, |c.slots|)
  {
    WriteTurnSound(c0, c, op, section, now);
    match op
    case Put(key, value, ttl) => PutTurnsDecrease(c, key, value, ttl, section, now);
    case _ =>
  }

  lemma PutTurnsDecrease(c: Cache, key: CString, value: CString, ttl: nat, section: Section, now: nat)
    requires |c.slots| > 0 && InBounds(section, |c.slots|)
    ensures var progress := PutTurn(c, key, value, ttl, section, now);
            progress.Going? && InBounds(progress.section, |c.slots|) ==>
              TurnsLeft(progress.section, |c.slots|) < TurnsLeft(section, |c.slots|)
  {
    match section
    case Outside => SeekingTurnsDecrease(c, key, Seeking(0, -1, 0, now), now);
    case Seeking(_, _, _, _) => SeekingTurnsDecrease(c, key, section, now);
    case _ =>
  }

  lemma PurgeTurnsDecrease(c0: Cache, c: Cache, key: CString, collisions: nat, section: Section, now: nat)
    requires CacheInv(c0) && LookingSound(c0, c, key, section) && InBounds(section, |c.slots|)
    ensures var progress := PurgeTurn(c, key, collisions, section, now);
            progress.Going? ==>
              InBounds(progress.section, |c.slots|) &&
              TurnsLeft(progress.section, |c.slots|) < TurnsLeft(section, |c.slots|)
  {
    PurgeTurnSound(c0, c, key, collisions, section, now);
  }
}
