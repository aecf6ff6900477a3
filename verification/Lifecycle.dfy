/** Creating, publishing and attaching a named region: cache_open_shared in any number of processes, step by step, with
    failure possible at every system call, and unlinking done by failing creators only. */
module Lifecycle {
  import opened TtlMap
  import opened CacheSpec
  import opened Table
  import Layout

  type ObjectId = nat

  const CACHE_MAGIC: nat := 0xDEAD_BEEF
  const CACHE_VERSION: nat := 1
  const SHARED_MEMORY_SIZE: nat := 4 * 1024 * 1024
  const DEFAULT_CAPACITY: nat := 1000

  // A shared-memory object and what lies in it. lockReady: pthread_rwlock_init has succeeded on it.
  datatype Region = Region(creator: nat, size: nat, magic: nat, version: nat, capacity: nat, dataOffset: nat,
                           lockReady: bool, cache: Cache)

  datatype Counter =
    | Idle
    | Creating                                   // before shm_open(O_CREAT | O_EXCL)
    | Opening                                    // before plain shm_open
    // The creator of an object.
    | Sizing(target: ObjectId)                   // before ftruncate
    | MappingNew(target: ObjectId)               // before mmap
    | Zeroing(target: ObjectId)                  // before memset
    | Filling(target: ObjectId, field: nat)      // storing version, capacity, data_offset
    | InitializingLock(target: ObjectId)         // before cache_init_lock
    | Publishing(target: ObjectId)               // before the release store of the magic word
    | Published(target: ObjectId)                // about to report success
    | Unlinking(target: ObjectId)                // creation failed; before shm_unlink
    // Everyone else.
    | Inspecting(target: ObjectId)               // before fstat
    | MappingOld(target: ObjectId)               // before mmap
    | CheckingMagic(target: ObjectId)            // before the acquire load of the magic word
    | CheckingLayout(target: ObjectId)
    | LockingShared(target: ObjectId)            // before pthread_rwlock_rdlock
    | CheckingCount(target: ObjectId)            // shared lock held
    | Mapped(target: ObjectId, created: bool)

  // A successful return of cache_open_shared.
  datatype Report = Report(target: ObjectId, created: bool)

  datatype World = World(abi: Layout.Abi, bound: Option<ObjectId>, objects: seq<Region>, counters: seq<Counter>,
                         reports: seq<Report>)

  datatype Step =
    | Begin(p: nat, createIfMissing: bool)
    | Go(p: nat, ok: bool)                       // ok: the next system call, if there is one, succeeds
    | Use(p: nat, cache: Cache)                  // an operation on a mapped cache
    | Close(p: nat)

  const NOTHING := Cache([], 0, 0, 0, 0)

  function Fresh(capacity: nat): Cache {
    Cache(seq(capacity, _ => EMPTY_ENTRY), 0, 0, 0, 0)
  }

  predicate Ready(r: Region) {
    r.magic == CACHE_MAGIC
  }

  // The object a process is in the course of creating.
  function CreatorOf(pc: Counter): Option<ObjectId> {
    match pc
    case Sizing(o) => Some(o)
    case MappingNew(o) => Some(o)
    case Zeroing(o) => Some(o)
    case Filling(o, _) => Some(o)
    case InitializingLock(o) => Some(o)
    case Publishing(o) => Some(o)
    case Unlinking(o) => Some(o)
    case _ => None
  }

  predicate Initial(w: World) {
    w.abi.entry > 0 && w.bound == None && w.objects == [] && w.reports == [] &&
    forall p | 0 <= p < |w.counters| :: w.counters[p] == Idle
  }

  ghost predicate Enabled(w: World, s: Step) {
    w.abi.entry > 0 && s.p < |w.counters| &&
    var pc := w.counters[s.p];
    match s
    case Begin(_, _) => pc == Idle
    case Go(_, _) =>
      pc != Idle && !pc.Mapped? && (pc.Creating? || pc.Opening? || pc.target < |w.objects|)
    case Use(_, cache) =>
      pc.Mapped? && pc.target < |w.objects| && CacheInv(cache) && |cache.slots| == |w.objects[pc.target].cache.slots|
    case Close(_) => pc.Mapped?
  }

  function Move(w: World, p: nat, pc: Counter): World
    requires p < |w.counters|
  {
    w.(counters := w.counters[p := pc])
  }

  function Edit(w: World, o: ObjectId, r: Region): World
    requires o < |w.objects|
  {
    w.(objects := w.objects[o := r])
  }

  // How a creator goes on, and what it does to its object r.
  function CreatorMove(abi: Layout.Abi, o: ObjectId, pc: Counter, r: Region, ok: bool): (Counter, Region)
    requires abi.entry > 0
  {
    match pc
    case Sizing(_) => if ok then (MappingNew(o), r.(size := SHARED_MEMORY_SIZE)) else (Unlinking(o), r)
    case MappingNew(_) =>
      (if ok && Layout.ValidCapacity(abi, SHARED_MEMORY_SIZE, DEFAULT_CAPACITY) then Zeroing(o) else Unlinking(o), r)
    case Zeroing(_) => (Filling(o, 0), Region(r.creator, r.size, 0, 0, 0, 0, false, NOTHING))
    case Filling(_, field) =>
      if field == 0 then (Filling(o, 1), r.(version := CACHE_VERSION))
      else if field == 1 then (Filling(o, 2), r.(capacity := DEFAULT_CAPACITY, cache := Fresh(DEFAULT_CAPACITY)))
      else (InitializingLock(o), r.(dataOffset := abi.header))
    case InitializingLock(_) => if ok then (Publishing(o), r.(lockReady := true)) else (Unlinking(o), r)
    case Publishing(_) => (Published(o), r.(magic := CACHE_MAGIC))
    case _ => (Idle, r)
  }

  // The creator's steps.
  function CreatorStep(w: World, p: nat, ok: bool): World
    requires p < |w.counters| && CreatorOf(w.counters[p]).Some? && CreatorOf(w.counters[p]).value < |w.objects|
    requires w.abi.entry > 0
  {
    var o := CreatorOf(w.counters[p]).value;
    // shm_unlink removes the name from whatever object has it.
    if w.counters[p].Unlinking? then Move(if ok then w.(bound := None) else w, p, Idle)
    else
      var (pc, r) := CreatorMove(w.abi, o, w.counters[p], w.objects[o], ok);
      Edit(Move(w, p, pc), o, r)
  }

  // The steps of a process that opened an existing object.
  function AttacherStep(w: World, p: nat, ok: bool): World
    requires p < |w.counters| && w.abi.entry > 0
    requires var pc := w.counters[p];
             (pc.Inspecting? || pc.MappingOld? || pc.CheckingMagic? || pc.CheckingLayout? || pc.LockingShared? ||
              pc.CheckingCount?) && pc.target < |w.objects|
  {
    var o := w.counters[p].target;
    var r := w.objects[o];
    match w.counters[p]
    case Inspecting(_) => Move(w, p, if ok && r.size == SHARED_MEMORY_SIZE then MappingOld(o) else Idle)
    case MappingOld(_) => Move(w, p, if ok then CheckingMagic(o) else Idle)
    case CheckingMagic(_) => Move(w, p, if Ready(r) then CheckingLayout(o) else Idle)
    case CheckingLayout(_) =>
      Move(w, p, if LayoutAccepted(w.abi, r) then LockingShared(o) else Idle)
    case LockingShared(_) => Move(w, p, if ok then CheckingCount(o) else Idle)
    case CheckingCount(_) =>
      if r.cache.count <= r.capacity then Move(w, p, Mapped(o, false)).(reports := w.reports + [Report(o, false)])
      else Move(w, p, Idle)
    case _ => w
  }

  // What cache_validate_layout asks beyond the magic word.
  predicate LayoutAccepted(abi: Layout.Abi, r: Region)
    requires abi.entry > 0
  {
    && r.version == CACHE_VERSION && r.dataOffset == abi.header
    && Layout.ValidCapacity(abi, SHARED_MEMORY_SIZE, r.capacity)
  }

  function GoStep(w: World, p: nat, ok: bool): World
    requires Enabled(w, Go(p, ok))
  {
    var pc := w.counters[p];
    if pc.Creating? then
      if !ok then Move(w, p, Idle)
      else if w.bound.Some? then Move(w, p, Opening)
      else
        Move(w, p, Sizing(|w.objects|)).(bound := Some(|w.objects|),
                                         objects := w.objects + [Region(p, 0, 0, 0, 0, 0, false, NOTHING)])
    else if pc.Opening? then Move(w, p, if ok && w.bound.Some? then Inspecting(w.bound.value) else Idle)
    else if pc.Published? then Move(w, p, Mapped(pc.target, true)).(reports := w.reports + [Report(pc.target, true)])
    else if CreatorOf(pc).Some? then CreatorStep(w, p, ok)
    else AttacherStep(w, p, ok)
  }

  function Next(w: World, s: Step): World
    requires Enabled(w, s)
  {
    match s
    case Begin(p, createIfMissing) => Move(w, p, if createIfMissing then Creating else Opening)
    case Go(p, ok) => GoStep(w, p, ok)
    case Use(p, cache) => Edit(w, w.counters[p].target, w.objects[w.counters[p].target].(cache := cache))
    case Close(p) => Move(w, p, Idle)
  }

  ghost predicate IsRun(ws: seq<World>, steps: seq<Step>) {
    && |ws| == |steps| + 1
    && Initial(ws[0])
    && forall i | 0 <= i < |steps| :: Enabled(ws[i], steps[i]) && ws[i + 1] == Next(ws[i], steps[i])
  }

  // ---- The invariant ----

  // Everything an attacher relies on.
  ghost predicate Usable(abi: Layout.Abi, r: Region)
    requires abi.entry > 0
  {
    && r.size == SHARED_MEMORY_SIZE && LayoutAccepted(abi, r)
    && r.lockReady && CacheInv(r.cache) && |r.cache.slots| == r.capacity
  }

  // A ready object holds the name and is usable.
  ghost predicate ReadySound(w: World, o: ObjectId)
    requires o < |w.objects| && w.abi.entry > 0
  {
    Ready(w.objects[o]) ==> w.bound == Some(o) && Usable(w.abi, w.objects[o])
  }

  // How far a creator has got.
  ghost predicate Progress(w: World, pc: Counter)
    requires CreatorOf(pc).Some? ==> CreatorOf(pc).value < |w.objects|
    requires w.abi.entry > 0
  {
    CreatorOf(pc).Some? ==>
      var r := w.objects[CreatorOf(pc).value];
      && (pc.Filling? || pc.Zeroing? || pc.InitializingLock? || pc.Publishing? ==>
            r.size == SHARED_MEMORY_SIZE && Layout.ValidCapacity(w.abi, SHARED_MEMORY_SIZE, DEFAULT_CAPACITY))
      && (pc.MappingNew? ==> r.size == SHARED_MEMORY_SIZE)
      && ((pc.Filling? && pc.field > 0) || pc.InitializingLock? || pc.Publishing? ==> r.version == CACHE_VERSION)
      && ((pc.Filling? && pc.field > 1) || pc.InitializingLock? || pc.Publishing? ==>
            r.capacity == DEFAULT_CAPACITY && r.cache == Fresh(DEFAULT_CAPACITY))
      && (pc.InitializingLock? || pc.Publishing? ==> r.dataOffset == w.abi.header)
      && (pc.Publishing? ==> r.lockReady)
  }

  predicate HasObject(pc: Counter) {
    !pc.Idle? && !pc.Creating? && !pc.Opening?
  }

  ghost predicate CounterSound(w: World, p: nat)
    requires p < |w.counters| && w.abi.entry > 0
  {
    var pc := w.counters[p];
    HasObject(pc) ==>
      && pc.target < |w.objects|
      && (CreatorOf(pc).Some? || pc.Published? ==> w.bound == Some(pc.target) && w.objects[pc.target].creator == p)
      && (CreatorOf(pc).Some? ==> !Ready(w.objects[pc.target]))
      && (CreatorOf(pc).Some? ==> Progress(w, pc))
      && (pc.Published? || pc.CheckingLayout? || pc.LockingShared? || pc.CheckingCount? || pc.Mapped? ==>
            Ready(w.objects[pc.target]))
  }

  // Who has reported, or is about to report, having created.
  ghost predicate CreationReported(w: World, o: ObjectId) {
    exists i | 0 <= i < |w.reports| :: w.reports[i] == Report(o, true)
  }

  ghost predicate ReportsSound(w: World) {
    && (forall i | 0 <= i < |w.reports| :: w.reports[i].target < |w.objects| && Ready(w.objects[w.reports[i].target]))
    && (forall i, j | 0 <= i < |w.reports| && 0 <= j < |w.reports| && w.reports[i].created && w.reports[j].created ::
          i == j)
    && (forall p, i | 0 <= p < |w.counters| && w.counters[p].Published? && 0 <= i < |w.reports| ::
          !w.reports[i].created)
  }

  ghost predicate CreatorAccounted(w: World, o: ObjectId)
    requires o < |w.objects|
  {
    var p := w.objects[o].creator;
    Ready(w.objects[o]) ==> (p < |w.counters| && w.counters[p] == Published(o)) || CreationReported(w, o)
  }

  ghost predicate LifecycleInv(w: World) {
    && w.abi.entry > 0
    && (w.bound.Some? ==> w.bound.value < |w.objects|)
    && (forall o | 0 <= o < |w.objects| :: ReadySound(w, o))
    && (forall p | 0 <= p < |w.counters| :: CounterSound(w, p))
    && ReportsSound(w)
    && (forall o | 0 <= o < |w.objects| :: CreatorAccounted(w, o))
  }
}
