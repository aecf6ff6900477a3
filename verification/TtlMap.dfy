/** The sequential TTL map the cache promises: records by key, their live view at a time, and its atomic operations. */
module TtlMap {
  import opened CStrings
  import opened Table

  datatype Option<T> = None | Some(value: T)

  datatype Record = Record(value: CString, timestamp: nat, ttl: nat)

  // Every stored record, expired ones included.
  type Stored = map<CString, Record>

  predicate Expired(r: Record, now: nat) {
    ExpiredAt(r.timestamp, r.ttl, now)
  }

  // The records a reader can see at time now.
  function Live(m: Stored, now: nat): Stored {
    map k | k in m && !Expired(m[k], now) :: m[k]
  }

  datatype Operation =
    | Get(key: CString)
    | Put(key: CString, value: CString, ttl: nat)
    | Update(key: CString, value: CString)
    | Delete(key: CString)

  datatype Result = Hit(value: CString, timestamp: nat) | Miss | Done(ok: bool)

  /** One atomic action: a call (with the clock readings t0 <= t1 it took, the key it evicted, if any, and the extra
      slots its searches inspected), or the removal of an expired record by the second phase of an expired get. */
  datatype Event =
    | Call(id: nat, op: Operation, t0: nat, t1: nat, victim: Option<CString>, result: Result, cost: nat)
    | Purged(key: CString, now: nat)

  predicate Fits(capacity: nat, m: Stored, key: CString) {
    key in m || |m| < capacity
  }

  predicate SomeExpired(m: Stored, now: nat) {
    exists k | k in m :: Expired(m[k], now)
  }

  ghost predicate Oldest(m: Stored, key: CString) {
    key in m && forall k | k in m :: m[key].timestamp <= m[k].timestamp
  }

  ghost predicate Allowed(capacity: nat, m: Stored, e: Event) {
    match e
    case Purged(key, now) => key in m && Expired(m[key], now)
    case Call(_, op, t0, t1, victim, result, _) =>
      t0 <= t1 &&
      match op
      case Get(key) =>
        && t0 == t1 && victim == None
        && result == if key in Live(m, t0) then Hit(m[key].value, m[key].timestamp) else Miss
      case Put(key, _, _) =>
        && result == Done(true)
        && if Fits(capacity, m, key) || SomeExpired(m, t0) then victim == None
           else victim.Some? && Oldest(m, victim.value)
      case Update(key, _) => victim == None && result == Done(key in Live(m, t0))
      case Delete(key) => victim == None && result == Done(key in m)
  }

  // The records left when a put stores its own.
  function Room(capacity: nat, m: Stored, key: CString, victim: Option<CString>, t0: nat): Stored {
    if Fits(capacity, m, key) then m
    else if victim.Some? then m - {victim.value}
    else Live(m, t0)
  }

  // An update renews a live record and drops an expired one.
  function Updated(m: Stored, key: CString, value: CString, t0: nat, t1: nat): Stored {
    if key !in m then m
    else if Expired(m[key], t0) then m - {key}
    else m[key := Record(value, t1, m[key].ttl)]
  }

  function After(capacity: nat, m: Stored, e: Event): Stored {
    match e
    case Purged(key, _) => m - {key}
    case Call(_, op, t0, t1, victim, _, _) =>
      match op
      case Get(_) => m
      case Put(key, value, ttl) =>
        Room(capacity, m, key, victim, t0)[key := Record(value, t1, ttl)]
      case Update(key, value) => Updated(m, key, value, t0, t1)
      case Delete(key) => m - {key}
  }

  // The effect of a call on the live view alone.
  function LiveAfter(m: Stored, e: Event): Stored
    requires e.Call?
  {
    var live := Live(m, e.t1);
    match e.op
    case Get(_) => live
    case Put(key, value, ttl) =>
      (if e.victim.Some? then live - {e.victim.value} else live)[key := Record(value, e.t1, ttl)]
    case Update(key, value) =>
      if e.result == Done(true) && key in m then live[key := Record(value, e.t1, m[key].ttl)] else live
    case Delete(key) => live - {key}
  }

  lemma LiveOfRemoved(m: Stored, key: CString, now: nat)
    ensures Live(m - {key}, now) == Live(m, now) - {key}
  {
  }

  lemma LiveOfWritten(m: Stored, key: CString, value: CString, ttl: nat, now: nat)
    ensures Live(m[key := Record(value, now, ttl)], now) == Live(m, now)[key := Record(value, now, ttl)]
  {
  }

  // What is live at a later time is what was live earlier and has not expired since.
  lemma LiveShrinks(m: Stored, t0: nat, t1: nat)
    requires t0 <= t1
    ensures Live(Live(m, t0), t1) == Live(m, t1)
  {
  }

  // In the live view every call has the effect of a plain TTL map.
  lemma CallOnLiveView(capacity: nat, m: Stored, e: Event)
    requires Allowed(capacity, m, e) && e.Call?
    ensures Live(After(capacity, m, e), e.t1) == LiveAfter(m, e)
  {
    match e.op
    case Get(_) =>
    case Put(key, value, ttl) =>
      if Fits(capacity, m, key) {
        LiveOfWritten(m, key, value, ttl, e.t1);
      } else if e.victim.Some? {
        LiveOfRemoved(m, e.victim.value, e.t1);
        LiveOfWritten(m - {e.victim.value}, key, value, ttl, e.t1);
      } else {
        LiveShrinks(m, e.t0, e.t1);
        LiveOfWritten(Live(m, e.t0), key, value, ttl, e.t1);
      }
    case Update(key, value) =>
      if key in m {
        LiveOfRemoved(m, key, e.t1);
        LiveOfWritten(m, key, value, m[key].ttl, e.t1);
      }
    case Delete(key) => LiveOfRemoved(m, key, e.t1);
  }

  // In the live view a purge is invisible.
  lemma PurgeIsInvisible(capacity: nat, m: Stored, key: CString, purgeTime: nat, now: nat)
    requires Allowed(capacity, m, Purged(key, purgeTime)) && purgeTime <= now
    ensures Live(After(capacity, m, Purged(key, purgeTime)), now) == Live(m, now)
  {
    LiveOfRemoved(m, key, now);
  }

  // Dropping a record that has expired, and only then, changes no later live view.
  lemma DroppingExpiredKeepsLive(m: Stored, key: CString, now: nat, later: nat)
    requires now <= later
    ensures Live(if key in m && Expired(m[key], now) then m - {key} else m, later) == Live(m, later)
  {
    LiveOfRemoved(m, key, later);
  }

  // A put loses a live record other than its own key exactly when capacity live records under other keys exist.
  lemma PutEvictsOnlyWhenFullOfLive(capacity: nat, m: Stored, e: Event)
    requires e.Call? && e.op.Put? && Allowed(capacity, m, e) && |m| <= capacity
    ensures e.victim.Some? <==> |Live(m, e.t0).Keys - {e.op.key}| == capacity
    ensures forall k | k in Live(m, e.t0) && k != e.op.key && e.victim != Some(k) ::
              k in After(capacity, m, e) && After(capacity, m, e)[k] == m[k]
    ensures e.victim.Some? ==>
              e.victim.value in Live(m, e.t0) && e.victim.value != e.op.key && e.victim.value !in After(capacity, m, e)
  {
    var others := Live(m, e.t0).Keys - {e.op.key};
    Subset(others, m.Keys);
    if e.victim.Some? {
      assert others == m.Keys;
    }
  }
}
