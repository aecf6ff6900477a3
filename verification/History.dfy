/** Legal sequences of atomic actions on the TTL map, and what holds over every one of them. */
module History {
  import opened CStrings
  import opened Table
  import opened TtlMap

  type Log = seq<Event>

  function StartTime(e: Event): nat {
    match e case Call(_, _, t0, _, _, _, _) => t0 case Purged(_, now) => now
  }

  function EndTime(log: Log): nat {
    if log == [] then 0
    else match log[|log| - 1] case Call(_, _, _, t1, _, _, _) => t1 case Purged(_, now) => now
  }

  // The records stored after the whole log.
  function Replay(capacity: nat, log: Log): Stored {
    if log == [] then map[] else After(capacity, Replay(capacity, log[..|log| - 1]), log[|log| - 1])
  }

  // Every action is allowed where it happens, and the clock never goes back.
  ghost predicate Legal(capacity: nat, log: Log) {
    log != [] ==>
      var front, e := log[..|log| - 1], log[|log| - 1];
      && Legal(capacity, front)
      && EndTime(front) <= StartTime(e)
      && Allowed(capacity, Replay(capacity, front), e)
  }

  lemma Extend(capacity: nat, log: Log, e: Event)
    requires Legal(capacity, log) && EndTime(log) <= StartTime(e) && Allowed(capacity, Replay(capacity, log), e)
    ensures Legal(capacity, log + [e])
    ensures Replay(capacity, log + [e]) == After(capacity, Replay(capacity, log), e)
    ensures EndTime(log + [e]) >= EndTime(log)
  {
    assert (log + [e])[..|log|] == log;
  }

  lemma {:induction false} LegalPrefix(capacity: nat, log: Log, i: nat)
    requires Legal(capacity, log) && i <= |log|
    ensures Legal(capacity, log[..i])
    ensures i < |log| ==> EndTime(log[..i]) <= StartTime(log[i])
    ensures i < |log| ==> Allowed(capacity, Replay(capacity, log[..i]), log[i])
    ensures i < |log| ==> Replay(capacity, log[..i + 1]) == After(capacity, Replay(capacity, log[..i]), log[i])
    ensures i < |log| ==> EndTime(log[..i]) <= EndTime(log[..i + 1])
    decreases |log| - i
  {
    if i == |log| {
      assert log[..i] == log;
    } else {
      LegalPrefix(capacity, log, i + 1);
      assert log[..i + 1][..i] == log[..i];
    }
  }

  // e is a put of key, or an update of key that succeeded.
  predicate Writes(e: Event, key: CString) {
    e.Call? && ((e.op.Put? && e.op.key == key) || (e.op.Update? && e.op.key == key && e.result == Done(true)))
  }

  // e is a put, update or delete of key, or evicts it.
  predicate Touches(e: Event, key: CString) {
    e.Call? && ((!e.op.Get? && e.op.key == key) || e.victim == Some(key))
  }

  lemma ExpiryIsPermanent(r: Record, t0: nat, t1: nat)
    requires t0 <= t1 && Expired(r, t0)
    ensures Expired(r, t1)
  {
  }

  // key still has record r, or r has expired and may have been dropped.
  predicate HasOrExpired(m: Stored, key: CString, r: Record, now: nat) {
    if key in m then m[key] == r else Expired(r, now)
  }

  lemma UntouchedStep(capacity: nat, m: Stored, e: Event, key: CString, r: Record, before: nat)
    requires Allowed(capacity, m, e) && !Touches(e, key) && before <= StartTime(e)
    requires HasOrExpired(m, key, r, before)
    ensures HasOrExpired(After(capacity, m, e), key, r, EndTime([e]))
  {
  }

  // The states and times a legal log goes through.
  function States(capacity: nat, log: Log): (ms: seq<Stored>)
    ensures |ms| == |log| + 1
  {
    seq(|log| + 1, i requires 0 <= i <= |log| => Replay(capacity, log[..i]))
  }

  function Times(log: Log): (ts: seq<nat>)
    ensures |ts| == |log| + 1
  {
    seq(|log| + 1, i requires 0 <= i <= |log| => EndTime(log[..i]))
  }

  predicate UntouchedAt(ms: seq<Stored>, ts: seq<nat>, i: nat, key: CString, r: Record) {
    i < |ms| == |ts| && HasOrExpired(ms[i], key, r, ts[i])
  }

  lemma UntouchedNext(capacity: nat, log: Log, i: nat, key: CString, r: Record)
    requires Legal(capacity, log) && i < |log| && !Touches(log[i], key)
    requires UntouchedAt(States(capacity, log), Times(log), i, key, r)
    ensures UntouchedAt(States(capacity, log), Times(log), i + 1, key, r)
  {
    LegalPrefix(capacity, log, i);
    UntouchedStep(capacity, Replay(capacity, log[..i]), log[i], key, r, EndTime(log[..i]));
    assert EndTime(log[..i + 1]) == EndTime([log[i]]);
  }

  lemma {:induction false} UntouchedWhile(capacity: nat, log: Log, i: nat, j: nat, key: CString, r: Record)
    requires Legal(capacity, log) && i <= j <= |log| && UntouchedAt(States(capacity, log), Times(log), i, key, r)
    requires forall m | i <= m < j :: !Touches(log[m], key)
    ensures UntouchedAt(States(capacity, log), Times(log), j, key, r)
  {
    if i == j {
    } else {
      UntouchedWhile(capacity, log, i, j - 1, key, r);
      UntouchedNext(capacity, log, j - 1, key, r);
    }
  }

  // While key is untouched its record stays as it is, or has expired and may have been dropped.
  lemma Untouched(capacity: nat, log: Log, i: nat, j: nat, key: CString, r: Record)
    requires Legal(capacity, log) && i <= j <= |log|
    requires HasOrExpired(Replay(capacity, log[..i]), key, r, EndTime(log[..i]))
    requires forall m | i <= m < j :: !Touches(log[m], key)
    ensures HasOrExpired(Replay(capacity, log[..j]), key, r, EndTime(log[..j]))
  {
    UntouchedWhile(capacity, log, i, j, key, r);
  }

  lemma WriteStores(capacity: nat, log: Log, i: nat, key: CString)
    requires Legal(capacity, log) && i < |log| && Writes(log[i], key)
    ensures key in Replay(capacity, log[..i + 1])
    ensures var r := Replay(capacity, log[..i + 1])[key];
            && r.value == log[i].op.value && r.timestamp == log[i].t1
            && (log[i].op.Put? ==> r.ttl == log[i].op.ttl)
            && (log[i].op.Update? ==> key in Replay(capacity, log[..i]) && r.ttl == Replay(capacity, log[..i])[key].ttl)
  {
    LegalPrefix(capacity, log, i);
  }

  /** TTL over whole runs: after a put of key (or a successful update, which keeps the TTL) at time t, and until the
      key is written, deleted or evicted again, a get answers with exactly that value and timestamp before t + ttl
      (always, if ttl is 0) and misses from t + ttl on. */
  lemma ReadsSeeLastWriteUntilExpiry(capacity: nat, log: Log, i: nat, j: nat, key: CString)
    requires Legal(capacity, log) && i < j < |log|
    requires Writes(log[i], key) && log[j].Call? && log[j].op == Get(key)
    requires forall m | i < m < j :: !Touches(log[m], key)
    ensures key in Replay(capacity, log[..i + 1])
    ensures var t, ttl := log[i].t1, Replay(capacity, log[..i + 1])[key].ttl;
            log[j].result == if ttl == 0 || log[j].t0 < t + ttl then Hit(log[i].op.value, t) else Miss
  {
    WriteStores(capacity, log, i, key);
    var r := Replay(capacity, log[..i + 1])[key];
    Untouched(capacity, log, i + 1, j, key, r);
    LegalPrefix(capacity, log, j);
    if key !in Replay(capacity, log[..j]) {
      ExpiryIsPermanent(r, EndTime(log[..j]), log[j].t0);
    }
    WriteBeforeRead(capacity, log, i, j);
  }

  lemma {:induction false} WriteBeforeRead(capacity: nat, log: Log, i: nat, j: nat)
    requires Legal(capacity, log) && i < j < |log| && log[i].Call?
    ensures log[i].t1 <= StartTime(log[j])
  {
    LegalPrefix(capacity, log, j);
    if i + 1 < j {
      WriteBeforeRead(capacity, log, i, j - 1);
      LegalPrefix(capacity, log, j - 1);
    } else {
      assert EndTime(log[..j]) == log[i].t1;
    }
  }

  // The time of the last put or successful update of key.
  function LastWrite(log: Log, key: CString): nat {
    if log == [] then 0
    else
      var e := log[|log| - 1];
      if Writes(e, key) then e.t1 else LastWrite(log[..|log| - 1], key)
  }

  lemma {:induction false} TimestampIsLastWrite(capacity: nat, log: Log, key: CString)
    requires Legal(capacity, log) && key in Replay(capacity, log)
    ensures Replay(capacity, log)[key].timestamp == LastWrite(log, key)
  {
    if log == [] {
    } else {
      var front, e := log[..|log| - 1], log[|log| - 1];
      if !Writes(e, key) {
        TimestampIsLastWrite(capacity, front, key);
      }
    }
  }

  // Over any run, the evicted key's last write is no later than that of any key it leaves behind.
  lemma EvictionTakesLeastRecentlyWritten(capacity: nat, log: Log, i: nat, key: CString)
    requires Legal(capacity, log) && i < |log| && log[i].Call? && log[i].victim.Some?
    requires key in Replay(capacity, log[..i])
    ensures log[i].victim.value in Replay(capacity, log[..i])
    ensures LastWrite(log[..i], log[i].victim.value) <= LastWrite(log[..i], key)
  {
    LegalPrefix(capacity, log, i);
    TimestampIsLastWrite(capacity, log[..i], key);
    TimestampIsLastWrite(capacity, log[..i], log[i].victim.value);
  }

  predicate Puts(e: Event, key: CString) {
    e.Call? && e.op.Put? && e.op.key == key
  }

  // Of states in which only a put of key can bring it back.
  lemma {:induction false} AbsentWhile(ms: seq<Stored>, log: Log, i: nat, j: nat, key: CString)
    requires |ms| == |log| + 1 && i <= j <= |log| && key !in ms[i]
    requires forall n | 0 <= n < |log| && key !in ms[n] && !Puts(log[n], key) :: key !in ms[n + 1]
    requires forall m | i <= m < j :: !Puts(log[m], key)
    ensures key !in ms[j]
  {
    if i == j {
    } else {
      AbsentWhile(ms, log, i, j - 1, key);
      assert !Puts(log[j - 1], key) && key !in ms[j - 1 + 1];
    }
  }

  lemma AbsentNext(capacity: nat, log: Log, i: nat, key: CString)
    requires Legal(capacity, log) && i < |log| && key !in States(capacity, log)[i] && !Puts(log[i], key)
    ensures key !in States(capacity, log)[i + 1]
  {
    LegalPrefix(capacity, log, i);
  }

  lemma AbsentUntilPut(capacity: nat, log: Log, i: nat, j: nat, key: CString)
    requires Legal(capacity, log) && i <= j <= |log| && key !in States(capacity, log)[i]
    requires forall m | i <= m < j :: !Puts(log[m], key)
    ensures key !in States(capacity, log)[j]
  {
    var ms := States(capacity, log);
    forall n | 0 <= n < |log| && key !in ms[n] && !Puts(log[n], key) ensures key !in ms[n + 1] {
      AbsentNext(capacity, log, n, key);
    }
    AbsentWhile(ms, log, i, j, key);
  }

  // An expired record is purged at most once, however many gets saw it: between two purges the key was put again.
  lemma PurgedOncePerPut(capacity: nat, log: Log, i: nat, j: nat, key: CString)
    requires Legal(capacity, log) && i < j < |log|
    requires log[i].Purged? && log[i].key == key && log[j].Purged? && log[j].key == key
    ensures exists m | i < m < j :: Puts(log[m], key)
  {
    LegalPrefix(capacity, log, i);
    LegalPrefix(capacity, log, j);
    if forall m | i < m < j :: !Puts(log[m], key) {
      AbsentUntilPut(capacity, log, i + 1, j, key);
    }
  }

  lemma {:induction false} ReplayBounded(capacity: nat, log: Log)
    requires Legal(capacity, log) && capacity > 0
    ensures |Replay(capacity, log)| <= capacity
  {
    if log == [] {
    } else {
      var front, e := log[..|log| - 1], log[|log| - 1];
      ReplayBounded(capacity, front);
      StepBounded(capacity, Replay(capacity, front), e);
    }
  }

  lemma StepBounded(capacity: nat, m: Stored, e: Event)
    requires Allowed(capacity, m, e) && |m| <= capacity && capacity > 0
    ensures |After(capacity, m, e)| <= capacity
  {
    var m' := After(capacity, m, e);
    if e.Call? && e.op.Put? && e.op.key !in m {
      var room := m' - {e.op.key};
      assert m'.Keys == room.Keys + {e.op.key};
      Subset(room.Keys, m.Keys);
      if |m| == capacity {
        if e.victim.Some? {
          assert e.victim.value !in room.Keys;
        } else {
          var k :| k in m && Expired(m[k], e.t0);
          assert k !in room.Keys;
        }
      }
    } else {
      Subset(m'.Keys, m.Keys);
    }
  }
}
