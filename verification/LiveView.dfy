/** What callers can see is the live view: it alone decides every answer but delete's, and purges do not show in it. */
module LiveView {
  import opened CStrings
  import opened Table
  import opened TtlMap
  import opened Refinement
  import opened History

  // A put must evict exactly when capacity live records under other keys exist.
  lemma MustEvict(capacity: nat, m: Stored, key: CString, now: nat)
    requires |m| <= capacity
    ensures !Fits(capacity, m, key) && !SomeExpired(m, now) <==> |Live(m, now)| == capacity && key !in Live(m, now)
    ensures |Live(m, now)| == capacity ==> Live(m, now) == m
  {
    LiveSize(m, now);
  }

  lemma LiveStaysEqual(m: Stored, m': Stored, t0: nat, t1: nat)
    requires t0 <= t1 && Live(m, t0) == Live(m', t0)
    ensures Live(m, t1) == Live(m', t1)
  {
    LiveShrinks(m, t0, t1);
    LiveShrinks(m', t0, t1);
  }

  // Stores with equal live views allow the same gets, puts and updates, and every call leaves the live views equal.
  lemma LiveViewDecides(capacity: nat, m: Stored, m': Stored, e: Event)
    requires e.Call? && Allowed(capacity, m, e) && |m| <= capacity && |m'| <= capacity
    requires Live(m, e.t0) == Live(m', e.t0)
    ensures !e.op.Delete? ==> Allowed(capacity, m', e)
    ensures Live(After(capacity, m, e), e.t1) == Live(After(capacity, m', e), e.t1)
  {
    var key := e.op.key;
    assert key in m && !Expired(m[key], e.t0) ==> key in m' && m'[key] == m[key] by {
      assert key in Live(m, e.t0) ==> Live(m, e.t0)[key] == Live(m', e.t0)[key];
    }
    MustEvict(capacity, m, key, e.t0);
    MustEvict(capacity, m', key, e.t0);
    LiveStaysEqual(m, m', e.t0, e.t1);
    CallOnLiveView(capacity, m, e);
    if e.op.Delete? {
      LiveOfRemoved(m', key, e.t1);
    } else {
      CallOnLiveView(capacity, m', e);
    }
  }

  function WithoutPurges(log: Log): Log {
    if log == [] then []
    else
      var front, e := WithoutPurges(log[..|log| - 1]), log[|log| - 1];
      if e.Purged? then front else front + [e]
  }

  lemma {:induction false} AfterBounded(capacity: nat, m: Stored, m': Stored, e: Event)
    requires e.Call? && Allowed(capacity, m, e) && |m| <= capacity && |m'| <= capacity && capacity > 0
    requires Live(m, e.t0) == Live(m', e.t0)
    ensures |After(capacity, m', e)| <= capacity
  {
    if e.op.Delete? {
      Subset(After(capacity, m', e).Keys, m'.Keys);
    } else {
      LiveViewDecides(capacity, m, m', e);
      StepBounded(capacity, m', e);
    }
  }

  // Dropping every purge from a legal history changes nothing anyone can see afterwards.
  lemma {:induction false} PurgesDoNotShow(capacity: nat, log: Log, now: nat)
    requires Legal(capacity, log) && capacity > 0 && EndTime(log) <= now
    ensures Live(Replay(capacity, log), now) == Live(Replay(capacity, WithoutPurges(log)), now)
    ensures |Replay(capacity, WithoutPurges(log))| <= capacity
  {
    if log == [] {
    } else {
      var front, e := log[..|log| - 1], log[|log| - 1];
      var m, m' := Replay(capacity, front), Replay(capacity, WithoutPurges(front));
      LegalPrefix(capacity, log, |front|);
      PurgesDoNotShow(capacity, front, StartTime(e));
      if e.Purged? {
        PurgeIsInvisible(capacity, m, e.key, e.now, now);
        LiveStaysEqual(m, m', e.now, now);
      } else {
        ReplayBounded(capacity, front);
        LiveViewDecides(capacity, m, m', e);
        AfterBounded(capacity, m, m', e);
        LiveStaysEqual(After(capacity, m, e), After(capacity, m', e), e.t1, now);
        assert (WithoutPurges(front) + [e])[..|WithoutPurges(front)|] == WithoutPurges(front);
      }
    }
  }

  /** The history without its purges explains every answer but those of deletes: the records it leaves before a call
      allow that call, with its answer and evicted key. */
  lemma ExplainedWithoutPurges(capacity: nat, log: Log, i: nat)
    requires Legal(capacity, log) && capacity > 0 && i < |log| && log[i].Call? && !log[i].op.Delete?
    ensures Allowed(capacity, Replay(capacity, WithoutPurges(log[..i])), log[i])
  {
    LegalPrefix(capacity, log, i);
    ReplayBounded(capacity, log[..i]);
    PurgesDoNotShow(capacity, log[..i], log[i].t0);
    LiveViewDecides(capacity, Replay(capacity, log[..i]), Replay(capacity, WithoutPurges(log[..i])), log[i]);
  }

  // A delete can tell whether an expired record has been purged, but no more: of a key that is live in the history
  // without the purges it answers that it was there.
  lemma DeleteOfLiveSucceeds(capacity: nat, log: Log, i: nat)
    requires Legal(capacity, log) && capacity > 0 && i < |log| && log[i].Call? && log[i].op.Delete?
    ensures log[i].op.key in Live(Replay(capacity, WithoutPurges(log[..i])), log[i].t0) ==> log[i].result == Done(true)
  {
    LegalPrefix(capacity, log, i);
    PurgesDoNotShow(capacity, log[..i], log[i].t0);
  }
}
