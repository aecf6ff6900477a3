/** The benchmark's socket server, a second cache over a plain map, and its agreement with the shared-memory table. */
module Socket {
  import opened CStrings
  import opened Buffers
  import opened Table
  import opened TtlMap
  import opened CacheSpec
  import opened Refinement

  // ---- Framing: transfer_all over calls that move as much as they like ----

  // What one read or write call returns.
  datatype Moved = Interrupted | Failed | Bytes(n: nat)

  // Whether the calls deliver size bytes before one fails, and how many calls it takes to know.
  function Delivers(calls: seq<Moved>, size: nat): (r: (bool, nat))
    ensures r.1 <= |calls|
  {
    if size == 0 then (true, 0)
    else if calls == [] then (false, 0)
    else
      match calls[0]
      case Interrupted => var (ok, used) := Delivers(calls[1..], size); (ok, used + 1)
      case Failed => (false, 1)
      case Bytes(n) =>
        if n == 0 then (false, 1)
        else var (ok, used) := Delivers(calls[1..], if n < size then size - n else 0); (ok, used + 1)
  }

  // The bytes the calls move before the first that fails or finds the end of the stream.
  function BytesMoved(calls: seq<Moved>): nat {
    if calls == [] then 0
    else
      match calls[0]
      case Interrupted => BytesMoved(calls[1..])
      case Failed => 0
      case Bytes(n) => if n == 0 then 0 else n + BytesMoved(calls[1..])
  }

  // A transfer succeeds exactly if enough bytes move before the connection fails.
  lemma {:induction false} DeliversIffEnoughMoves(calls: seq<Moved>, size: nat)
    ensures Delivers(calls, size).0 <==> BytesMoved(calls) >= size
  {
    if size == 0 || calls == [] {
    } else {
      match calls[0]
      case Interrupted => DeliversIffEnoughMoves(calls[1..], size);
      case Failed =>
      case Bytes(n) =>
        if n == 0 {
        } else {
          DeliversIffEnoughMoves(calls[1..], if n < size then size - n else 0);
        }
    }
  }

  /** Receive: the stream arrives in whatever chunks the calls return (never more than asked for; when the calls run
      out the connection is gone). On success the buffer holds exactly the first bytes of the stream. */
  method ReceiveAll(buffer: array<int8>, stream: seq<int8>, calls: seq<Moved>) returns (ok: bool, used: nat)
    requires |stream| >= buffer.Length
    modifies buffer
    ensures (ok, used) == Delivers(calls, buffer.Length)
    ensures ok <==> BytesMoved(calls) >= buffer.Length
    ensures ok ==> buffer[..] == stream[..buffer.Length]
  {
    var transferred: nat := 0;
    used := 0;
    DeliversIffEnoughMoves(calls, buffer.Length);
    while transferred < buffer.Length
      invariant transferred <= buffer.Length && used <= |calls|
      invariant buffer[..transferred] == stream[..transferred]
      invariant var rest := Delivers(calls[used..], buffer.Length - transferred);
                Delivers(calls, buffer.Length) == (rest.0, rest.1 + used)
      decreases |calls| - used
    {
      if used == |calls| {
        return false, used;
      }
      var call := calls[used];
      assert calls[used..][1..] == calls[used + 1..];
      used := used + 1;
      match call
      case Interrupted =>
      case Failed => return false, used;
      case Bytes(asked) =>
        if asked == 0 {
          return false, used;
        }
        var n := if asked < buffer.Length - transferred then asked else buffer.Length - transferred;
        forall k | transferred <= k < transferred + n {
          buffer[k] := stream[k];
        }
        transferred := transferred + n;
    }
    ok := true;
  }

  // ---- LocalSocketCache::serve ----

  datatype Request =
    | Fetch(key: CString)
    | Assign(key: CString, value: CString)
    | Change(key: CString, value: CString)
    | Unknown

  datatype Response = Response(status: int, value: CString)

  type Values = map<CString, CString>

  function Serve(values: Values, request: Request): (r: (Response, Values)) {
    match request
    case Fetch(key) =>
      (if key in values then Response(1, Truncated(values[key], MAX_VAL_LEN - 1)) else Response(0, []), values)
    case Assign(key, value) => (Response(1, []), values[key := value])
    case Change(key, value) =>
      if key in values then (Response(1, []), values[key := value]) else (Response(0, []), values)
    case Unknown => (Response(-1, []), values)
  }

  class SocketServer {
    var values: Values

    constructor ()
      ensures values == map[]
    {
      values := map[];
    }

    // One turn of the loop, under the mutex.
    method Answer(request: Request) returns (response: Response)
      modifies this
      ensures (response, values) == Serve(old(values), request)
      ensures response.status ==
                if request.Unknown? then -1 else if request.Assign? || request.key in old(values) then 1 else 0
      ensures response.value ==
                if request.Fetch? && request.key in old(values) then Truncated(old(values)[request.key], 255) else []
      ensures values == if request.Assign? || (request.Change? && request.key in old(values))
                        then old(values)[request.key := request.value] else old(values)
    {
      var status, value := 0, [];
      match request {
        case Fetch(key) =>
          if key in values {
            status := 1;
            value := Truncated(values[key], MAX_VAL_LEN - 1);
          }
        case Assign(key, newValue) =>
          values := values[key := newValue];
          status := 1;
        case Change(key, newValue) =>
          if key in values {
            values := values[key := newValue];
            status := 1;
          }
        case Unknown =>
          status := -1;
      }
      response := Response(status, value);
    }
  }

  // ---- The same requests on the shared-memory cache ----

  predicate ValidRequest(request: Request) {
    match request
    case Fetch(key) => ValidKeyArgument(key)
    case Assign(key, value) => ValidKeyArgument(key) && ValidValueArgument(value)
    case Change(key, value) => ValidKeyArgument(key) && ValidValueArgument(value)
    case Unknown => false
  }

  // A put, get or update on the table, at any clock readings, answered as the server would.
  function Perform(c: Cache, request: Request, t0: nat, t1: nat): (r: (Response, Cache))
    requires |c.slots| > 0
    ensures |r.1.slots| == |c.slots|
  {
    match request
    case Fetch(key) =>
      var (seen, c') := GetAlone(c, key, true, t0, true, t1);
      (if seen.SeenLive? then Response(1, seen.value) else Response(0, []), c')
    case Assign(key, value) =>
      var (ok, c') := PutLocked(c, key, value, 0, t0, t1);
      (Response(if ok then 1 else 0, []), c')
    case Change(key, value) =>
      var (ok, c') := UpdateLocked(c, key, value, t0, t1);
      (Response(if ok then 1 else 0, []), c')
    case Unknown => (Response(-1, []), c)
  }

  // The table stores exactly the server's values, none of which ever expires.
  ghost predicate Same(c: Cache, values: Values) {
    var m := View(c.slots);
    && CacheInv(c) && m.Keys == values.Keys
    && forall k | k in m :: m[k].value == values[k] && m[k].ttl == 0 && ValidValueArgument(values[k])
  }

  // The keys assigned by a sequence of requests.
  function AssignedKeys(requests: seq<Request>): set<CString> {
    if requests == [] then {}
    else
      var last := requests[|requests| - 1];
      AssignedKeys(requests[..|requests| - 1]) + if last.Assign? then {last.key} else {}
  }

  // Both caches answer the request alike and store the same afterwards.
  ghost predicate Agree(c: Cache, values: Values, request: Request, t0: nat, t1: nat)
    requires |c.slots| > 0
  {
    var (response, c') := Perform(c, request, t0, t1);
    var (expected, values') := Serve(values, request);
    response == expected && Same(c', values')
  }

  lemma FetchAgrees(c: Cache, values: Values, key: CString, t0: nat, t1: nat)
    requires Same(c, values)
    ensures Agree(c, values, Fetch(key), t0, t1)
  {
    ViewHas(c.slots, key);
    SameAfterGet(c, values, GetAlone(c, key, true, t0, true, t1).1, key, t0);
  }

  // Without TTLs a get only counts.
  lemma SameAfterGet(c: Cache, values: Values, c': Cache, key: CString, now: nat)
    requires Same(c, values)
    requires ReadLocked(c.slots, key, now) != SeenExpired ==> c'.slots == c.slots && c'.count == c.count
    ensures ReadLocked(c.slots, key, now) != SeenExpired
    ensures Same(c', values)
  {
    ViewHas(c.slots, key);
  }

  lemma SameAfterWrite(c: Cache, c': Cache, values: Values, key: CString, value: CString, now: nat)
    requires Same(c, values) && CacheInv(c') && ValidValueArgument(value)
    requires View(c'.slots) == View(c.slots)[key := Record(value, now, 0)]
    ensures Same(c', values[key := value])
  {
  }

  lemma AssignAgrees(c: Cache, values: Values, key: CString, value: CString, t0: nat, t1: nat)
    requires Same(c, values) && ValidKeyArgument(key) && ValidValueArgument(value)
    requires key in values || |values| < |c.slots|
    ensures Agree(c, values, Assign(key, value), t0, t1)
  {
    assert |View(c.slots).Keys| == |values.Keys|;
    PutWithRoom(c, key, value, 0, t0, t1);
    SameAfterWrite(c, PutLocked(c, key, value, 0, t0, t1).1, values, key, value, t1);
  }

  lemma ChangeAgrees(c: Cache, values: Values, key: CString, value: CString, t0: nat, t1: nat)
    requires Same(c, values) && ValidKeyArgument(key) && ValidValueArgument(value)
    ensures Agree(c, values, Change(key, value), t0, t1)
  {
    UpdateEffect(c, key, value, t0, t1);
    if key in values {
      SameAfterWrite(c, UpdateLocked(c, key, value, t0, t1).1, values, key, value, t1);
    }
  }

  // Both caches after a sequence of requests, the shared-memory one at the given clock readings.
  function ServeAll(requests: seq<Request>): Values {
    if requests == [] then map[] else Serve(ServeAll(requests[..|requests| - 1]), requests[|requests| - 1]).1
  }

  function PerformAll(c: Cache, requests: seq<Request>, times: seq<(nat, nat)>): (c': Cache)
    requires |c.slots| > 0 && |times| >= |requests|
    ensures |c'.slots| == |c.slots|
  {
    if requests == [] then c
    else
      var n := |requests| - 1;
      Perform(PerformAll(c, requests[..n], times), requests[n], times[n].0, times[n].1).1
  }

  lemma {:induction false} CachesStaySame(c: Cache, requests: seq<Request>, times: seq<(nat, nat)>)
    requires CacheInv(c) && View(c.slots) == map[] && |times| >= |requests|
    requires forall i | 0 <= i < |requests| :: ValidRequest(requests[i])
    requires |AssignedKeys(requests)| <= |c.slots|
    ensures Same(PerformAll(c, requests, times), ServeAll(requests))
    ensures ServeAll(requests).Keys <= AssignedKeys(requests)
  {
    if requests == [] {
    } else {
      var n := |requests| - 1;
      var front, request := requests[..n], requests[n];
      Subset(AssignedKeys(front), AssignedKeys(requests));
      CachesStaySame(c, front, times);
      StepAgrees(PerformAll(c, front, times), ServeAll(front), request, times[n].0, times[n].1, AssignedKeys(requests));
      ServeStaysWithin(ServeAll(front), request, AssignedKeys(requests));
    }
  }

  lemma ServeStaysWithin(values: Values, request: Request, keys: set<CString>)
    requires values.Keys <= keys && (request.Assign? ==> request.key in keys)
    ensures Serve(values, request).1.Keys <= keys
  {
  }

  // A set of at most n keys that contains a new key leaves room for it.
  lemma NewKeyFits(values: Values, key: CString, keys: set<CString>, n: nat)
    requires values.Keys <= keys && key in keys && key !in values && |keys| <= n
    ensures |values| < n
  {
    Subset(values.Keys + {key}, keys);
  }

  // No request that stays within capacity many keys can tell the caches apart; no put needs to evict.
  lemma StepAgrees(c: Cache, values: Values, request: Request, t0: nat, t1: nat, keys: set<CString>)
    requires Same(c, values) && ValidRequest(request)
    requires values.Keys <= keys && |keys| <= |c.slots| && (request.Assign? ==> request.key in keys)
    ensures Agree(c, values, request, t0, t1)
  {
    match request
    case Fetch(key) => FetchAgrees(c, values, key, t0, t1);
    case Assign(key, value) =>
      if key !in values {
        NewKeyFits(values, key, keys, |c.slots|);
      }
      AssignAgrees(c, values, key, value, t0, t1);
    case Change(key, value) => ChangeAgrees(c, values, key, value, t0, t1);
  }

  /** Differential equivalence: whatever the clock says, as long as at most capacity different keys have been assigned,
      request number i gets the same status and the same value from the shared-memory cache as from the server. */
  lemma CachesAgree(c: Cache, requests: seq<Request>, times: seq<(nat, nat)>, i: nat)
    requires CacheInv(c) && View(c.slots) == map[] && |times| >= |requests| && i < |requests|
    requires forall k | 0 <= k < |requests| ::
               && !requests[k].Unknown? && 1 <= |requests[k].key| <= 63
               && (requests[k].Fetch? || |requests[k].value| <= 255)
    requires |AssignedKeys(requests[..i + 1])| <= |c.slots|
    ensures Perform(PerformAll(c, requests[..i], times), requests[i], times[i].0, times[i].1).0 ==
            Serve(ServeAll(requests[..i]), requests[i]).0
  {
    var upTo := requests[..i + 1];
    forall k | 0 <= k < |requests| ensures ValidRequest(requests[k]) {
      ArgumentLengths(requests[k].key, if requests[k].Fetch? then [] else requests[k].value);
    }
    assert upTo[..i] == requests[..i];
    Subset(AssignedKeys(requests[..i]), AssignedKeys(upTo));
    CachesStaySame(c, requests[..i], times);
    StepAgrees(PerformAll(c, requests[..i], times), ServeAll(requests[..i]), requests[i], times[i].0, times[i].1,
               AssignedKeys(upTo));
  }
}
