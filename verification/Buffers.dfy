/** The fixed-size character buffers of a CacheEntry: what strncpy, strcmp and a terminating store make of them. */
module Buffers {
  import opened CStrings
  import opened Table

  // The string a buffer holds: its characters up to the first NUL.
  function CStr(b: seq<int8>): (s: CString)
    ensures |s| <= |b|
  {
    if b == [] || b[0] == 0 then [] else [b[0]] + CStr(b[1..])
  }

  predicate Terminated(b: seq<int8>) {
    0 in b
  }

  function Zeros(n: nat): (z: seq<int8>)
    ensures |z| == n && forall i | 0 <= i < n :: z[i] == 0
  {
    seq(n, _ => 0)
  }

  function Truncated(s: CString, n: nat): CString {
    if |s| <= n then s else s[..n]
  }

  // n characters as strncpy writes them: the string, cut off at n, padded with NULs.
  function Padded(s: CString, n: nat): (b: seq<int8>)
    ensures |b| == n
  {
    Truncated(s, n) + Zeros(n - |Truncated(s, n)|)
  }

  lemma {:induction false} CStrIs(b: seq<int8>, n: nat)
    requires n <= |b| && (n == |b| || b[n] == 0) && forall i | 0 <= i < n :: b[i] != 0
    ensures CStr(b) == b[..n]
  {
    if n == 0 {
    } else {
      CStrIs(b[1..], n - 1);
      assert b[..n] == [b[0]] + b[1..][..n - 1];
    }
  }

  lemma {:induction false} CStrAt(b: seq<int8>)
    ensures CStr(b) == b[..|CStr(b)|]
    ensures |CStr(b)| < |b| ==> b[|CStr(b)|] == 0
    ensures Terminated(b) <==> |CStr(b)| < |b|
  {
    if b == [] || b[0] == 0 {
    } else {
      CStrAt(b[1..]);
      assert b[..|CStr(b)|] == [b[0]] + b[1..][..|CStr(b)| - 1];
      assert Terminated(b[1..]) <==> Terminated(b) by {
        assert b == [b[0]] + b[1..];
      }
    }
  }

  // Within its string a buffer shows the string's characters; the first NUL is right behind it.
  lemma EndsAt(b: seq<int8>, i: nat)
    requires i <= |CStr(b)| && i < |b|
    ensures i < |CStr(b)| ==> b[i] == CStr(b)[i] && b[i] != 0
    ensures b[i] == 0 <==> i == |CStr(b)|
  {
    CStrAt(b);
    if i < |CStr(b)| {
      assert b[..|CStr(b)|][i] == b[i];
      var c: NonNul := CStr(b)[i];
    }
  }

  // A terminated copy holds the string exactly when it fits, whatever the buffer held before.
  lemma CopyFits(s: CString, n: nat)
    ensures CStr(Padded(s, n) + [0]) == Truncated(s, n)
    ensures CStr(Padded(s, n) + [0]) == s <==> |s| <= n
  {
    var b := Padded(s, n) + [0];
    CStrIs(b, |Truncated(s, n)|);
    assert b[..|Truncated(s, n)|] == Truncated(s, n);
  }

  method Strncpy(dst: array<int8>, src: array<int8>, n: nat)
    requires dst != src && n <= dst.Length && (Terminated(src[..]) || n <= src.Length)
    modifies dst
    ensures dst[..] == Padded(CStr(src[..]), n) + old(dst[n..])
  {
    ghost var s := CStr(src[..]);
    CStrAt(src[..]);
    var i := 0;
    while i < n && src[i] != 0
      invariant i <= n && i <= |s|
      invariant forall k | 0 <= k < i :: dst[k] == s[k]
      invariant dst[n..] == old(dst[n..])
    {
      dst[i] := src[i];
      i := i + 1;
    }
    assert i == |Truncated(s, n)|;
    while i < n
      invariant |Truncated(s, n)| <= i <= n
      invariant forall k | 0 <= k < i :: dst[k] == Padded(s, n)[k]
      invariant dst[n..] == old(dst[n..])
    {
      dst[i] := 0;
      i := i + 1;
    }
    assert dst[..n] == Padded(s, n);
    assert dst[..] == dst[..n] + dst[n..];
  }

  // strncpy of all but the last character, and a NUL in the last one.
  method CopyTerminated(dst: array<int8>, src: array<int8>)
    requires dst != src && dst.Length > 0 && (Terminated(src[..]) || dst.Length <= src.Length)
    modifies dst
    ensures dst[..] == Padded(CStr(src[..]), dst.Length - 1) + [0]
    ensures CStr(dst[..]) == Truncated(CStr(src[..]), dst.Length - 1) && Terminated(dst[..])
  {
    Strncpy(dst, src, dst.Length - 1);
    dst[dst.Length - 1] := 0;
    assert dst[..] == Padded(CStr(src[..]), dst.Length - 1) + [0];
    CopyFits(CStr(src[..]), dst.Length - 1);
    assert dst[dst.Length - 1] in dst[..];
  }

  // Where two strings first differ or both end decides whether they are the same.
  lemma StringsPart(a: seq<int8>, b: seq<int8>, i: nat)
    requires i < |a| && i < |b| && i <= |CStr(a)| && i <= |CStr(b)| && CStr(a)[..i] == CStr(b)[..i]
    requires a[i] == 0 || a[i] != b[i]
    ensures a[i] == b[i] <==> CStr(a) == CStr(b)
  {
    EndsAt(a, i);
    EndsAt(b, i);
    var s, t := CStr(a), CStr(b);
    assert i < |s| && i < |t| ==> s[i] != t[i];
    if a[i] == b[i] {
      assert i == |s| == |t|;
      assert s[..i] == s && t[..i] == t;
    }
  }

  // strcmp(a, b) == 0
  method SameString(a: array<int8>, b: array<int8>) returns (same: bool)
    requires Terminated(a[..]) && Terminated(b[..])
    ensures same <==> CStr(a[..]) == CStr(b[..])
  {
    ghost var s, t := CStr(a[..]), CStr(b[..]);
    CStrAt(a[..]);
    CStrAt(b[..]);
    var i := 0;
    while a[i] != 0 && a[i] == b[i]
      invariant i <= |s| && i <= |t|
      invariant s[..i] == t[..i]
      decreases |s| - i
    {
      i := i + 1;
    }
    same := a[i] == b[i];
    StringsPart(a[..], b[..], i);
  }

  /** A CacheEntry as it lies in the region, and the entry value it stands for. */
  class EntryCell {
    var state: SlotState
    const key: array<int8>
    const value: array<int8>
    var timestamp: nat
    var ttl: nat

    ghost predicate Valid()
      reads this, key, value
    {
      && key.Length == MAX_KEY_LEN && value.Length == MAX_VAL_LEN && key != value
      && Terminated(key[..]) && Terminated(value[..])
    }

    ghost function Decoded(): Entry
      reads this, key, value
    {
      Entry(state, CStr(key[..]), CStr(value[..]), timestamp, ttl)
    }

    // The all-zero entry that memset leaves.
    constructor ()
      ensures Valid() && fresh(key) && fresh(value) && key.Length == 64 && value.Length == 256
      ensures Decoded() == EMPTY_ENTRY
    {
      key := new int8[MAX_KEY_LEN](_ => 0);
      value := new int8[MAX_VAL_LEN](_ => 0);
      state, timestamp, ttl := EMPTY, 0, 0;
      new;
      assert key[0] in key[..] && value[0] in value[..];
    }

    // remove_entry clears only the first character of each buffer.
    method Remove()
      requires Valid()
      modifies this, key, value
      ensures Valid() && Decoded() == TOMBSTONE
    {
      state := DELETED;
      key[0] := 0;
      value[0] := 0;
      timestamp, ttl := 0, 0;
      assert key[0] in key[..] && value[0] in value[..];
    }

    method Store(newKey: array<int8>, newValue: array<int8>, newTtl: nat, now: nat)
      requires Valid() && {newKey, newValue} !! {key, value}
      requires Terminated(newKey[..]) && Terminated(newValue[..])
      requires ValidKeyArgument(CStr(newKey[..])) && ValidValueArgument(CStr(newValue[..]))
      modifies this, key, value
      ensures Valid() && Decoded() == Entry(OCCUPIED, CStr(newKey[..]), CStr(newValue[..]), now, newTtl)
    {
      state := OCCUPIED;
      CopyTerminated(key, newKey);
      CopyTerminated(value, newValue);
      timestamp, ttl := now, newTtl;
    }

    method Rewrite(newValue: array<int8>, now: nat)
      requires Valid() && newValue != key && newValue != value
      requires Terminated(newValue[..]) && ValidValueArgument(CStr(newValue[..]))
      modifies this`timestamp, value
      ensures Valid() && Decoded() == old(Decoded()).(value := CStr(newValue[..]), timestamp := now)
    {
      CopyTerminated(value, newValue);
      timestamp := now;
    }

    // The test with which every probe loop recognises its key.
    method Matches(wanted: array<int8>) returns (found: bool)
      requires Valid() && Terminated(wanted[..])
      ensures found <==> Decoded().state == OCCUPIED && Decoded().key == CStr(wanted[..])
    {
      if state == OCCUPIED {
        found := SameString(key, wanted);
      } else {
        found := false;
      }
    }

    // cache_get copies the value to a local buffer under the lock, and from there to the caller's.
    method ReadValue(out: array<int8>)
      requires Valid() && out.Length == MAX_VAL_LEN && out != key && out != value
      modifies out
      ensures Valid() && Decoded() == old(Decoded())
      ensures Terminated(out[..]) && CStr(out[..]) == Decoded().value
    {
      var local := new int8[MAX_VAL_LEN](_ => 0);
      CStrAt(value[..]);
      CopyTerminated(local, value);
      CopyTerminated(out, local);
    }
  }

  // Whatever the slot and the output buffer held before, what was put comes back.
  method PutThenGet(cell: EntryCell, key: array<int8>, value: array<int8>, ttl: nat, now: nat, out: array<int8>)
    requires cell.Valid() && {key, value} !! {cell.key, cell.value}
    requires out.Length == MAX_VAL_LEN && out !in {cell.key, cell.value, key, value}
    requires Terminated(key[..]) && Terminated(value[..])
    requires ValidKeyArgument(CStr(key[..])) && ValidValueArgument(CStr(value[..]))
    modifies cell, cell.key, cell.value, out
    ensures cell.Valid() && CStr(out[..]) == CStr(value[..]) && cell.Decoded().key == CStr(key[..])
  {
    cell.Store(key, value, ttl, now);
    cell.ReadValue(out);
  }

  /** The entry array of a region. Writing one entry changes one entry: its buffers overlap no other's. */
  class EntryArray {
    const cells: seq<EntryCell>
    ghost const footprint: set<object>

    ghost predicate Owned() {
      forall i | 0 <= i < |cells| :: {cells[i], cells[i].key, cells[i].value} <= footprint
    }

    ghost predicate Valid()
      reads footprint
    {
      && Owned()
      && (forall i | 0 <= i < |cells| :: cells[i].Valid())
      && (forall i, j | 0 <= i < j < |cells| ::
            cells[i] != cells[j] && {cells[i].key, cells[i].value} !! {cells[j].key, cells[j].value})
    }

    // The slot table the bytes stand for.
    ghost function Slots(): (t: Slots)
      requires Owned()
      reads footprint
      ensures |t| == |cells| && forall i | 0 <= i < |t| :: t[i] == cells[i].Decoded()
    {
      seq(|cells|, i requires 0 <= i < |cells| && Owned() reads footprint => cells[i].Decoded())
    }

    // The entries of a region that memset has cleared.
    constructor (n: nat)
      ensures Valid() && fresh(footprint) && |cells| == n
      ensures Slots() == seq(n, _ => EMPTY_ENTRY)
    {
      var made: seq<EntryCell> := [];
      ghost var own: set<object> := {};
      while |made| < n
        invariant |made| <= n && fresh(own)
        invariant forall i | 0 <= i < |made| :: {made[i], made[i].key, made[i].value} <= own
        invariant forall i | 0 <= i < |made| :: made[i].Valid() && made[i].Decoded() == EMPTY_ENTRY
        invariant forall i, j | 0 <= i < j < |made| ::
                    made[i] != made[j] && {made[i].key, made[i].value} !! {made[j].key, made[j].value}
      {
        var cell := new EntryCell();
        made := made + [cell];
        own := own + {cell, cell.key, cell.value};
      }
      cells := made;
      footprint := own;
      new;
      assert Slots() == seq(n, _ => EMPTY_ENTRY);
    }

    method StoreAt(j: nat, key: array<int8>, value: array<int8>, ttl: nat, now: nat)
      requires Valid() && j < |cells| && {key, value} !! footprint
      requires Terminated(key[..]) && Terminated(value[..])
      requires ValidKeyArgument(CStr(key[..])) && ValidValueArgument(CStr(value[..]))
      modifies cells[j], cells[j].key, cells[j].value
      ensures Valid() && Slots() == Table.Store(old(Slots()), j, CStr(key[..]), CStr(value[..]), now, ttl)
    {
      cells[j].Store(key, value, ttl, now);
    }

    method RemoveAt(j: nat)
      requires Valid() && j < |cells|
      modifies cells[j], cells[j].key, cells[j].value
      ensures Valid() && Slots() == old(Slots())[j := TOMBSTONE]
    {
      cells[j].Remove();
    }

    method RewriteAt(j: nat, value: array<int8>, now: nat)
      requires Valid() && j < |cells| && value !in footprint
      requires Terminated(value[..]) && ValidValueArgument(CStr(value[..]))
      modifies cells[j], cells[j].value
      ensures Valid() && Slots() == old(Slots())[j := old(Slots())[j].(value := CStr(value[..]), timestamp := now)]
    {
      cells[j].Rewrite(value, now);
    }

    method ReadAt(j: nat, out: array<int8>)
      requires Valid() && j < |cells| && out.Length == MAX_VAL_LEN && out !in footprint
      modifies out
      ensures Valid() && Slots() == old(Slots())
      ensures Terminated(out[..]) && CStr(out[..]) == Slots()[j].value
    {
      cells[j].ReadValue(out);
    }

    method MatchesAt(j: nat, key: array<int8>) returns (found: bool)
      requires Valid() && j < |cells| && Terminated(key[..])
      ensures found <==> Holds(Slots(), j, CStr(key[..]))
    {
      found := cells[j].Matches(key);
    }

    // What a probe loop looks at in one turn.
    method InspectAt(j: nat, key: array<int8>) returns (state: SlotState, found: bool)
      requires Valid() && j < |cells| && Terminated(key[..])
      ensures state == Slots()[j].state && (found <==> Holds(Slots(), j, CStr(key[..])))
    {
      state := cells[j].state;
      found := MatchesAt(j, key);
    }
  }
}
