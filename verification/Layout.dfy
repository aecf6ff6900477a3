/** Where slots lie in the mapped region: the 32-bit offset of get_entry_ptr against the 64-bit check of
    valid_capacity. */
module Layout {
  import opened Arithmetic
  import Hash
  import Table

  // sizeof(CacheHeader) and sizeof(CacheEntry) on the platform, at least the sum of their fields.
  datatype Abi = Abi(header: nat, entry: nat)

  predicate Plausible(a: Abi) {
    44 <= a.header < Hash.WORD && 333 <= a.entry < Hash.WORD
  }

  predicate ValidCapacity(a: Abi, size: nat, capacity: nat)
    requires a.entry > 0
  {
    size >= a.header && capacity > 0 && capacity <= (size - a.header) / a.entry
  }

  // data_offset + index * sizeof(CacheEntry), stored in a uint32_t.
  function Offset(a: Abi, index: nat): nat {
    Hash.Wrap(a.header + index * a.entry)
  }

  predicate Disjoint(a: Abi, i: nat, j: nat) {
    Offset(a, i) + a.entry <= Offset(a, j) || Offset(a, j) + a.entry <= Offset(a, i)
  }

  // Every slot lies inside the region, behind the header, and apart from every other slot.
  ghost predicate SlotsSound(a: Abi, size: nat, capacity: nat) {
    && (forall i: nat | i < capacity :: a.header <= Offset(a, i) && Offset(a, i) + a.entry <= size)
    && (forall i: nat, j: nat | i < j < capacity :: Disjoint(a, i, j))
  }

  /** A capacity is accepted exactly when the header and that many entries fit into the region. */
  lemma ValidCapacityIffFits(a: Abi, size: nat, capacity: nat)
    requires a.entry > 0
    ensures ValidCapacity(a, size, capacity) <==> capacity > 0 && a.header + capacity * a.entry <= size
  {
    if size >= a.header {
      DivBound(size - a.header, a.entry, capacity);
    }
  }

  // The region every creator makes: 4 MiB for 1000 entries, with enough room for the sizes of a 64-bit platform.
  lemma DefaultRegionFits(a: Abi)
    requires Plausible(a)
    ensures a.header + 1000 * a.entry <= 4194304 <==> ValidCapacity(a, 4194304, 1000)
    ensures a.header + 1000 * a.entry <= 4194304 ==> SlotsSound(a, 4194304, 1000)
    ensures a == Abi(104, 344) ==> ValidCapacity(a, 4194304, 1000)
  {
    ValidCapacityIffFits(a, 4194304, 1000);
    if ValidCapacity(a, 4194304, 1000) {
      LayoutSoundIffOffsetsFit(a, 4194304, 1000);
    }
  }

  lemma OffsetExact(a: Abi, capacity: nat, i: nat)
    requires Plausible(a) && i < capacity && a.header + (capacity - 1) * a.entry < Hash.WORD
    ensures Offset(a, i) == a.header + i * a.entry
  {
    MulMonotone(i, capacity - 1, a.entry);
  }

  lemma SoundWithoutWrap(a: Abi, size: nat, capacity: nat)
    requires Plausible(a) && ValidCapacity(a, size, capacity) && a.header + (capacity - 1) * a.entry < Hash.WORD
    ensures SlotsSound(a, size, capacity)
  {
    ValidCapacityIffFits(a, size, capacity);
    forall i: nat | i < capacity ensures a.header <= Offset(a, i) && Offset(a, i) + a.entry <= size {
      OffsetExact(a, capacity, i);
      MulMonotone(i, capacity, a.entry);
    }
    forall i: nat, j: nat | i < j < capacity ensures Disjoint(a, i, j) {
      OffsetExact(a, capacity, i);
      OffsetExact(a, capacity, j);
      MulMonotone(i, j, a.entry);
    }
  }

  // The first index whose offset does not fit.
  function FirstWrap(a: Abi, i: nat, capacity: nat): (w: nat)
    requires i < capacity && a.header + (capacity - 1) * a.entry >= Hash.WORD
    requires i > 0 ==> a.header + (i - 1) * a.entry < Hash.WORD
    ensures i <= w < capacity && a.header + w * a.entry >= Hash.WORD
    ensures w > 0 ==> a.header + (w - 1) * a.entry < Hash.WORD
    decreases capacity - i
  {
    if a.header + i * a.entry >= Hash.WORD then i else FirstWrap(a, i + 1, capacity)
  }

  // An offset that has wrapped for the first time falls into the header or into slot 0.
  lemma WrappedOffset(a: Abi, w: nat)
    requires Plausible(a) && w > 0
    requires a.header + w * a.entry >= Hash.WORD && a.header + (w - 1) * a.entry < Hash.WORD
    ensures Offset(a, w) == a.header + w * a.entry - Hash.WORD < a.entry
  {
    MulStep(w, a.entry);
    var x := a.header + w * a.entry - Hash.WORD;
    Hash.WrapShift(x, 1);
    Hash.WrapSmall(x);
  }

  lemma UnsoundWithWrap(a: Abi, size: nat, capacity: nat)
    requires Plausible(a) && capacity > 0 && a.header + (capacity - 1) * a.entry >= Hash.WORD
    ensures !SlotsSound(a, size, capacity)
  {
    var w := FirstWrap(a, 0, capacity);
    WrappedOffset(a, w);
    Hash.WrapSmall(a.header);
    assert Offset(a, 0) == a.header;
    assert a.header <= Offset(a, w) ==> !Disjoint(a, 0, w);
  }

  /** valid_capacity alone does not make the layout sound: it does exactly when the last slot's offset fits in 32 bits.
      Every region of at most 4 GiB meets this, and then every slot index fits in an int32_t. */
  lemma LayoutSoundIffOffsetsFit(a: Abi, size: nat, capacity: nat)
    requires Plausible(a) && ValidCapacity(a, size, capacity)
    ensures SlotsSound(a, size, capacity) <==> a.header + (capacity - 1) * a.entry < 0x1_0000_0000
    ensures size <= 0x1_0000_0000 ==> SlotsSound(a, size, capacity)
    ensures SlotsSound(a, size, capacity) ==> capacity <= 0x8000_0000 == Table.MAX_CAPACITY
  {
    ValidCapacityIffFits(a, size, capacity);
    MulStep(capacity, a.entry);
    if a.header + (capacity - 1) * a.entry < Hash.WORD {
      SoundWithoutWrap(a, size, capacity);
      MulAtLeast(capacity - 1, a.entry, 333);
    } else {
      UnsoundWithWrap(a, size, capacity);
    }
  }

  // A region for which valid_capacity holds and the layout is nevertheless unsound.
  lemma OversizedRegionExample()
    ensures var a := Abi(104, 344);
            Plausible(a) && ValidCapacity(a, 0x2_0000_0000, 0x100_0000) && !SlotsSound(a, 0x2_0000_0000, 0x100_0000)
  {
    UnsoundWithWrap(Abi(104, 344), 0x2_0000_0000, 0x100_0000);
  }
}
