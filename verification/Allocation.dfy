/**
 Shared allocations: an object with its descriptor in a data extent and its block records in a
 sidecar extent. Allocation and reclamation keep both pools partitioned into free and live
 extents, and change both pools or none.
 */
module Allocation {
  import opened Extents
  import opened ExtentIndex
  import opened Allocator
  import Retirement

  /** Sizes and alignment of the shared records. */
  const DescriptorBytes: nat := 640
  const BlockRecordBytes: nat := 576
  const Line: nat := 64

  datatype Descriptor = Descriptor(
    bytes: nat, alignment: nat, blockBytes: nat, blockCount: nat, extent: Extent, sidecar: Extent)

  datatype Result =
    | Object(offset: nat)
    | InvalidArgument
    | NoSlot
    | OutOfMemory

  datatype Freeing =
    | Reclaimed
    | NotRetired
    | NotFound
    | Pinned
    | InvalidAddress
    | StillHeld
    | StillActive
    | TooFewNodes

  // ------------------------------------------------------------------ placement

  function ExtentBytes(bytes: nat, alignment: nat): nat
    requires alignment > 0
  {
    DescriptorBytes + bytes + alignment - 1
  }

  function ObjectOffset(extent: nat, alignment: nat): nat {
    AlignUp(extent + DescriptorBytes, alignment)
  }

  /** A power of two is a multiple of 64 or divides it. */
  lemma LineOrPart(a: nat) returns (m: nat)
    requires PowerOfTwo(a)
    ensures a == m * Line || m * a == Line
  {
    var k := PowerOfTwoIs(a);
    assert Pow2(6) == 64;
    if k >= 6 {
      PowSum(k - 6, 6);
      m := Pow2(k - 6);
    } else {
      PowSum(6 - k, k);
      m := Pow2(6 - k);
    }
  }

  lemma AlignedIsItself(v: nat, a: nat, k: nat)
    requires a > 0 && v == k * a
    ensures LeastMultiple(v, a) == v
  {
    LeastMultipleLeast(v, a, k);
    LeastMultipleIs(v, a);
  }

  /** The rounded object address keeps the descriptor in front of it on a line boundary. */
  lemma DescriptorAligned(v: nat, alignment: nat)
    requires v % Line == 0 && PowerOfTwo(alignment)
    ensures LeastMultiple(v, alignment) % Line == 0
  {
    var m := LineOrPart(alignment);
    if m * alignment == Line {
      assert v == v / Line * Line;
      assert v == (v / Line * m) * alignment;
      AlignedIsItself(v, alignment, v / Line * m);
    } else {
      var q := (v + alignment - 1) / alignment;
      assert LeastMultiple(v, alignment) == q * alignment == (q * m) * Line;
      MultipleMod(q * m, Line);
    }
  }

  /** Object and descriptor lie inside the object's own extent, each on its boundary. */
  ghost predicate Placed(object_: nat, d: Descriptor) {
    && d.bytes > 0 && PowerOfTwo(d.alignment) && object_ % d.alignment == 0
    && d.extent.offset + DescriptorBytes <= object_ && object_ + d.bytes <= End(d.extent)
    && (object_ - DescriptorBytes) % Line == 0
    && d.sidecar.offset % Line == 0 && d.sidecar.bytes == d.blockCount * BlockRecordBytes
    && d.blockBytes >= Line && Blocks(d.bytes, d.blockBytes, d.blockCount)
  }

  /** The blocks cover the object and the last one starts inside it. */
  predicate Blocks(bytes: nat, blockBytes: nat, count: nat) {
    bytes <= count * blockBytes < bytes + blockBytes
  }

  lemma PlacementOk(extent: nat, bytes: nat, alignment: nat)
    requires extent % Line == 0 && bytes > 0 && alignment > 0 && PowerOfTwo(alignment)
    requires extent + ExtentBytes(bytes, alignment) <= MaxU64
    ensures var o := ObjectOffset(extent, alignment);
      && o % alignment == 0 && extent + DescriptorBytes <= o && o + bytes <= extent + ExtentBytes(bytes, alignment)
      && (o - DescriptorBytes) % Line == 0
  {
    var v := extent + DescriptorBytes;
    hide AlignUp, LeastMultiple, PowerOfTwo;
    AlignUpExact(v, alignment);
    LeastMultipleIs(v, alignment);
    DescriptorAligned(v, alignment);
  }

  lemma BlockCountOk(bytes: nat, blockBytes: nat)
    requires bytes > 0 && blockBytes > 0
    ensures Blocks(bytes, blockBytes, BlockCount(bytes, blockBytes))
  {
    var q := (bytes - 1) / blockBytes;
    assert bytes - 1 == q * blockBytes + (bytes - 1) % blockBytes;
    assert (1 + q) * blockBytes == blockBytes + q * blockBytes;
  }

  // ------------------------------------------------------------------ rollback

  /** A carved extent that left a piece behind joins that piece again, so it needs no node. */
  lemma CarvedJoins(s: seq<Extent>, p: nat, at: nat, bytes: nat, k: nat)
    requires Canonical(s) && p < |s| && s[p].offset <= at && at + bytes <= End(s[p]) && bytes > 0
    requires |Carve(s, p, at, bytes)| >= |s|
    ensures !Lone(Carve(s, p, at, bytes), k, Extent(at, bytes))
  {
    if Lone(Carve(s, p, at, bytes), k, Extent(at, bytes)) {
      GiveCarve(s, p, at, bytes, k);
    }
  }

  lemma CarvedFree(s: seq<Extent>, p: nat, at: nat, bytes: nat, x: nat)
    requires Canonical(s) && p < |s| && s[p].offset <= at && at + bytes <= End(s[p]) && bytes > 0
    ensures Contains(Extent(at, bytes), x) ==> !Covers(Carve(s, p, at, bytes), x)
  {
    CarveCovers(s, p, at, bytes, x);
  }

  // ------------------------------------------------------------------ the allocator

  function DataOf(objects: map<nat, Descriptor>): (r: map<nat, Extent>)
    ensures r.Keys == objects.Keys && forall k :: k in objects ==> r[k] == objects[k].extent
  {
    map k | k in objects :: objects[k].extent
  }

  function SidecarsOf(objects: map<nat, Descriptor>): (r: map<nat, Extent>)
    ensures r.Keys == objects.Keys && forall k :: k in objects ==> r[k] == objects[k].sidecar
  {
    map k | k in objects :: objects[k].sidecar
  }

  /** Free and live storage of both pools, and every object well placed in its own extent. */
  ghost predicate Accounted(data: Extent, coherence: Extent, free: seq<Extent>, sidecar: seq<Extent>, objects: map<nat, Descriptor>) {
    && Partition(data, free, DataOf(objects))
    && Partition(coherence, sidecar, SidecarsOf(objects))
    && (forall k :: k in objects ==> Placed(k, objects[k]))
  }

  /** A slot names each live object, and nothing else. */
  ghost predicate SlotsOk(slots: seq<nat>, objects: map<nat, Descriptor>) {
    && 0 !in objects
    && (forall i :: 0 <= i < |slots| && slots[i] != 0 ==> slots[i] in objects)
    && (forall k :: k in objects ==> k in slots)
    && (forall i, j :: 0 <= i < j < |slots| && slots[i] != 0 ==> slots[i] != slots[j])
  }

  class SharedAllocator {
    const data: Extent
    const coherence: Extent
    const extents: SharedExtents
    var slots: seq<nat>
    var objects: map<nat, Descriptor>

    ghost predicate Valid()
      reads this, extents, extents.nodes
    {
      && extents.Valid() && End(data) <= MaxU64 && End(coherence) <= MaxU64
      && Accounted(data, coherence, extents.Free(0), extents.Free(1), objects)
      && SlotsOk(slots, objects)
    }

    constructor (capacity: nat, data: Extent, coherence: Extent, slotCount: nat)
      requires 2 <= capacity <= Invalid && data.bytes > 0 && coherence.bytes > 0
      requires End(data) <= MaxU64 && End(coherence) <= MaxU64
      ensures Valid() && objects == map[] && slots == seq(slotCount, _ => 0)
      ensures extents.Free(0) == [data] && extents.Free(1) == [coherence] && |extents.unused| == capacity - 2
    {
      hide StoreOk, Accounted, SlotsOk, Known, ExtentsOf;
      this.data := data;
      this.coherence := coherence;
      extents := new SharedExtents(capacity, data, coherence);
      slots := seq(slotCount, _ => 0);
      objects := map[];
      new;
      NothingLive(data, coherence, slots);
    }

    /** A free discovery slot nobody has pinned. */
    method FindSlot(pinned: seq<bool>) returns (i: nat)
      requires |pinned| == |slots|
      ensures i <= |slots|
      ensures i < |slots| ==> slots[i] == 0 && !pinned[i]
      ensures i == |slots| ==> forall k :: 0 <= k < |slots| ==> slots[k] != 0 || pinned[k]
    {
      i := 0;
      while i < |slots| && (slots[i] != 0 || pinned[i])
        invariant i <= |slots|
        invariant forall k :: 0 <= k < i ==> slots[k] != 0 || pinned[k]
      {
        i := i + 1;
      }
    }

    /** Undoes a data extent when the sidecar pool had no room: it cannot fail, and leaves the exact list. */
    method Rollback(at: nat, bytes: nat, ghost s: seq<Extent>, ghost p: nat)
      requires extents.Valid() && Canonical(s) && p < |s| && s[p].offset <= at && at + bytes <= End(s[p]) && bytes > 0
      requires extents.Free(0) == Carve(s, p, at, bytes) && (|extents.Free(0)| < |s| ==> extents.unused != [])
      modifies extents, extents.nodes
      ensures extents.Valid() && extents.Free(0) == s && extents.Free(1) == old(extents.Free(1))
    {
      hide StoreOk, Canonical, Place, Give, Carve, Covers;
      ghost var c, e := extents.Free(0), Extent(at, bytes);
      var r := extents.FreeExtent(0, at, bytes);
      forall x | Contains(e, x) ensures !Covers(c, x) { CarvedFree(s, p, at, bytes, x); }
      if r == NoNode {
        ghost var k :| Lone(c, k, e);
        CarvedJoins(s, p, at, bytes, k);
      }
      ghost var k :| Given(c, k, e, extents.Free(0));
      GiveCarve(s, p, at, bytes, k);
    }

    /** Takes an extent from each pool, or none from either. */
    method AllocateBoth(dataBytes: nat, sidecarBytes: nat) returns (ok: bool, at: nat, sidecar: nat)
      requires extents.Valid() && dataBytes > 0 && sidecarBytes > 0
      requires Canonical(extents.Free(0)) && Bounded(extents.Free(0)) && Bounded(extents.Free(1))
      modifies extents, extents.nodes
      ensures extents.Valid()
      ensures !ok ==> extents.Free(0) == old(extents.Free(0)) && extents.Free(1) == old(extents.Free(1))
      ensures ok ==> exists p :: Carved(old(extents.Free(0)), p, at, dataBytes, Line, extents.Free(0))
      ensures ok ==> exists p :: Carved(old(extents.Free(1)), p, sidecar, sidecarBytes, Line, extents.Free(1))
      ensures !ok ==> NoRoom(old(extents.Free(0)), dataBytes) || NoRoom(old(extents.Free(1)), sidecarBytes) || old(|extents.unused|) < 2
    {
      hide StoreOk, Canonical, Carve, Fits, Bounded, LeastMultiple, NoRoom;
      assert PowerOfTwo(Line);
      hide PowerOfTwo;
      ghost var s := extents.Free(0);
      NoneFit(s, dataBytes);
      NoneFit(extents.Free(1), sidecarBytes);
      var first := extents.AllocateExtent(0, dataBytes, Line);
      if !first.Allocated? { return false, 0, 0; }
      ghost var p :| Carved(s, p, first.offset, dataBytes, Line, extents.Free(0));
      var second := extents.AllocateExtent(1, sidecarBytes, Line);
      if !second.Allocated? {
        Rollback(first.offset, dataBytes, s, p);
        return false, 0, 0;
      }
      return true, first.offset, second.offset;
    }

    /**
     A new object with its block records. On every failure both free lists are exactly what they
     were; on success storage moved from free to live, to a place no live object has. Well-formed
     arguments fail for want of a slot exactly when every slot is in use or pinned, and otherwise
     only when one of the pools has no room for its extent or fewer than two nodes are unused.
     */
    method Allocate(bytes: nat, alignment: nat, requestedBlock: nat, defaultBlock: nat, pinned: seq<bool>) returns (r: Result)
      requires Valid() && |pinned| == |slots|
      modifies this, extents, extents.nodes
      ensures Valid()
      ensures r == InvalidArgument <==> Malformed(bytes, alignment, if requestedBlock == 0 then defaultBlock else requestedBlock)
      ensures r == NoSlot <==>
        && !Malformed(bytes, alignment, if requestedBlock == 0 then defaultBlock else requestedBlock)
        && forall i :: 0 <= i < |pinned| ==> old(slots)[i] != 0 || pinned[i]
      ensures r == OutOfMemory ==> var blockBytes := if requestedBlock == 0 then defaultBlock else requestedBlock;
        && bytes > 0 && blockBytes > 0
        && (NoRoom(old(extents.Free(0)), 640 + bytes + (alignment - 1))
            || NoRoom(old(extents.Free(1)), BlockCount(bytes, blockBytes) * 576)
            || old(|extents.unused|) < 2)
      ensures !r.Object? ==> objects == old(objects) && slots == old(slots)
      ensures !r.Object? ==> extents.Free(0) == old(extents.Free(0)) && extents.Free(1) == old(extents.Free(1))
      ensures r.Object? ==> r.offset != 0 && r.offset !in old(objects) && r.offset in objects
      ensures r.Object? ==> objects == old(objects)[r.offset := objects[r.offset]]
      ensures r.Object? ==> var d := objects[r.offset];
        && d.bytes == bytes && d.alignment == alignment && d.blockBytes == (if requestedBlock == 0 then defaultBlock else requestedBlock)
        && d.extent.bytes == 640 + bytes + (alignment - 1)
    {
      hide Blocks, BlockCount, PowerOfTwo, Accounted, StoreOk, SlotsOk, NoRoom;
      var blockBytes := if requestedBlock == 0 then defaultBlock else requestedBlock;
      if bytes == 0 || alignment == 0 || !PowerOfTwo(alignment) || blockBytes < Line || !PowerOfTwo(blockBytes) { return InvalidArgument; }
      var blockCount := BlockCount(bytes, blockBytes);
      if blockCount > MaxU64 / BlockRecordBytes || bytes + DescriptorBytes + (alignment - 1) > MaxU64 { return InvalidArgument; }
      BlockCountOk(bytes, blockBytes);
      var i := FindSlot(pinned);
      if i == |slots| { return NoSlot; }
      r := Install(bytes, alignment, blockBytes, blockCount, i);
    }

    method Install(bytes: nat, alignment: nat, blockBytes: nat, blockCount: nat, i: nat) returns (r: Result)
      requires Valid() && i < |slots| && slots[i] == 0
      requires bytes > 0 && PowerOfTwo(alignment) && alignment > 0 && blockBytes >= Line && blockCount > 0
      requires Blocks(bytes, blockBytes, blockCount)
      modifies this, extents, extents.nodes
      ensures Valid()
      ensures r == OutOfMemory || r.Object?
      ensures !r.Object? ==> objects == old(objects) && slots == old(slots)
      ensures !r.Object? ==> extents.Free(0) == old(extents.Free(0)) && extents.Free(1) == old(extents.Free(1))
      ensures r.Object? ==> r.offset != 0 && r.offset !in old(objects) && r.offset in objects
      ensures r.Object? ==> objects == old(objects)[r.offset := objects[r.offset]]
      ensures r.Object? ==> var d := objects[r.offset]; d.bytes == bytes && d.alignment == alignment && d.blockBytes == blockBytes
      ensures r.Object? ==> objects[r.offset].extent.bytes == 640 + bytes + (alignment - 1)
      ensures r == OutOfMemory ==>
        || NoRoom(old(extents.Free(0)), 640 + bytes + (alignment - 1))
        || NoRoom(old(extents.Free(1)), blockCount * 576)
        || old(|extents.unused|) < 2
    {
      hide StoreOk, PowerOfTwo, AlignUp, Carved, SlotsOk, Accounted, Bounded, Canonical, NoRoom, Blocks;
      ghost var free, sidecarFree := extents.Free(0), extents.Free(1);
      AccountedLists(data, coherence, free, sidecarFree, objects);
      var dataBytes, sidecarBytes := ExtentBytes(bytes, alignment), blockCount * BlockRecordBytes;
      var ok, at, sidecar := AllocateBoth(dataBytes, sidecarBytes);
      if !ok { return OutOfMemory; }
      var o := ObjectOffset(at, alignment);
      var d := Descriptor(bytes, alignment, blockBytes, blockCount, Extent(at, dataBytes), Extent(sidecar, sidecarBytes));
      CarvedKeeps(data, coherence, free, sidecarFree, extents.Free(0), extents.Free(1), objects, o, d);
      SlotTaken(slots, objects, i, o, d);
      objects := objects[o := d];
      slots := slots[i := o];
      return Object(o);
    }

    /** The slot that names an address: the first one, as the search finds it. */
    method FindAddress(o: nat) returns (i: nat)
      ensures i == SlotOf(slots, o)
      ensures i <= |slots| && (i < |slots| ==> slots[i] == o) && (i == |slots| ==> o !in slots)
    {
      i := 0;
      while i < |slots| && slots[i] != o
        invariant i <= |slots| && forall k :: 0 <= k < i ==> slots[k] != o
        invariant SlotOf(slots, o) == i + SlotOf(slots[i..], o)
      {
        assert slots[i..][1..] == slots[i + 1..];
        i := i + 1;
      }
    }

    method AnyActive(active: seq<nat>) returns (busy: bool)
      ensures busy <==> InUse(active)
    {
      var h := 0;
      while h < |active|
        invariant h <= |active| && forall k :: 0 <= k < h ==> active[k] == 0
      {
        if active[h] != 0 { return true; }
        h := h + 1;
      }
      return false;
    }

    /**
     Reclamation of a retired object: each refusal under exactly its own condition, in the
     source's order. With two unused nodes both extents go back and the control slot is idle
     again; otherwise nothing changes. Giving back never fails half way.
     */
    method Free(o: nat, local: nat, control: Retirement.Control, pinned: seq<bool>, holders: set<nat>, active: seq<nat>)
      returns (r: Freeing, control': Retirement.Control)
      requires Valid() && |pinned| == |slots|
      modifies this, extents, extents.nodes
      ensures Valid()
      ensures r == NotRetired <==> !Retired(control, o, local)
      ensures r == NotFound <==> Retired(control, o, local) && o !in old(slots)
      ensures r == Pinned <==> Retired(control, o, local) && o in old(slots) && PinnedAt(old(slots), pinned, o)
      ensures r == InvalidAddress <==> Retired(control, o, local) && o == 0 && o in old(slots) && !PinnedAt(old(slots), pinned, o)
      ensures Unpinned(old(objects), old(slots), pinned, o) && Retired(control, o, local) ==>
        r == if holders != {} then StillHeld
             else if InUse(active) then StillActive
             else if old(|extents.unused|) < 2 then TooFewNodes
             else Reclaimed
      ensures r == Reclaimed ==> Retired(control, o, local) && Unpinned(old(objects), old(slots), pinned, o) && objects == old(objects) - {o}
      ensures r == Reclaimed <==>
        && control.current.phase.Reclaimable? && control.current.obj == o && control.coordinator == local && o in old(objects)
        && (forall i :: 0 <= i < |pinned| && old(slots)[i] == o ==> !pinned[i])
        && holders == {} && (forall h :: 0 <= h < |active| ==> active[h] == 0) && old(|extents.unused|) >= 2
      ensures r == Reclaimed ==> control' == control.(current := control.current.(phase := Retirement.Idle))
      ensures r != Reclaimed ==> objects == old(objects) && slots == old(slots) && control' == control
      ensures r != Reclaimed ==> extents.Free(0) == old(extents.Free(0)) && extents.Free(1) == old(extents.Free(1))
    {
      hide StoreOk, Accounted, InUse, SlotOf;
      LiveNamed(slots, objects, o);
      LivePinned(slots, objects, pinned, o);
      InUseExactly(active);
      hide SlotsOk;
      control' := control;
      if !Retired(control, o, local) { return NotRetired, control; }
      var i := FindAddress(o);
      if i == |slots| { return NotFound, control; }
      if pinned[i] { return Pinned, control; }
      if o == 0 { return InvalidAddress, control; }
      if holders != {} { return StillHeld, control; }
      var busy := AnyActive(active);
      if busy { return StillActive, control; }
      var available := extents.CountNodes();
      if available < 2 { return TooFewNodes, control; }
      Reclaim(o, i);
      return Reclaimed, control.(current := control.current.(phase := Retirement.Idle));
    }

    /** The object leaves its slot, and its storage is free. */
    method Reclaim(o: nat, i: nat)
      requires Valid() && i < |slots| && slots[i] == o != 0 && o in objects && |extents.unused| >= 2
      modifies this, extents, extents.nodes
      ensures Valid() && objects == old(objects) - {o} && slots == old(slots)[i := 0]
    {
      hide StoreOk, Accounted, SlotsOk;
      GiveBack(o, objects[o]);
      SlotFreed(slots, objects, i, o);
      objects := objects - {o};
      slots := slots[i := 0];
    }

    /** Returns both extents of a live object. */
    method GiveBack(o: nat, d: Descriptor)
      requires extents.Valid() && o in objects && objects[o] == d && |extents.unused| >= 2
      requires Accounted(data, coherence, extents.Free(0), extents.Free(1), objects)
      modifies extents, extents.nodes
      ensures extents.Valid() && Accounted(data, coherence, extents.Free(0), extents.Free(1), objects - {o})
    {
      hide StoreOk, Placed, Partition, Place, Give, Covers;
      ghost var free, sidecarFree := extents.Free(0), extents.Free(1);
      var first := extents.FreeExtent(0, d.extent.offset, d.extent.bytes);
      LiveReturns(data, free, DataOf(objects), o);
      assert first == Freed;
      var second := extents.FreeExtent(1, d.sidecar.offset, d.sidecar.bytes);
      LiveReturns(coherence, sidecarFree, SidecarsOf(objects), o);
      assert second == Freed;
      ghost var p :| Given(free, p, d.extent, extents.Free(0));
      ghost var q :| Given(sidecarFree, q, d.sidecar, extents.Free(1));
      GiveKeeps(data, free, DataOf(objects), o, p);
      GiveKeeps(coherence, sidecarFree, SidecarsOf(objects), o, q);
      assert DataOf(objects - {o}) == DataOf(objects) - {o};
      assert SidecarsOf(objects - {o}) == SidecarsOf(objects) - {o};
    }
  }

  /** The retirement of `o` has reached its last phase, and this host runs it. */
  predicate Retired(control: Retirement.Control, o: nat, local: nat) {
    control.current.phase.Reclaimable? && control.current.obj == o && control.coordinator == local
  }

  /** Some host has an operation on the object. */
  predicate InUse(active: seq<nat>) {
    exists h :: 0 <= h < |active| && active[h] != 0
  }

  function SlotOf(slots: seq<nat>, o: nat): nat {
    if slots == [] || slots[0] == o then 0 else 1 + SlotOf(slots[1..], o)
  }

  /** A reader holds the slot that names `o`. */
  predicate PinnedAt(slots: seq<nat>, pinned: seq<bool>, o: nat)
    requires |pinned| == |slots|
  {
    SlotOf(slots, o) < |slots| && pinned[SlotOf(slots, o)]
  }

  /** A live object whose slot no reader holds. */
  predicate Unpinned(objects: map<nat, Descriptor>, slots: seq<nat>, pinned: seq<bool>, o: nat)
    requires |pinned| == |slots|
  {
    o in objects && !PinnedAt(slots, pinned, o)
  }

  function BlockCount(bytes: nat, blockBytes: nat): nat
    requires bytes > 0 && blockBytes > 0
  {
    1 + (bytes - 1) / blockBytes
  }

  /** No free extent has room for a line-aligned extent of this size. */
  ghost predicate NoRoom(free: seq<Extent>, bytes: nat) {
    forall p, at :: 0 <= p < |free| ==> !Room(free[p], bytes, Line, at)
  }

  lemma NoneFit(free: seq<Extent>, bytes: nat)
    ensures NoRoom(free, bytes) <==> forall i :: 0 <= i < |free| ==> !Fits(free[i], bytes, Line)
  {
    hide Fits, Room;
    forall i | 0 <= i < |free| ensures Fits(free[i], bytes, Line) <==> exists at :: Room(free[i], bytes, Line, at) {
      FitsExactly(free[i], bytes, Line);
    }
  }

  /** What is refused as malformed: sizes and alignments that are no powers of two, or overflow 64 bits. */
  lemma MalformedExactly(bytes: nat, alignment: nat, blockBytes: nat)
    ensures Malformed(bytes, alignment, blockBytes) <==>
      || bytes == 0 || (forall k :: alignment != Pow2(k)) || blockBytes < 64 || (forall k :: blockBytes != Pow2(k))
      || 1 + (bytes - 1) / blockBytes > 0xFFFF_FFFF_FFFF_FFFF / 576
      || 640 + bytes + (alignment - 1) > 0xFFFF_FFFF_FFFF_FFFF
  {
    hide PowerOfTwo;
    PowerOfTwoExactly(alignment);
    PowerOfTwoExactly(blockBytes);
    Pow2Positive();
  }

  lemma Pow2Positive()
    ensures forall k :: Pow2(k) > 0
  { }

  /** The arguments the allocator refuses. */
  predicate Malformed(bytes: nat, alignment: nat, blockBytes: nat) {
    || bytes == 0 || alignment == 0 || !PowerOfTwo(alignment) || blockBytes < Line || !PowerOfTwo(blockBytes)
    || BlockCount(bytes, blockBytes) > MaxU64 / BlockRecordBytes
    || bytes + DescriptorBytes + (alignment - 1) > MaxU64
  }

  lemma InsideBounded(pool: Extent, free: seq<Extent>, live: map<nat, Extent>)
    requires Partition(pool, free, live) && End(pool) <= MaxU64
    ensures Bounded(free) && Canonical(free)
  { }

  /** A live extent overlaps no free byte. */
  lemma LiveReturns(pool: Extent, free: seq<Extent>, live: map<nat, Extent>, o: nat)
    requires Partition(pool, free, live) && o in live
    ensures live[o].bytes > 0 && forall x :: Contains(live[o], x) ==> !Covers(free, x)
  { }

  /** What a slot names is live, and what is live has a slot. */
  lemma LiveNamed(slots: seq<nat>, objects: map<nat, Descriptor>, o: nat)
    requires SlotsOk(slots, objects)
    ensures o != 0 ==> (o in slots <==> o in objects)
    ensures o in objects ==> o != 0
  { }

  /** A live object has one slot, so it is pinned exactly when some slot that names it is. */
  lemma LivePinned(slots: seq<nat>, objects: map<nat, Descriptor>, pinned: seq<bool>, o: nat)
    requires SlotsOk(slots, objects) && |pinned| == |slots|
    ensures o in objects ==> (PinnedAt(slots, pinned, o) <==> exists i :: 0 <= i < |slots| && slots[i] == o && pinned[i])
  {
    if o in objects {
      FirstSlot(slots, o);
      hide SlotOf;
      assert o != 0;
      var i := SlotOf(slots, o);
      forall j | 0 <= j < |slots| && slots[j] == o ensures j == i { }
    }
  }

  lemma {:induction false} FirstSlot(slots: seq<nat>, o: nat)
    ensures SlotOf(slots, o) <= |slots| && (SlotOf(slots, o) < |slots| <==> o in slots)
    ensures SlotOf(slots, o) < |slots| ==> slots[SlotOf(slots, o)] == o
  {
    if slots != [] && slots[0] != o {
      FirstSlot(slots[1..], o);
      assert slots == [slots[0]] + slots[1..];
    }
  }

  lemma InUseExactly(active: seq<nat>)
    ensures InUse(active) <==> !(forall h :: 0 <= h < |active| ==> active[h] == 0)
  { }

  lemma SlotTaken(slots: seq<nat>, objects: map<nat, Descriptor>, i: nat, o: nat, d: Descriptor)
    requires SlotsOk(slots, objects) && i < |slots| && slots[i] == 0 && o != 0 && o !in objects
    ensures SlotsOk(slots[i := o], objects[o := d])
  {
    var slots' := slots[i := o];
    forall k | k in objects[o := d] ensures k in slots' {
      if k == o {
        assert slots'[i] == o;
      } else {
        var j :| 0 <= j < |slots| && slots[j] == k;
        assert j != i ==> slots'[j] == k;
      }
    }
  }

  lemma SlotFreed(slots: seq<nat>, objects: map<nat, Descriptor>, i: nat, o: nat)
    requires SlotsOk(slots, objects) && i < |slots| && slots[i] == o != 0
    ensures SlotsOk(slots[i := 0], objects - {o})
  {
    var slots' := slots[i := 0];
    forall k | k in objects - {o} ensures k in slots' {
      var j :| 0 <= j < |slots| && slots[j] == k;
      assert slots'[j] == k;
    }
  }

  /** `e` is the line-aligned front part of a free extent. */
  ghost predicate Taken(free: seq<Extent>, p: nat, e: Extent)
    requires p < |free|
  {
    e.offset == LeastMultiple(free[p].offset, Line) && free[p].offset <= e.offset && End(e) <= End(free[p])
  }

  /** Carving both extents for a new object keeps all storage accounted for. */
  lemma InstallKeeps(data: Extent, coherence: Extent, free: seq<Extent>, sidecarFree: seq<Extent>, objects: map<nat, Descriptor>,
                     p: nat, q: nat, o: nat, d: Descriptor)
    requires Accounted(data, coherence, free, sidecarFree, objects) && End(data) <= MaxU64
    requires d.alignment > 0 && d.extent.bytes == ExtentBytes(d.bytes, d.alignment) && o == ObjectOffset(d.extent.offset, d.alignment)
    requires d.sidecar.bytes == d.blockCount * BlockRecordBytes && d.blockCount > 0 && d.bytes > 0 && PowerOfTwo(d.alignment)
    requires d.blockBytes >= Line && Blocks(d.bytes, d.blockBytes, d.blockCount)
    requires p < |free| && Taken(free, p, d.extent)
    requires q < |sidecarFree| && Taken(sidecarFree, q, d.sidecar)
    ensures o != 0 && o !in objects
    ensures Accounted(data, coherence, Carve(free, p, d.extent.offset, d.extent.bytes), Carve(sidecarFree, q, d.sidecar.offset, d.sidecar.bytes), objects[o := d])
  {
    hide Carve, AlignUp, PowerOfTwo, Blocks, Partition, LeastMultiple;
    LeastMultipleIs(free[p].offset, Line);
    LeastMultipleIs(sidecarFree[q].offset, Line);
    InsideBounded(data, free, DataOf(objects));
    assert End(free[p]) <= MaxU64;
    PlacementOk(d.extent.offset, d.bytes, d.alignment);
    NewObject(data, free, objects, p, o);
    CarveKeeps(data, free, DataOf(objects), p, d.extent.offset, d.extent.bytes, o);
    CarveKeeps(coherence, sidecarFree, SidecarsOf(objects), q, d.sidecar.offset, d.sidecar.bytes, o);
    assert DataOf(objects[o := d]) == DataOf(objects)[o := d.extent];
    assert SidecarsOf(objects[o := d]) == SidecarsOf(objects)[o := d.sidecar];
  }

  lemma AccountedLists(data: Extent, coherence: Extent, free: seq<Extent>, sidecarFree: seq<Extent>, objects: map<nat, Descriptor>)
    requires Accounted(data, coherence, free, sidecarFree, objects) && End(data) <= MaxU64 && End(coherence) <= MaxU64
    ensures Canonical(free) && Bounded(free) && Bounded(sidecarFree)
  {
    hide Partition;
    InsideBounded(data, free, DataOf(objects));
    InsideBounded(coherence, sidecarFree, SidecarsOf(objects));
  }

  /** The same for the free lists that the two allocations leave. */
  lemma CarvedKeeps(data: Extent, coherence: Extent, free: seq<Extent>, sidecarFree: seq<Extent>, free': seq<Extent>, sidecarFree': seq<Extent>,
                    objects: map<nat, Descriptor>, o: nat, d: Descriptor)
    requires Accounted(data, coherence, free, sidecarFree, objects) && End(data) <= MaxU64
    requires d.alignment > 0 && d.extent.bytes == ExtentBytes(d.bytes, d.alignment) && o == ObjectOffset(d.extent.offset, d.alignment)
    requires d.sidecar.bytes == d.blockCount * BlockRecordBytes && d.blockCount > 0 && d.bytes > 0 && PowerOfTwo(d.alignment)
    requires d.blockBytes >= Line && Blocks(d.bytes, d.blockBytes, d.blockCount)
    requires exists p :: Carved(free, p, d.extent.offset, d.extent.bytes, Line, free')
    requires exists q :: Carved(sidecarFree, q, d.sidecar.offset, d.sidecar.bytes, Line, sidecarFree')
    ensures o != 0 && o !in objects && Accounted(data, coherence, free', sidecarFree', objects[o := d])
  {
    hide Accounted, Carve, AlignUp, PowerOfTwo, Blocks, LeastMultiple;
    var p :| Carved(free, p, d.extent.offset, d.extent.bytes, Line, free');
    var q :| Carved(sidecarFree, q, d.sidecar.offset, d.sidecar.bytes, Line, sidecarFree');
    InstallKeeps(data, coherence, free, sidecarFree, objects, p, q, o, d);
  }

  /** An address inside a free extent names no live object. */
  lemma NewObject(data: Extent, free: seq<Extent>, objects: map<nat, Descriptor>, p: nat, o: nat)
    requires Partition(data, free, DataOf(objects)) && p < |free| && Contains(free[p], o)
    requires forall k :: k in objects ==> Placed(k, objects[k])
    ensures o !in objects
  {
    hide PowerOfTwo, Blocks;
    assert Covers(free, o);
    forall k | k in objects ensures Contains(DataOf(objects)[k], k) { assert Placed(k, objects[k]); }
  }

  lemma NothingLive(data: Extent, coherence: Extent, slots: seq<nat>)
    requires data.bytes > 0 && coherence.bytes > 0 && (forall i :: 0 <= i < |slots| ==> slots[i] == 0)
    ensures Accounted(data, coherence, [data], [coherence], map[]) && SlotsOk(slots, map[])
  {
    hide Partition;
    WholePool(data);
    WholePool(coherence);
    assert DataOf(map[]) == map[] && SidecarsOf(map[]) == map[];
  }

  lemma WholePool(pool: Extent)
    requires pool.bytes > 0
    ensures Partition(pool, [pool], map[])
  {
    forall x | Contains(pool, x) ensures Covers([pool], x) { assert Contains([pool][0], x); }
  }
}
