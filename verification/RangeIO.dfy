/**
 Range writebacks and range reads of one object, block by block: any block size, any range, a
 short last block. `Coherence` covers how a single block behaves under interleaving.
 */
module RangeIO {

  type Byte = b: int | 0 <= b < 256 witness 0

  datatype Result<+T> = Ok(value: T) | InvalidArgument | Unavailable

  /** What became of the token request for one block. */
  datatype Attempt = Refused | TimedOut | Granted

  /**
   How writing back one block ended: its writer was not admitted, its release was refused after
   the bytes were copied, its release published the block but failed to pass the token on, or
   everything succeeded.
   */
  datatype Outcome = NotAdmitted | NotReleased | NotPassedOn | Done

  /** A write buffer: its leases by block, its place, and its private bytes. */
  datatype WriteBuffer = WriteBuffer(leases: seq<nat>, offset: nat, bytes: seq<Byte>)

  datatype Snapshot = Snapshot(versions: seq<nat>, bytes: seq<Byte>)

  // ------------------------------------------------------------------ blocks

  function BlockOf(x: nat, block: nat): nat
    requires block > 0
  {
    x / block
  }

  function Start(b: nat, block: nat): nat {
    b * block
  }

  function Min(a: nat, b: nat): nat { if a < b then a else b }

  function Max(a: nat, b: nat): nat { if a < b then b else a }

  lemma BlockBounds(x: nat, block: nat)
    requires block > 0
    ensures Start(BlockOf(x, block), block) <= x < Start(BlockOf(x, block) + 1, block)
  {
    assert x == x / block * block + x % block;
  }

  lemma StartGrows(a: nat, b: nat, block: nat)
    ensures a <= b ==> Start(a, block) <= Start(b, block)
    ensures Start(a + 1, block) == Start(a, block) + block
  {
    if a <= b { assert (b - a) * block >= 0; }
  }

  /** A block is covered exactly when some byte of the range lies in it. */
  lemma CoveredIff(offset: nat, length: nat, block: nat, b: nat)
    requires block > 0 && length > 0
    ensures BlockOf(offset, block) <= b <= BlockOf(offset + length - 1, block)
        <==> exists x: nat :: offset <= x < offset + length && BlockOf(x, block) == b
  {
    var first, last := BlockOf(offset, block), BlockOf(offset + length - 1, block);
    if first <= b <= last {
      var x := Max(offset, Start(b, block));
      BlockBounds(offset, block);
      BlockBounds(offset + length - 1, block);
      StartGrows(b, last, block);
      StartGrows(first + 1, b + 1, block);
      StartGrows(b, b, block);
      InBlock(x, b, block);
      assert offset <= x < offset + length && BlockOf(x, block) == b;
    }
    if x: nat :| offset <= x < offset + length && BlockOf(x, block) == b {
      BlockMonotone(offset, x, block);
      BlockMonotone(x, offset + length - 1, block);
    }
  }

  lemma BlockMonotone(x: nat, y: nat, block: nat)
    requires block > 0 && x <= y
    ensures BlockOf(x, block) <= BlockOf(y, block)
  {
    BlockBounds(x, block);
    BlockBounds(y, block);
    StartGrows(BlockOf(y, block) + 1, BlockOf(x, block), block);
  }

  lemma InBlock(x: nat, b: nat, block: nat)
    requires block > 0 && Start(b, block) <= x < Start(b + 1, block)
    ensures BlockOf(x, block) == b
  {
    var q := BlockOf(x, block);
    BlockBounds(x, block);
    StartGrows(q + 1, b, block);
    StartGrows(b + 1, q, block);
  }

  /** `base` with `patch` laid over it from `at`. */
  function Overlay(base: seq<Byte>, at: nat, patch: seq<Byte>): (r: seq<Byte>)
    requires at + |patch| <= |base|
    ensures |r| == |base|
  {
    base[..at] + patch + base[at + |patch|..]
  }

  lemma SliceSlice(s: seq<Byte>, a: nat, b: nat, i: nat, j: nat)
    requires a <= b <= |s| && i <= j <= b - a
    ensures s[a..b][i..j] == s[a + i..a + j]
  {
    var inner, whole := s[a..b][i..j], s[a + i..a + j];
    forall k | 0 <= k < |inner| ensures inner[k] == whole[k] { }
    assert inner == whole;
  }

  lemma SliceJoin(s: seq<Byte>, a: nat, b: nat, c: nat)
    requires a <= b <= c <= |s|
    ensures s[a..b] + s[b..c] == s[a..c]
  {
    var joined, whole := s[a..b] + s[b..c], s[a..c];
    forall i | 0 <= i < |joined| ensures joined[i] == whole[i] { }
    assert joined == whole;
  }

  lemma OverlayNone(base: seq<Byte>, at: nat, data: seq<Byte>)
    requires at <= |base|
    ensures Overlay(base, at, data[..0]) == base
  { }

  /** Overlaying the next piece right after the last one is overlaying both. */
  lemma OverlayNext(base: seq<Byte>, at: nat, data: seq<Byte>, i: nat, j: nat)
    requires i <= j <= |data| && at + |data| <= |base|
    ensures Overlay(Overlay(base, at, data[..i]), at + i, data[i..j]) == Overlay(base, at, data[..j])
  { }

  /** Reading back what was written gives it back; every other byte is what it was. */
  lemma OverlayReads(base: seq<Byte>, at: nat, data: seq<Byte>)
    requires at + |data| <= |base|
    ensures Overlay(base, at, data)[at..at + |data|] == data
    ensures forall x :: 0 <= x < |base| && !(at <= x < at + |data|) ==> Overlay(base, at, data)[x] == base[x]
  { }

  /** Where writing stands once the blocks below `b` are done. */
  function Reached(offset: nat, length: nat, b: nat, block: nat): (r: nat)
    ensures offset <= r <= offset + length
  {
    Min(offset + length, Max(offset, Start(b, block)))
  }

  /** The part of block `b` inside the range runs from where writing stood to where it stands after the block. */
  lemma Piece(offset: nat, length: nat, size: nat, block: nat, b: nat)
    requires block > 0 && length > 0 && offset + length <= size
    requires BlockOf(offset, block) <= b <= BlockOf(offset + length - 1, block)
    ensures Start(b, block) < size && b <= BlockOf(size - 1, block)
    ensures Max(offset, Start(b, block)) == Reached(offset, length, b, block)
    ensures Min(offset + length, Min(size, Start(b, block) + block)) == Reached(offset, length, b + 1, block)
    ensures Start(b, block) <= Reached(offset, length, b, block) <= Reached(offset, length, b + 1, block) <= Min(size, Start(b, block) + block)
  {
    var first, last := BlockOf(offset, block), BlockOf(offset + length - 1, block);
    BlockBounds(offset, block);
    BlockBounds(offset + length - 1, block);
    BlockMonotone(offset + length - 1, size - 1, block);
    StartGrows(first + 1, b + 1, block);
    StartGrows(b, last, block);
    StartGrows(b, b, block);
    hide BlockOf, Start;
  }

  lemma PieceEnds(offset: nat, length: nat, block: nat)
    requires block > 0 && length > 0
    ensures BlockOf(offset, block) <= BlockOf(offset + length - 1, block)
    ensures Reached(offset, length, BlockOf(offset, block), block) == offset
    ensures Reached(offset, length, BlockOf(offset + length - 1, block) + 1, block) == offset + length
  {
    BlockBounds(offset, block);
    BlockBounds(offset + length - 1, block);
    BlockMonotone(offset, offset + length - 1, block);
    hide BlockOf, Start;
  }

  /** `count` versions from `first` on raised by one, all others kept. */
  function Bumped(versions: seq<nat>, first: nat, count: nat): (r: seq<nat>)
    ensures |r| == |versions|
    ensures forall b :: 0 <= b < |r| ==> r[b] == versions[b] + (if first <= b < first + count then 1 else 0)
  {
    seq(|versions|, b requires 0 <= b < |versions| => versions[b] + (if first <= b < first + count then 1 else 0))
  }

  lemma BumpedNext(versions: seq<nat>, first: nat, count: nat)
    requires first + count < |versions|
    ensures var b := first + count; Bumped(versions, first, count)[b := Bumped(versions, first, count)[b] + 1] == Bumped(versions, first, count + 1)
  { }

  /** How many blocks were written, and how many versions published, when it ended so after `done` blocks. */
  function Admitted(status: Outcome, done: nat): nat {
    if status.NotReleased? || status.NotPassedOn? then done + 1 else done
  }

  function Published(status: Outcome, done: nat): nat {
    if status.NotPassedOn? then done + 1 else done
  }

  predicate BadRange(size: nat, offset: nat, bytes: nat) {
    bytes == 0 || offset > size || bytes > size - offset
  }

  /** Memory once the blocks below `b` have been written. */
  function Written(base: seq<Byte>, offset: nat, data: seq<Byte>, b: nat, block: nat): seq<Byte>
    requires offset + |data| <= |base|
  {
    Overlay(base, offset, data[..Reached(offset, |data|, b, block) - offset])
  }

  lemma BlockIs(x: nat, block: nat)
    requires block > 0
    ensures BlockOf(x, block) == x / block
  { }

  lemma BumpedAt(versions: seq<nat>, first: nat, count: nat, b: nat)
    requires b < |versions|
    ensures Bumped(versions, first, count)[b] == versions[b] + if first <= b < first + count then 1 else 0
  { }

  /** The byte is in the range, and in one of the first `count` blocks that the range covers. */
  predicate Reaches(x: nat, offset: nat, length: nat, block: nat, count: nat)
    requires block > 0
  {
    offset <= x < offset + length && x / block < offset / block + count
  }

  /** Written so far are exactly those bytes. */
  lemma WrittenBytes(base: seq<Byte>, offset: nat, data: seq<Byte>, block: nat, count: nat)
    requires block > 0 && |data| > 0 && offset + |data| <= |base|
    ensures var w := Written(base, offset, data, BlockOf(offset, block) + count, block);
      |w| == |base| && forall x :: 0 <= x < |w| ==> w[x] == if Reaches(x, offset, |data|, block, count) then data[x - offset] else base[x]
  {
    hide BlockOf, Reached;
    forall x: nat ensures offset <= x < Reached(offset, |data|, BlockOf(offset, block) + count, block) <==> Reaches(x, offset, |data|, block, count) {
      ReachedExactly(x, offset, |data|, block, count);
    }
    hide Reaches;
  }

  lemma ReachedExactly(x: nat, offset: nat, length: nat, block: nat, count: nat)
    requires block > 0 && length > 0
    ensures offset <= x < Reached(offset, length, BlockOf(offset, block) + count, block) <==> Reaches(x, offset, length, block, count)
  {
    var b := BlockOf(offset, block) + count;
    BlockIs(x, block);
    BlockIs(offset, block);
    BlockBounds(x, block);
    BlockBounds(offset, block);
    StartGrows(BlockOf(x, block) + 1, b, block);
    StartGrows(b, BlockOf(x, block), block);
    hide BlockOf, Start;
  }

  lemma WrittenEnds(base: seq<Byte>, offset: nat, data: seq<Byte>, block: nat)
    requires block > 0 && |data| > 0 && offset + |data| <= |base|
    ensures BlockOf(offset, block) <= BlockOf(offset + |data| - 1, block)
    ensures Written(base, offset, data, BlockOf(offset, block), block) == base
    ensures Written(base, offset, data, BlockOf(offset + |data| - 1, block) + 1, block) == Overlay(base, offset, data)
  {
    PieceEnds(offset, |data|, block);
    hide BlockOf, Reached;
    OverlayNone(base, offset, data);
    assert data[..|data|] == data;
  }

  /** The blocks from `lo` to below `hi`, in order. */
  function Span(lo: nat, hi: nat): (r: seq<nat>)
    requires lo <= hi
    ensures |r| == hi - lo && forall i :: 0 <= i < |r| ==> r[i] == lo + i
  {
    seq(hi - lo, i requires i >= 0 => lo + i)
  }

  function Reverse(s: seq<nat>): (r: seq<nat>)
    ensures |r| == |s| && forall i :: 0 <= i < |r| ==> r[i] == s[|s| - 1 - i]
  {
    if s == [] then [] else [s[|s| - 1]] + Reverse(s[..|s| - 1])
  }

  // ------------------------------------------------------------------ one object

  class SharedObject {
    const block: nat
    const memory: array<Byte>
    const versions: array<nat>

    ghost predicate Valid() {
      && block > 0 && memory.Length > 0
      && versions.Length == BlockOf(memory.Length - 1, block) + 1
    }

    constructor (size: nat, block: nat)
      requires size > 0 && block > 0
      ensures Valid() && this.block == block && memory.Length == size && fresh(memory) && fresh(versions)
      ensures forall b :: 0 <= b < versions.Length ==> versions[b] == 0
    {
      this.block := block;
      memory := new Byte[size](_ => 0);
      versions := new nat[1 + (size - 1) / block](_ => 0);
    }

    /** Copies `data` over shared bytes from `at`. */
    method Copy(at: nat, data: seq<Byte>)
      requires at + |data| <= memory.Length
      modifies memory
      ensures memory[..] == Overlay(old(memory[..]), at, data)
    {
      for i := 0 to |data|
        invariant forall x :: 0 <= x < memory.Length ==>
          memory[x] == if at <= x < at + i then data[x - at] else old(memory[x])
      {
        memory[at + i] := data[i];
      }
    }

    /**
     Collects the token of every covered block in order, then copies the range. When one cannot
     be had, the ones already taken are given back, last first, and nothing else happens.
     */
    method AcquireWriteRange(offset: nat, bytes: nat, attempts: seq<Attempt>) returns (r: Result<WriteBuffer>, released: seq<nat>)
      requires Valid() && |attempts| == versions.Length
      ensures r == InvalidArgument <==> BadRange(memory.Length, offset, bytes)
      ensures r.Ok? ==>
        && !BadRange(memory.Length, offset, bytes) && released == []
        && BlockOf(offset, block) <= BlockOf(offset + bytes - 1, block)
        && r.value.leases == Span(BlockOf(offset, block), BlockOf(offset + bytes - 1, block) + 1)
        && r.value.offset == offset && r.value.bytes == memory[..][offset..offset + bytes]
      ensures r.Unavailable? ==>
        && !BadRange(memory.Length, offset, bytes)
        && exists b :: BlockOf(offset, block) <= b <= BlockOf(offset + bytes - 1, block) && b < |attempts| && !attempts[b].Granted?
             && (forall k :: BlockOf(offset, block) <= k < b ==> attempts[k].Granted?)
             && released == Reverse(Span(BlockOf(offset, block), b))
    {
      released := [];
      if BadRange(memory.Length, offset, bytes) { return InvalidArgument, released; }
      var first, last := BlockOf(offset, block), BlockOf(offset + bytes - 1, block);
      PieceEnds(offset, bytes, block);
      Piece(offset, bytes, memory.Length, block, last);
      hide BlockOf, Start, Reached;
      var leases: seq<nat> := [];
      for b := first to last + 1
        invariant leases == Span(first, b) && forall k :: first <= k < b ==> attempts[k].Granted?
      {
        if !attempts[b].Granted? {
          released := GiveBack(leases);
          return Unavailable, released;
        }
        leases := leases + [b];
      }
      r := Ok(WriteBuffer(leases, offset, memory[offset..offset + bytes]));
    }

    method GiveBack(leases: seq<nat>) returns (released: seq<nat>)
      ensures released == Reverse(leases)
    {
      released := [];
      var i := |leases|;
      while i > 0
        invariant 0 <= i <= |leases| && |released| == |leases| - i
        invariant forall k :: 0 <= k < |released| ==> released[k] == leases[|leases| - 1 - k]
      {
        i := i - 1;
        released := released + [leases[i]];
      }
      assert released == Reverse(leases);
    }

    /** Copies the part of the range that lies in block `b`. */
    method WriteBlock(b: nat, offset: nat, data: seq<Byte>, ghost base: seq<Byte>)
      requires Valid() && |data| > 0 && offset + |data| <= memory.Length == |base|
      requires BlockOf(offset, block) <= b <= BlockOf(offset + |data| - 1, block)
      requires memory[..] == Written(base, offset, data, b, block)
      modifies memory
      ensures memory[..] == Written(base, offset, data, b + 1, block) && b < versions.Length
    {
      hide BlockOf, Start, Reached, Overlay;
      Piece(offset, |data|, memory.Length, block, b);
      var start := Start(b, block);
      var from, to := Max(offset, start), Min(offset + |data|, Min(memory.Length, start + block));
      hide Min, Max;
      OverlayNext(base, offset, data, from - offset, to - offset);
      Copy(from, data[from - offset..to - offset]);
    }

    /**
     Writes a buffer back under its leases, block after block; `outcomes[i]` says how the i-th
     covered block fares. The first failure ends the writeback. Every block admitted has its
     part of the range written and no other byte has changed; every block whose release went
     through, also one that then failed to pass the token on, has its version raised by one and
     no other version has changed; the leases never tried are given back unmodified, so every
     lease is released exactly once.
     */
    method ReleaseWriteBuffer(offset: nat, data: seq<Byte>, outcomes: seq<Outcome>) returns (status: Outcome, done: nat, unmodified: seq<nat>)
      requires Valid() && |data| > 0 && offset + |data| <= memory.Length
      requires |outcomes| == BlockOf(offset + |data| - 1, block) - BlockOf(offset, block) + 1
      modifies memory, versions
      ensures done <= |outcomes| && (forall i :: 0 <= i < done ==> outcomes[i].Done?)
      ensures if done < |outcomes| then status == outcomes[done] && !status.Done? else status == Done
      ensures memory[..] == Written(old(memory[..]), offset, data, BlockOf(offset, block) + Admitted(status, done), block)
      ensures status == Done ==> memory[..] == Overlay(old(memory[..]), offset, data)
      ensures versions[..] == Bumped(old(versions[..]), BlockOf(offset, block), Published(status, done))
      ensures forall b :: 0 <= b < versions.Length ==>
        versions[b] == old(versions[b]) + if offset / block <= b < offset / block + done + (if status == NotPassedOn then 1 else 0) then 1 else 0
      ensures forall x :: 0 <= x < memory.Length ==>
        memory[x] == if Reaches(x, offset, |data|, block, done + (if status == NotReleased || status == NotPassedOn then 1 else 0))
                     then data[x - offset] else old(memory[x])
      ensures unmodified == Span(BlockOf(offset, block) + Admitted(status, done), BlockOf(offset, block) + |outcomes|)
    {
      hide Start, Reached, Overlay, Written, BlockOf;
      var first := BlockOf(offset, block);
      ghost var last, base, before := BlockOf(offset + |data| - 1, block), memory[..], versions[..];
      done, status := 0, Done;
      WrittenEnds(base, offset, data, block);
      assert versions[..] == Bumped(before, first, 0);
      hide Bumped;
      while done < |outcomes| && status.Done?
        invariant done <= |outcomes| && forall i :: 0 <= i < done ==> outcomes[i].Done?
        invariant status.Done? || (done < |outcomes| && status == outcomes[done])
        invariant memory[..] == Written(base, offset, data, first + Admitted(status, done), block)
        invariant versions[..] == Bumped(before, first, Published(status, done))
        decreases |outcomes| - done, status.Done?
      {
        status := outcomes[done];
        if !status.NotAdmitted? {
          WriteBlock(first + done, offset, data, base);
          if !status.NotReleased? {
            BumpedNext(before, first, done);
            versions[first + done] := versions[first + done] + 1;
          }
        }
        if status.Done? { done := done + 1; }
      }
      unmodified := Returned(first + Admitted(status, done), first + |outcomes|);
      WrittenBytes(base, offset, data, block, Admitted(status, done));
      forall x | 0 <= x < memory.Length
        ensures memory[x] == if Reaches(x, offset, |data|, block, Admitted(status, done)) then data[x - offset] else base[x]
      {
        assert memory[..][x] == memory[x];
      }
      forall b | 0 <= b < versions.Length
        ensures versions[b] == before[b] + if first <= b < first + Published(status, done) then 1 else 0
      {
        assert versions[..][b] == versions[b];
        BumpedAt(before, first, Published(status, done), b);
      }
      BlockIs(offset, block);
    }

    /** The leases given back without a writeback, in order. */
    method Returned(lo: nat, hi: nat) returns (unmodified: seq<nat>)
      requires lo <= hi
      ensures unmodified == Span(lo, hi)
    {
      unmodified := [];
      for b := lo to hi
        invariant unmodified == Span(lo, b)
      {
        unmodified := unmodified + [b];
      }
    }

    /** A copy of one block's bytes. */
    method ReadBlock(start: nat, end: nat) returns (bytes: seq<Byte>)
      requires start <= end <= memory.Length
      ensures bytes == memory[..][start..end]
    {
      bytes := memory[start..end];
    }

    /** The part of the range that lies in block `b`, cut out of a copy of the whole block. */
    method ReadPart(b: nat, offset: nat, bytes: nat) returns (part: seq<Byte>)
      requires Valid() && bytes > 0 && offset + bytes <= memory.Length
      requires BlockOf(offset, block) <= b <= BlockOf(offset + bytes - 1, block)
      ensures var from, to := Reached(offset, bytes, b, block), Reached(offset, bytes, b + 1, block);
        offset <= from <= to <= memory.Length && part == memory[..][from..to]
    {
      Piece(offset, bytes, memory.Length, block, b);
      var start, end := Start(b, block), Min(memory.Length, Start(b, block) + block);
      var from, to := Max(offset, start), Min(offset + bytes, end);
      hide BlockOf, Start, Reached, Min, Max;
      var replica := ReadBlock(start, end);
      SliceSlice(memory[..], start, end, from - start, to - start);
      part := replica[from - start..to - start];
    }

    /**
     A range read of memory nobody is writing: exactly that slice, with the version of every
     covered block. Blocks that did not settle in time make it unavailable.
     */
    method ReadRange(offset: nat, requested: nat, full: bool, stable: seq<bool>) returns (r: Result<Snapshot>)
      requires Valid() && |stable| == versions.Length
      ensures r == InvalidArgument <==> BadRange(memory.Length, offset, if full then memory.Length else requested)
      ensures r.Ok? ==> !BadRange(memory.Length, offset, if full then memory.Length else requested)
      ensures r.Ok? ==>
        var bytes := if full then memory.Length else requested;
        var first, last := BlockOf(offset, block), BlockOf(offset + bytes - 1, block);
        && first <= last < versions.Length && r.value.bytes == memory[offset..offset + bytes]
        && r.value.versions == versions[first..last + 1]
        && forall b :: first <= b <= last ==> stable[b]
      ensures r == Unavailable ==>
        var bytes := if full then memory.Length else requested;
        !BadRange(memory.Length, offset, bytes) && exists b :: BlockOf(offset, block) <= b <= BlockOf(offset + bytes - 1, block) && b < versions.Length && !stable[b]
    {
      var bytes := if full then memory.Length else requested;
      if BadRange(memory.Length, offset, bytes) { return InvalidArgument; }
      var first, last := BlockOf(offset, block), BlockOf(offset + bytes - 1, block);
      PieceEnds(offset, bytes, block);
      Piece(offset, bytes, memory.Length, block, last);
      hide BlockOf, Start, Reached;
      var assembled: seq<Byte>, seen := [], [];
      for b := first to last + 1
        invariant assembled == memory[..][offset..Reached(offset, bytes, b, block)]
        invariant seen == versions[first..b] && forall k :: first <= k < b ==> stable[k]
      {
        if !stable[b] { return Unavailable; }
        Piece(offset, bytes, memory.Length, block, b);
        var part := ReadPart(b, offset, bytes);
        SliceJoin(memory[..], offset, Reached(offset, bytes, b, block), Reached(offset, bytes, b + 1, block));
        assembled := assembled + part;
        seen := seen + [versions[b]];
      }
      assert memory[offset..offset + bytes] == memory[..][offset..offset + bytes];
      return Ok(Snapshot(seen, assembled));
    }

    /** A completed writeback is what the next read returns, under versions one higher. */
    method WriteThenRead(offset: nat, data: seq<Byte>) returns (r: Result<Snapshot>)
      requires Valid() && |data| > 0 && offset + |data| <= memory.Length
      modifies memory, versions
      ensures r.Ok? && r.value.bytes == data
      ensures BlockOf(offset + |data| - 1, block) < versions.Length && |r.value.versions| == BlockOf(offset + |data| - 1, block) + 1 - BlockOf(offset, block)
      ensures forall i :: 0 <= i < |r.value.versions| ==> r.value.versions[i] == old(versions[..])[BlockOf(offset, block) + i] + 1
      ensures forall x :: 0 <= x < memory.Length && !(offset <= x < offset + |data|) ==> memory[x] == old(memory[x])
    {
      BlockMonotone(offset, offset + |data| - 1, block);
      BlockMonotone(offset + |data| - 1, memory.Length - 1, block);
      var first, last := BlockOf(offset, block), BlockOf(offset + |data| - 1, block);
      var status, done, unmodified := ReleaseWriteBuffer(offset, data, seq(last - first + 1, _ => Done));
      OverlayReads(old(memory[..]), offset, data);
      forall x | 0 <= x < memory.Length && !(offset <= x < offset + |data|) ensures memory[x] == old(memory[x]) {
        assert memory[..][x] == old(memory[..])[x];
      }
      hide BlockOf;
      assert memory[offset..offset + |data|] == memory[..][offset..offset + |data|];
      r := ReadRange(offset, |data|, false, seq(versions.Length, _ => true));
    }
  }
}
