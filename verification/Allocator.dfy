/**
 The shared extent allocator: two pools over one node array, changed in place under the extent
 lock. Each operation is proved to do to the free list what `Extents` says, while every index
 structure of `ExtentIndex` stays consistent.
 */
module Allocator {
  import opened Extents
  import opened ExtentIndex

  // ------------------------------------------------------------------ alignment

  predicate PowerOfTwo(n: nat) {
    n == 1 || (n > 1 && n % 2 == 0 && PowerOfTwo(n / 2))
  }

  lemma {:induction false} PowerOfTwoIs(n: nat) returns (k: nat)
    requires PowerOfTwo(n)
    ensures n == Pow2(k)
  {
    if n == 1 {
      k := 0;
    } else {
      k := PowerOfTwoIs(n / 2);
      k := k + 1;
    }
  }

  /** The test by halving accepts exactly the powers of two. */
  lemma {:induction false} Pow2IsPower(k: nat)
    ensures PowerOfTwo(Pow2(k))
  {
    if k > 0 {
      Pow2IsPower(k - 1);
      assert Pow2(k) / 2 == Pow2(k - 1);
    }
  }

  lemma PowerOfTwoExactly(n: nat)
    ensures PowerOfTwo(n) <==> exists k :: n == Pow2(k)
  {
    if PowerOfTwo(n) { var k := PowerOfTwoIs(n); }
    forall k | n == Pow2(k) ensures PowerOfTwo(n) { Pow2IsPower(k); }
  }

  function LeastMultiple(value: nat, alignment: nat): nat
    requires alignment > 0
  {
    (value + alignment - 1) / alignment * alignment
  }

  lemma LeastMultipleIs(value: nat, alignment: nat)
    requires alignment > 0
    ensures var m := LeastMultiple(value, alignment); value <= m < value + alignment && m % alignment == 0
  {
    var x := value + alignment - 1;
    assert x == x / alignment * alignment + x % alignment;
    MultipleMod(x / alignment, alignment);
  }

  lemma TimesAtLeast(n: int, a: int)
    requires a >= 0
    ensures n >= 1 ==> n * a >= a
    ensures n <= -1 ==> n * a <= -a
  {
    if n >= 1 { assert (n - 1) * a >= 0; }
    if n <= -1 { assert (-n - 1) * a >= 0; }
  }

  lemma MultipleMod(k: nat, a: nat)
    requires a > 0
    ensures k * a % a == 0
  {
    var q, r := k * a / a, k * a % a;
    assert k * a == q * a + r;
    assert (k - q) * a == r;
    TimesAtLeast(k - q, a);
  }

  /** A multiple that is at least `value` is at least the least one. */
  lemma LeastMultipleLeast(value: nat, alignment: nat, k: nat)
    requires alignment > 0 && value <= k * alignment
    ensures LeastMultiple(value, alignment) <= k * alignment
  {
    LeastMultipleIs(value, alignment);
    var q := (value + alignment - 1) / alignment;
    TimesAtLeast(q - k, alignment);
    assert (q - k) * alignment == q * alignment - k * alignment;
  }

  lemma {:induction false} Pow2Grows(a: nat, b: nat)
    ensures a <= b ==> Pow2(a) <= Pow2(b)
  {
    if a < b { Pow2Grows(a, b - 1); }
  }

  /** Every power of two of 64 bits divides 2^64. */
  lemma DividesWord(a: nat) returns (k: nat)
    requires PowerOfTwo(a) && a <= MaxU64
    ensures k * a == MaxU64 + 1
  {
    var n := PowerOfTwoIs(a);
    WordIsPow2();
    Pow2Grows(64, n);
    PowSum(64 - n, n);
    k := Pow2(64 - n);
  }

  /** 64-bit rounding up: 0 when the alignment is no power of two or the result does not fit. */
  function AlignUp(value: nat, alignment: nat): nat {
    var a := if alignment == 0 then 1 else alignment;
    if !PowerOfTwo(a) || a > MaxU64 || value > MaxU64 - (a - 1) then 0 else LeastMultiple(value, a)
  }

  /** Two multiples of `a` less than `a` apart are in order. */
  lemma MultiplesApart(q: nat, k: nat, a: nat)
    requires q * a > k * a - a
    ensures q * a >= k * a
  {
    TimesAtLeast(q - k, a);
    assert (q - k) * a == q * a - k * a;
  }

  /** `AlignUp` gives the least aligned address, or 0 exactly when there is none in 64 bits. */
  lemma AlignUpExact(value: nat, a: nat)
    requires PowerOfTwo(a) && a <= MaxU64 && value <= MaxU64
    ensures AlignUp(value, a) == if LeastMultiple(value, a) <= MaxU64 then LeastMultiple(value, a) else 0
  {
    assert a > 0;
    hide PowerOfTwo;
    LeastMultipleIs(value, a);
    if value > MaxU64 - (a - 1) {
      var k := DividesWord(a);
      var q := (value + a - 1) / a;
      assert LeastMultiple(value, a) == q * a;
      hide LeastMultiple;
      MultiplesApart(q, k, a);
    }
  }

  // ------------------------------------------------------------------ the store

  /** Both pools are consistent and the three lists split the node array. */
  ghost predicate StoreOk(nodes: seq<Node>, pools: seq<Pool>, indexes: seq<Index>, head: nat, unused: seq<nat>) {
    && |pools| == |indexes| == 2
    && PoolOk(nodes, pools[0], indexes[0], {}) && PoolOk(nodes, pools[1], indexes[1], {})
    && UnusedOk(nodes, head, unused)
    && Apart(indexes[0].order, indexes[1].order, unused)
    && (forall x :: 0 <= x < |nodes| ==> x in indexes[0].order || x in indexes[1].order || x in unused)
  }

  datatype Outcome = Allocated(offset: nat) | Exhausted | NoMetadata

  datatype Reclaim = Freed | Empty | Overlaps | NoNode

  class SharedExtents {
    const nodes: array<Node>
    var pools: seq<Pool>
    var unusedHead: nat
    ghost var indexes: seq<Index>
    ghost var unused: seq<nat>

    ghost predicate Valid()
      reads this, nodes
    {
      Shaped() && StoreOk(nodes[..], pools, indexes, unusedHead, unused)
    }

    ghost predicate Shaped()
      reads this
    {
      |indexes| == 2 && Known(indexes[0].order, nodes.Length) && Known(indexes[1].order, nodes.Length)
    }

    ghost function FreeList(q: nat): (s: seq<Extent>)
      requires q < |indexes| && Known(indexes[q].order, nodes.Length)
      reads this, nodes
      ensures |s| == |indexes[q].order|
    {
      ExtentsOf(nodes[..], indexes[q].order)
    }

    /** Formats an empty store: one free extent per pool, every other node unused. */
    constructor (capacity: nat, data: Extent, coherence: Extent)
      requires 2 <= capacity <= Invalid && data.bytes > 0 && coherence.bytes > 0
      ensures Valid() && fresh(nodes) && Free(0) == [data] && Free(1) == [coherence]
      ensures unused == seq(capacity - 2, i => i + 2)
    {
      hide StoreOk, FirstNode, FirstPool, FirstIndex, ExtentsOf;
      nodes := new Node[capacity];
      pools := [FirstPool(0, data), FirstPool(1, coherence)];
      indexes := [FirstIndex(0, data), FirstIndex(1, coherence)];
      unusedHead := if capacity > 2 then 2 else Invalid;
      unused := seq(capacity - 2, i => i + 2);
      new;
      nodes[0] := FirstNode(data);
      nodes[1] := FirstNode(coherence);
      for i := 2 to capacity
        invariant nodes.Length == capacity && nodes[0] == FirstNode(data) && nodes[1] == FirstNode(coherence)
        invariant forall j :: 2 <= j < i ==> nodes[j] == Blank.(next := if j + 1 < capacity then j + 1 else Invalid)
        modifies nodes
      {
        nodes[i] := Blank.(next := if i + 1 < capacity then i + 1 else Invalid);
      }
      FirstStoreOk(nodes[..], data, coherence, unused);
    }

    ghost function OrderOf(q: nat): seq<nat>
      reads this
    {
      if q < |indexes| then indexes[q].order else []
    }

    /** The free list of pool `q` in address order. */
    ghost function Free(q: nat): (s: seq<Extent>)
      reads this, nodes
      ensures Shaped() && q < 2 ==> |s| == |indexes[q].order|
    {
      if !Shaped() then [] else if q == 0 then FreeList(0) else FreeList(1)
    }

    method InsertBin(q: nat, x: nat, ghost loose: set<nat>)
      requires q < |pools| == |indexes| && PoolOk(nodes[..], pools[q], indexes[q], loose) && x in loose && x in indexes[q].order
      modifies this`pools, this`indexes, nodes
      ensures OnlyPool(q, old(pools), old(indexes), pools, indexes)
      ensures indexes[q].order == old(indexes)[q].order && pools[q].head == old(pools)[q].head
      ensures SameAddresses(old(nodes[..]), nodes[..], indexes[q].order)
      ensures PoolOk(nodes[..], pools[q], indexes[q], loose - {x})
    {
      hide At, Distinct, Canonical, Linked, Indexed, BinFor;
      ghost var before := nodes[..];
      var b := BinFor(nodes[x].bytes);
      var pool := pools[q];
      assert BinOk(nodes[..], pool.heads[b], pool.bits[b], b, indexes[q].bins[b]);
      var head := pool.heads[b];
      assert head != Invalid ==> head < nodes.Length;
      assert head != x by { HeadNotLoose(nodes[..], pool, indexes[q], loose, x, b); }
      nodes[x] := nodes[x].(bin := b, binPrevious := Invalid, binNext := head);
      if head != Invalid { nodes[head] := nodes[head].(binPrevious := x); }
      pools := pools[q := pool.(heads := pool.heads[b := x], bits := pool.bits[b := true])];
      hide BinOk, BinsOk, AddressOk;
      InsertBinOk(before, nodes[..], pool, indexes[q], loose, x, b);
      indexes := indexes[q := indexes[q].(bins := indexes[q].bins[b := [x] + indexes[q].bins[b]])];
    }

    /** Joins the bin neighbours of `x`. */
    method UnlinkBin(x: nat)
      requires x < nodes.Length <= Invalid
      requires var b, a := nodes[x].binPrevious, nodes[x].binNext;
        && (b == Invalid || (b < nodes.Length && b != x)) && (a == Invalid || (a < nodes.Length && a != x)) && (a == Invalid || a != b)
      modifies nodes
      ensures BinUnlinked(old(nodes[..]), nodes[..], x)
    {
      var previous, next := nodes[x].binPrevious, nodes[x].binNext;
      if previous != Invalid { nodes[previous] := nodes[previous].(binNext := next); }
      if next != Invalid { nodes[next] := nodes[next].(binPrevious := previous); }
      nodes[x] := nodes[x].(binNext := Invalid, binPrevious := Invalid);
    }

    method RemoveBin(q: nat, x: nat, ghost loose: set<nat>)
      requires q < |pools| == |indexes| && PoolOk(nodes[..], pools[q], indexes[q], loose) && x !in loose && x in indexes[q].order
      modifies this`pools, this`indexes, nodes
      ensures OnlyPool(q, old(pools), old(indexes), pools, indexes)
      ensures indexes[q].order == old(indexes)[q].order && pools[q].head == old(pools)[q].head
      ensures SameAddresses(old(nodes[..]), nodes[..], indexes[q].order)
      ensures PoolOk(nodes[..], pools[q], indexes[q], loose + {x})
    {
      hide At, Distinct, Canonical, Linked, BinFor;
      ghost var before := nodes[..];
      ghost var i :| 0 <= i < |indexes[q].order| && indexes[q].order[i] == x;
      var pool := pools[q];
      var b := nodes[x].bin;
      ghost var list := indexes[q].bins[b];
      ghost var k :| 0 <= k < |list| && list[k] == x;
      NeighboursInside(nodes[..], pool, indexes[q], loose, x, b, k);
      var heads, bits := pool.heads, pool.bits;
      if nodes[x].binPrevious == Invalid { heads := heads[b := nodes[x].binNext]; }
      if heads[b] == Invalid { bits := bits[b := false]; }
      assert heads == pool.heads[b := HeadAfter(before, pool.heads[b], x)];
      UnlinkBin(x);
      assert bits == pool.bits[b := heads[b] != Invalid] by { assert BinOk(before, pool.heads[b], pool.bits[b], b, list); }
      pools := pools[q := pool.(heads := heads, bits := bits)];
      hide BinOk, BinsOk, AddressOk, BinUnlinked;
      RemoveBinOk(before, nodes[..], pool, indexes[q], loose, x, b, k);
      indexes := indexes[q := indexes[q].(bins := indexes[q].bins[b := Drop(list, k)])];
    }

    /** Gives node `x`, which is out of its bin, the extent `e` and puts it back. */
    method Resize(q: nat, x: nat, e: Extent, ghost p: nat)
      requires q < |pools| == |indexes| && PoolOk(nodes[..], pools[q], indexes[q], {x})
      requires p < |indexes[q].order| && indexes[q].order[p] == x && Canonical(FreeList(q)[p := e])
      modifies this`pools, this`indexes, nodes
      ensures OnlyPool(q, old(pools), old(indexes), pools, indexes)
      ensures indexes[q].order == old(indexes)[q].order && PoolOk(nodes[..], pools[q], indexes[q], {})
      ensures FreeList(q) == old(FreeList(q))[p := e]
      ensures forall j :: 0 <= j < nodes.Length && j !in indexes[q].order ==> nodes[j] == old(nodes[j])
    {
      hide At, BinOk, Canonical, Distinct, Linked, Indexed;
      Shrink(q, x, e, p);
      ghost var middle := nodes[..];
      assert x in indexes[q].order;
      InsertBin(q, x, {x});
      assert {x} - {x} == {};
      AddressFrame(middle, nodes[..], pools[q].head, indexes[q].order, indexes[q].order);
    }

    /** Writes node `y` between the neighbours it is given. */
    method WriteLinks(y: nat, e: Extent, previous: nat, next: nat, ghost order: seq<nat>, ghost p: nat)
      requires Known(order, nodes.Length) && Distinct(order) && p <= |order| && y < nodes.Length && y !in order
      requires previous == (if p > 0 then order[p - 1] else Invalid) && next == (if p < |order| then order[p] else Invalid)
      modifies nodes
      ensures LinkedIn(old(nodes[..]), nodes[..], order, p, y, e)
    {
      if 0 < p < |order| { DistinctAt(order, p - 1, p); }
      assert p > 0 ==> order[p - 1] in order;
      assert p < |order| ==> order[p] in order;
      hide Distinct;
      nodes[y] := Blank.(offset := e.offset, bytes := e.bytes, next := next, previous := previous, free := true);
      if previous != Invalid { nodes[previous] := nodes[previous].(next := y); }
      if next != Invalid { nodes[next] := nodes[next].(previous := y); }
    }

    /** Links a fresh node into the address list of a pool. */
    method LinkNew(q: nat, y: nat, e: Extent, previous: nat, next: nat, ghost p: nat, ghost loose: set<nat>)
      requires q < |pools| == |indexes| && PoolOk(nodes[..], pools[q], indexes[q], loose)
      requires p <= |indexes[q].order| && y < nodes.Length && y !in indexes[q].order
      requires previous == (if p > 0 then indexes[q].order[p - 1] else Invalid)
      requires next == (if p < |indexes[q].order| then indexes[q].order[p] else Invalid)
      requires var s := FreeList(q); Canonical(s[..p] + [e] + s[p..])
      modifies this`pools, this`indexes, nodes
      ensures OnlyPool(q, old(pools), old(indexes), pools, indexes)
      ensures indexes[q].order == Insert(old(indexes)[q].order, p, y) && PoolOk(nodes[..], pools[q], indexes[q], loose + {y})
      ensures FreeList(q) == old(FreeList(q))[..p] + [e] + old(FreeList(q))[p..]
      ensures forall j :: 0 <= j < nodes.Length && j !in indexes[q].order ==> nodes[j] == old(nodes[j])
    {
      hide At, BinOk, Canonical, Linked, Indexed, Distinct, BinsOk;
      ghost var before, order := nodes[..], indexes[q].order;
      WriteLinks(y, e, previous, next, order, p);
      PoolInsert(before, nodes[..], pools[q], indexes[q], loose, p, y, e);
      OutsideInsert(before, nodes[..], order, p, y, e);
      hide AddressOk, PoolOk, LinkedIn;
      if previous == Invalid { pools := pools[q := pools[q].(head := y)]; }
      indexes := indexes[q := indexes[q].(order := Insert(order, p, y))];
    }

    /** Joins the address neighbours of `x` and pushes it onto the unused list. */
    method UnlinkNode(x: nat, ghost order: seq<nat>, ghost p: nat)
      requires Known(order, nodes.Length) && Distinct(order) && p < |order| && order[p] == x
      requires nodes[x].previous == (if p > 0 then order[p - 1] else Invalid) && nodes[x].next == (if p + 1 < |order| then order[p + 1] else Invalid)
      modifies nodes
      ensures LinkedOut(old(nodes[..]), nodes[..], order, p)
      ensures nodes[x] == old(nodes[x]).(free := false, next := unusedHead)
    {
      if p > 0 { DistinctAt(order, p, p - 1); }
      if p + 1 < |order| { DistinctAt(order, p, p + 1); }
      if 0 < p && p + 1 < |order| { DistinctAt(order, p - 1, p + 1); }
      hide Distinct;
      var previous, next := nodes[x].previous, nodes[x].next;
      if previous != Invalid { nodes[previous] := nodes[previous].(next := next); }
      if next != Invalid { nodes[next] := nodes[next].(previous := previous); }
      nodes[x] := nodes[x].(free := false, next := unusedHead);
    }

    /** Takes node `x`, which is out of its bin, off the address list and makes it unused. */
    method Retire(q: nat, x: nat, ghost p: nat, ghost loose: set<nat>)
      requires q < |pools| == |indexes| && PoolOk(nodes[..], pools[q], indexes[q], loose) && x in loose
      requires p < |indexes[q].order| && indexes[q].order[p] == x
      requires UnusedOk(nodes[..], unusedHead, unused) && (forall j :: j in indexes[q].order ==> j !in unused)
      modifies this`pools, this`indexes, this`unusedHead, this`unused, nodes
      ensures OnlyPool(q, old(pools), old(indexes), pools, indexes)
      ensures indexes[q].order == Drop(old(indexes)[q].order, p) && PoolOk(nodes[..], pools[q], indexes[q], loose - {x})
      ensures FreeList(q) == old(FreeList(q))[..p] + old(FreeList(q))[p + 1..]
      ensures unused == [x] + old(unused) && UnusedOk(nodes[..], unusedHead, unused)
      ensures forall j :: 0 <= j < nodes.Length && j !in old(indexes)[q].order ==> nodes[j] == old(nodes[j])
    {
      hide At, BinOk, Canonical, Linked, Indexed, Distinct, BinsOk;
      ghost var before, order := nodes[..], indexes[q].order;
      Neighbours(before, pools[q].head, order, p);
      Second(order);
      assert order[p] in order;
      var previous, next := nodes[x].previous, nodes[x].next;
      UnlinkNode(x, order, p);
      PoolRemove(before, nodes[..], pools[q], indexes[q], loose, p);
      OutsideRemove(before, nodes[..], order, p);
      UnusedPush(before, nodes[..], unusedHead, unused, x) by {
        forall j | j in unused && j < |before| ensures nodes[..][j] == before[j] { assert j !in order; }
      }
      hide AddressOk, PoolOk, LinkedOut, UnusedOk;
      unusedHead, unused := x, [x] + unused;
      if previous == Invalid { pools := pools[q := pools[q].(head := next)]; }
      indexes := indexes[q := indexes[q].(order := Drop(order, p))];
    }

    method Reserve() returns (ok: bool, y: nat)
      requires UnusedOk(nodes[..], unusedHead, unused)
      modifies this`unusedHead, this`unused, nodes
      ensures ok <==> old(unused) != []
      ensures !ok ==> unused == old(unused) && unusedHead == old(unusedHead) && nodes[..] == old(nodes[..])
      ensures ok ==> y < nodes.Length && old(unused) == [y] + unused && UnusedOk(nodes[..], unusedHead, unused) && y !in unused
      ensures forall j :: 0 <= j < nodes.Length && j !in old(unused) ==> nodes[j] == old(nodes[j])
    {
      hide At;
      ghost var before := nodes[..];
      y := unusedHead;
      ok := y != Invalid;
      if ok {
        unusedHead := nodes[y].next;
        nodes[y] := Blank;
        assert unused[0] in unused;
        UnusedPop(before, nodes[..], y, unused);
        FirstOnce(unused);
        unused := unused[1..];
      }
    }

    /** Walks one bin list in order. */
    method ScanBin(q: nat, b: nat, bytes: nat, alignment: nat) returns (found: bool, x: nat, at: nat)
      requires q < |pools| == |indexes| && PoolOk(nodes[..], pools[q], indexes[q], {}) && b < BinCount
      requires PowerOfTwo(alignment) && alignment <= MaxU64
      requires Bounded(FreeList(q))
      ensures found ==> x < nodes.Length && x in indexes[q].order
      ensures found ==> Fits(ExtentOf(nodes[x]), bytes, alignment) && at == LeastMultiple(nodes[x].offset, alignment)
      ensures !found ==> NoneFits(nodes[..], indexes[q].bins, b, b + 1, bytes, alignment)
    {
      hide At, Distinct, Canonical, Linked, PowerOfTwo, LeastMultiple, Fits;
      ghost var all, ix := nodes[..], indexes[q];
      ghost var list := ix.bins[b];
      assert BinOk(all, pools[q].heads[b], pools[q].bits[b], b, list);
      var n := pools[q].heads[b];
      ghost var i := 0;
      assert forall y :: y in list ==> y in ix.order;
      assert Bounded(ExtentsOf(all, ix.order));
      hide BinsOk, Bounded;
      while n != Invalid
        invariant i <= |list| && n == (if i < |list| then list[i] else Invalid)
        invariant forall j :: 0 <= j < i ==> !Fits(ExtentOf(all[list[j]]), bytes, alignment)
        decreases |list| - i
      {
        assert n in list;
        assert n in ix.order;
        EndOf(all, ix.order, n);
        found, at := TryFit(ExtentOf(nodes[n]), bytes, alignment);
        if found { return true, n, at; }
        BinNeighbours(all, pools[q].heads[b], list, i);
        n := nodes[n].binNext;
        i := i + 1;
      }
      return false, 0, 0;
    }

    /** First fit from the request's bin upwards; it fails only when no free extent fits. */
    method FindFit(q: nat, bytes: nat, alignment: nat) returns (found: bool, x: nat, at: nat)
      requires q < |pools| == |indexes| && PoolOk(nodes[..], pools[q], indexes[q], {})
      requires PowerOfTwo(alignment) && alignment <= MaxU64
      requires Bounded(FreeList(q))
      ensures found ==> x < nodes.Length && x in indexes[q].order
      ensures found ==> Fits(ExtentOf(nodes[x]), bytes, alignment) && at == LeastMultiple(nodes[x].offset, alignment)
      ensures !found ==> forall i :: 0 <= i < |FreeList(q)| ==> !Fits(FreeList(q)[i], bytes, alignment)
    {
      hide At, Distinct, Canonical, Linked, PowerOfTwo, LeastMultiple, Fits;
      var start := BinFor(bytes);
      for b := start to BinCount
        invariant NoneFits(nodes[..], indexes[q].bins, start, b, bytes, alignment)
      {
        assert BinOk(nodes[..], pools[q].heads[b], pools[q].bits[b], b, indexes[q].bins[b]);
        if pools[q].bits[b] {
          found, x, at := ScanBin(q, b, bytes, alignment);
          if found { return; }
        }
      }
      NoneAtAll(nodes[..], pools[q], indexes[q], start, bytes, alignment);
      return false, 0, 0;
    }

    /** Shrinks node `x` to the part before `at` and gives the part after the request to node `y`. */
    method SplitNode(q: nat, x: nat, y: nat, at: nat, bytes: nat, ghost p: nat)
      requires q < |pools| == |indexes| && PoolOk(nodes[..], pools[q], indexes[q], {x})
      requires p < |indexes[q].order| && indexes[q].order[p] == x && y < nodes.Length && y !in indexes[q].order
      requires bytes > 0 && nodes[x].offset < at && at + bytes < End(ExtentOf(nodes[x]))
      modifies this`pools, this`indexes, nodes
      ensures OnlyPool(q, old(pools), old(indexes), pools, indexes)
      ensures indexes[q].order == Insert(old(indexes)[q].order, p + 1, y) && PoolOk(nodes[..], pools[q], indexes[q], {})
      ensures FreeList(q) == Carve(old(FreeList(q)), p, at, bytes)
      ensures forall j :: 0 <= j < nodes.Length && j !in indexes[q].order ==> nodes[j] == old(nodes[j])
    {
      hide At, BinOk, Canonical, Distinct, Indexed, Carve, BinsOk, Insert, BinFor;
      ghost var before, order, s := nodes[..], indexes[q].order, FreeList(q);
      var node := nodes[x];
      var end := node.offset + node.bytes;
      Neighbours(before, pools[q].head, order, p);
      hide Linked, BinsOk;
      var suffix := Extent(at + bytes, end - (at + bytes));
      CarveSplit(s, p, at, bytes);
      Shrink(q, x, Extent(node.offset, at - node.offset), p);
      ghost var shrunk := nodes[..];
      assert order[p] in order;
      LinkNew(q, y, suffix, x, node.next, p + 1, {x});
      SplitIndexed(before, shrunk, nodes[..], order, p, x, y);
      hide PoolOk;
      assert {x} + {y} == {x, y} && x != y;
      IndexSplit(q, x, y);
    }

    /** Gives a node that is out of its bin a new extent. */
    method Shrink(q: nat, x: nat, e: Extent, ghost p: nat)
      requires q < |pools| == |indexes| && PoolOk(nodes[..], pools[q], indexes[q], {x})
      requires p < |indexes[q].order| && indexes[q].order[p] == x && Canonical(FreeList(q)[p := e])
      modifies nodes
      ensures PoolOk(nodes[..], pools[q], indexes[q], {x}) && FreeList(q) == old(FreeList(q))[p := e]
      ensures forall j :: 0 <= j < nodes.Length && j != x ==> nodes[j] == old(nodes[j])
      ensures nodes[..] == old(nodes[..])[x := old(nodes[x]).(offset := e.offset, bytes := e.bytes)]
    {
      hide At, BinOk, Canonical, Distinct, Linked, Indexed;
      ghost var before := nodes[..];
      nodes[x] := nodes[x].(offset := e.offset, bytes := e.bytes);
      PoolResize(before, nodes[..], pools[q], indexes[q], {x}, p, e);
    }

    /** Puts both halves of a split into their bins. */
    method IndexSplit(q: nat, x: nat, y: nat)
      requires q < |pools| == |indexes| && PoolOk(nodes[..], pools[q], indexes[q], {x, y}) && x != y
      requires x in indexes[q].order && y in indexes[q].order
      modifies this`pools, this`indexes, nodes
      ensures OnlyPool(q, old(pools), old(indexes), pools, indexes)
      ensures indexes[q].order == old(indexes)[q].order && PoolOk(nodes[..], pools[q], indexes[q], {})
      ensures FreeList(q) == old(FreeList(q))
      ensures forall j :: 0 <= j < nodes.Length && j !in indexes[q].order ==> nodes[j] == old(nodes[j])
    {
      hide At, BinOk, Canonical, Distinct, Indexed, BinsOk, Linked;
      ghost var before := nodes[..];
      InsertBin(q, x, {x, y});
      assert {x, y} - {x} == {y};
      ghost var middle := nodes[..];
      AddressFrame(before, middle, pools[q].head, indexes[q].order, indexes[q].order);
      InsertBin(q, y, {y});
      assert {y} - {y} == {};
      AddressFrame(middle, nodes[..], pools[q].head, indexes[q].order, indexes[q].order);
    }

    /** The split needs a node; without one the extent goes back into its bin unchanged. */
    method TakeMiddle(q: nat, x: nat, at: nat, bytes: nat, ghost p: nat) returns (ok: bool)
      requires q < |pools| == |indexes| && PoolOk(nodes[..], pools[q], indexes[q], {x})
      requires p < |indexes[q].order| && indexes[q].order[p] == x
      requires UnusedOk(nodes[..], unusedHead, unused) && Separate(indexes[q].order, unused)
      requires bytes > 0 && nodes[x].offset < at && at + bytes < End(ExtentOf(nodes[x]))
      modifies this, nodes
      ensures OnlyPool(q, old(pools), old(indexes), pools, indexes)
      ensures PoolOk(nodes[..], pools[q], indexes[q], {}) && UnusedOk(nodes[..], unusedHead, unused)
      ensures Shift(old(indexes)[q].order, old(unused), indexes[q].order, unused)
      ensures (ok <==> old(unused) != []) && (!ok ==> unused == old(unused)) && |old(unused)| <= |unused| + 1
      ensures FreeList(q) == if ok then Carve(old(FreeList(q)), p, at, bytes) else old(FreeList(q))
      ensures forall j :: 0 <= j < nodes.Length && j !in old(indexes)[q].order && j !in old(unused) ==> nodes[j] == old(nodes[j])
    {
      hide At, BinOk, Canonical, Indexed, BinsOk, Linked, Carve;
      ghost var before, order, all := nodes[..], indexes[q].order, unused;
      assert order[p] in order;
      var y;
      ok, y := Reserve();
      ghost var reserved := nodes[..];
      PoolFrame(before, reserved, pools[q], indexes[q], {x});
      if ok {
        assert y in all;
        InsertDistinct(order, p + 1, y);
        hide Insert, Distinct;
        SplitNode(q, x, y, at, bytes, p);
        UnusedFrame(reserved, nodes[..], unusedHead, unused);
      } else {
        hide Distinct;
        InsertBin(q, x, {x});
        assert {x} - {x} == {};
        AddressFrame(reserved, nodes[..], pools[q].head, order, order);
        UnusedFrame(reserved, nodes[..], unusedHead, unused);
      }
    }

    /** Takes `[at, at + bytes)` out of the extent of node `x`, which is out of its bin. */
    method Take(q: nat, x: nat, at: nat, bytes: nat, ghost p: nat) returns (ok: bool)
      requires q < |pools| == |indexes| && PoolOk(nodes[..], pools[q], indexes[q], {x})
      requires p < |indexes[q].order| && indexes[q].order[p] == x
      requires UnusedOk(nodes[..], unusedHead, unused) && Separate(indexes[q].order, unused)
      requires bytes > 0 && nodes[x].offset <= at && at + bytes <= End(ExtentOf(nodes[x]))
      modifies this, nodes
      ensures OnlyPool(q, old(pools), old(indexes), pools, indexes)
      ensures PoolOk(nodes[..], pools[q], indexes[q], {}) && UnusedOk(nodes[..], unusedHead, unused)
      ensures Shift(old(indexes)[q].order, old(unused), indexes[q].order, unused)
      ensures ok ==> |FreeList(q)| < old(|FreeList(q)|) ==> unused != []
      ensures !ok ==> unused == old(unused) == [] && old(nodes[x].offset) < at && at + bytes < old(End(ExtentOf(nodes[x])))
      ensures |old(unused)| <= |unused| + 1
      ensures FreeList(q) == if ok then Carve(old(FreeList(q)), p, at, bytes) else old(FreeList(q))
      ensures forall j :: 0 <= j < nodes.Length && j !in old(indexes)[q].order && j !in old(unused) ==> nodes[j] == old(nodes[j])
    {
      hide At, BinOk, Indexed, BinsOk, Linked;
      ghost var before, order, s := nodes[..], indexes[q].order, FreeList(q);
      assert order[p] in order;
      CarveCanonical(s, p, at, bytes);
      hide Canonical;
      var node := nodes[x];
      var end := node.offset + node.bytes;
      if node.offset < at && at + bytes < end {
        ok := TakeMiddle(q, x, at, bytes, p);
        return;
      }
      if node.offset < at {
        assert Carve(s, p, at, bytes) == s[p := Extent(node.offset, at - node.offset)];
        Resize(q, x, Extent(node.offset, at - node.offset), p);
        UnusedFrame(before, nodes[..], unusedHead, unused);
      } else if at + bytes < end {
        assert Carve(s, p, at, bytes) == s[p := Extent(at + bytes, end - (at + bytes))];
        Resize(q, x, Extent(at + bytes, end - (at + bytes)), p);
        UnusedFrame(before, nodes[..], unusedHead, unused);
      } else {
        assert Carve(s, p, at, bytes) == s[..p] + s[p + 1..];
        DropDistinct(order, p);
        Retire(q, x, p, {x});
        assert {x} - {x} == {};
      }
      ok := true;
    }

    /**
     Takes an aligned extent out of pool `q`. The pool is reported exhausted exactly when no
     free extent can hold the aligned request.
     */
    method AllocateExtent(q: nat, bytes: nat, alignment: nat) returns (r: Outcome)
      requires Valid() && q < 2 && Bounded(Free(q)) && bytes > 0 && PowerOfTwo(alignment) && alignment <= MaxU64
      modifies this, nodes
      ensures Valid() && Free(1 - q) == old(Free(1 - q))
      ensures r == Exhausted <==> forall i :: 0 <= i < |old(Free(q))| ==> !Fits(old(Free(q))[i], bytes, alignment)
      ensures r == NoMetadata ==> old(unused) == [] && exists p :: Splits(old(Free(q)), p, bytes, alignment)
      ensures |old(unused)| <= |unused| + 1
      ensures !r.Allocated? ==> Free(q) == old(Free(q)) && unused == old(unused)
      ensures r.Allocated? ==> exists p :: Carved(old(Free(q)), p, r.offset, bytes, alignment, Free(q))
      ensures r.Allocated? && |Free(q)| < old(|Free(q)|) ==> unused != []
    {
      hide At, BinOk, Canonical, Indexed, BinsOk, Linked, Distinct, PowerOfTwo, LeastMultiple, Carve;
      ghost var before, pools0, indexes0, head0, unused0 := nodes[..], pools, indexes, unusedHead, unused;
      ghost var order := indexes[q].order;
      var found, x, at := FindFit(q, bytes, alignment);
      if !found { return Exhausted; }
      ghost var p := Position(before, order, x);
      hide StoreOk;
      assert Fits(Free(q)[p], bytes, alignment);
      LeastMultipleIs(nodes[x].offset, alignment);
      var ok := TakeFit(q, x, at, bytes, p);
      StoreKeeps(before, pools0, indexes0, head0, unused0, nodes[..], pools, indexes, unusedHead, unused, q);
      if !ok {
        assert Splits(old(Free(q)), p, bytes, alignment);
        return NoMetadata;
      }
      assert Carved(old(Free(q)), p, at, bytes, alignment, Free(q));
      return Allocated(at);
    }

    /** Takes the found extent out of its bin and carves the request from it. */
    method TakeFit(q: nat, x: nat, at: nat, bytes: nat, ghost p: nat) returns (ok: bool)
      requires q < |pools| == |indexes| && PoolOk(nodes[..], pools[q], indexes[q], {})
      requires p < |indexes[q].order| && indexes[q].order[p] == x
      requires UnusedOk(nodes[..], unusedHead, unused) && Separate(indexes[q].order, unused)
      requires bytes > 0 && nodes[x].offset <= at && at + bytes <= End(ExtentOf(nodes[x]))
      modifies this, nodes
      ensures OnlyPool(q, old(pools), old(indexes), pools, indexes)
      ensures PoolOk(nodes[..], pools[q], indexes[q], {}) && UnusedOk(nodes[..], unusedHead, unused)
      ensures Shift(old(indexes)[q].order, old(unused), indexes[q].order, unused)
      ensures ok ==> |FreeList(q)| < old(|FreeList(q)|) ==> unused != []
      ensures !ok ==> unused == old(unused) == [] && old(nodes[x].offset) < at && at + bytes < old(End(ExtentOf(nodes[x])))
      ensures |old(unused)| <= |unused| + 1
      ensures FreeList(q) == if ok then Carve(old(FreeList(q)), p, at, bytes) else old(FreeList(q))
      ensures forall j :: 0 <= j < nodes.Length && j !in old(indexes)[q].order && j !in old(unused) ==> nodes[j] == old(nodes[j])
    {
      hide At, BinOk, Canonical, Indexed, BinsOk, Linked, Distinct, Carve;
      ghost var before, order := nodes[..], indexes[q].order;
      assert order[p] in order;
      RemoveBin(q, x, {});
      assert {} + {x} == {x};
      AddressFrame(before, nodes[..], pools[q].head, order, order);
      UnusedFrame(before, nodes[..], unusedHead, unused);
      ok := Take(q, x, at, bytes, p);
    }

    /** Counts the nodes marked unused. */
    method CountNodes() returns (n: nat)
      requires Valid()
      ensures n == |unused|
    {
      hide StoreOk;
      n := 0;
      for i := 0 to nodes.Length
        invariant n == CountUnused(nodes[..], i)
      {
        if !nodes[i].free { n := n + 1; }
      }
      UnusedCounted(nodes[..], pools, indexes, unusedHead, unused);
    }

    /** Finds where an extent belongs in the address list. */
    method Walk(q: nat, offset: nat) returns (previous: nat, next: nat, ghost p: nat)
      requires q < |pools| == |indexes| && PoolOk(nodes[..], pools[q], indexes[q], {})
      ensures Place(FreeList(q), offset, p)
      ensures previous == (if p > 0 then indexes[q].order[p - 1] else Invalid)
      ensures next == (if p < |indexes[q].order| then indexes[q].order[p] else Invalid)
    {
      hide At, BinsOk, Indexed, Distinct;
      ghost var order := indexes[q].order;
      previous, next, p := Invalid, pools[q].head, 0;
      while next != Invalid && nodes[next].offset < offset
        invariant p <= |order|
        invariant previous == (if p > 0 then order[p - 1] else Invalid) && next == (if p < |order| then order[p] else Invalid)
        invariant forall i :: 0 <= i < p ==> FreeList(q)[i].offset < offset
        decreases |order| - p
      {
        Neighbours(nodes[..], pools[q].head, order, p);
        previous, next, p := next, nodes[next].next, p + 1;
      }
    }

    /** Changes the extent of one node, moving it to the bin of its new size. */
    method Grow(q: nat, x: nat, e: Extent, ghost p: nat)
      requires q < |pools| == |indexes| && PoolOk(nodes[..], pools[q], indexes[q], {})
      requires UnusedOk(nodes[..], unusedHead, unused) && Separate(indexes[q].order, unused)
      requires p < |indexes[q].order| && indexes[q].order[p] == x && Canonical(FreeList(q)[p := e])
      modifies this, nodes
      ensures OnlyPool(q, old(pools), old(indexes), pools, indexes)
      ensures PoolOk(nodes[..], pools[q], indexes[q], {}) && UnusedOk(nodes[..], unusedHead, unused)
      ensures Shift(old(indexes)[q].order, old(unused), indexes[q].order, unused)
      ensures forall j :: 0 <= j < nodes.Length && j !in old(indexes)[q].order && j !in old(unused) ==> nodes[j] == old(nodes[j])
      ensures FreeList(q) == old(FreeList(q))[p := e] && unused == old(unused)
    {
      hide At, BinOk, Canonical, Indexed, BinsOk, Linked, Distinct;
      ghost var before, order := nodes[..], indexes[q].order;
      assert order[p] in order;
      RemoveBin(q, x, {});
      assert {} + {x} == {x};
      AddressFrame(before, nodes[..], pools[q].head, order, order);
      Resize(q, x, e, p);
      UnusedFrame(before, nodes[..], unusedHead, unused);
    }

    method RemoveTwo(q: nat, x: nat, y: nat)
      requires q < |pools| == |indexes| && PoolOk(nodes[..], pools[q], indexes[q], {}) && x != y
      requires x in indexes[q].order && y in indexes[q].order
      modifies this`pools, this`indexes, nodes
      ensures OnlyPool(q, old(pools), old(indexes), pools, indexes)
      ensures indexes[q].order == old(indexes)[q].order && PoolOk(nodes[..], pools[q], indexes[q], {x, y})
      ensures FreeList(q) == old(FreeList(q))
      ensures forall j :: 0 <= j < nodes.Length && j !in indexes[q].order ==> nodes[j] == old(nodes[j])
    {
      hide At, BinOk, Canonical, Distinct, Indexed, BinsOk, Linked;
      ghost var before, order := nodes[..], indexes[q].order;
      RemoveBin(q, x, {});
      assert {} + {x} == {x};
      ghost var first := nodes[..];
      AddressFrame(before, first, pools[q].head, order, order);
      RemoveBin(q, y, {x});
      assert {x} + {y} == {x, y};
      AddressFrame(first, nodes[..], pools[q].head, order, order);
    }

    /** Links a fresh node and puts it into its bin. */
    method LinkFresh(q: nat, y: nat, e: Extent, previous: nat, next: nat, ghost p: nat)
      requires q < |pools| == |indexes| && PoolOk(nodes[..], pools[q], indexes[q], {})
      requires p <= |indexes[q].order| && y < nodes.Length && y !in indexes[q].order
      requires previous == (if p > 0 then indexes[q].order[p - 1] else Invalid)
      requires next == (if p < |indexes[q].order| then indexes[q].order[p] else Invalid)
      requires var s := FreeList(q); Canonical(s[..p] + [e] + s[p..])
      modifies this`pools, this`indexes, nodes
      ensures OnlyPool(q, old(pools), old(indexes), pools, indexes)
      ensures indexes[q].order == Insert(old(indexes)[q].order, p, y) && PoolOk(nodes[..], pools[q], indexes[q], {})
      ensures FreeList(q) == old(FreeList(q))[..p] + [e] + old(FreeList(q))[p..]
      ensures forall j :: 0 <= j < nodes.Length && j !in indexes[q].order ==> nodes[j] == old(nodes[j])
    {
      hide At, BinOk, Canonical, Indexed, BinsOk, Linked, Distinct;
      LinkNew(q, y, e, previous, next, p, {});
      assert {} + {y} == {y};
      ghost var linked := nodes[..];
      InsertAt(old(indexes)[q].order, p, y, p);
      assert y in indexes[q].order;
      hide Insert;
      InsertBin(q, y, {y});
      assert {y} - {y} == {};
      AddressFrame(linked, nodes[..], pools[q].head, indexes[q].order, indexes[q].order);
    }

    /** Replaces two neighbouring nodes by the first one, which takes the extent `e`. */
    method MergeBoth(q: nat, x: nat, y: nat, e: Extent, ghost p: nat)
      requires q < |pools| == |indexes| && PoolOk(nodes[..], pools[q], indexes[q], {})
      requires UnusedOk(nodes[..], unusedHead, unused) && Separate(indexes[q].order, unused)
      requires 0 < p < |indexes[q].order| && indexes[q].order[p - 1] == x && indexes[q].order[p] == y
      requires var s := FreeList(q); Canonical(s[..p - 1] + [e] + s[p + 1..])
      modifies this, nodes
      ensures OnlyPool(q, old(pools), old(indexes), pools, indexes)
      ensures PoolOk(nodes[..], pools[q], indexes[q], {}) && UnusedOk(nodes[..], unusedHead, unused)
      ensures Shift(old(indexes)[q].order, old(unused), indexes[q].order, unused)
      ensures forall j :: 0 <= j < nodes.Length && j !in old(indexes)[q].order && j !in old(unused) ==> nodes[j] == old(nodes[j])
      ensures FreeList(q) == old(FreeList(q))[..p - 1] + [e] + old(FreeList(q))[p + 1..] && unused == [y] + old(unused)
    {
      hide At, BinOk, Canonical, Indexed, BinsOk, Linked, BinLinked, UnusedLinked, BinFor, Distinct, Drop;
      ghost var before, order, s := nodes[..], indexes[q].order, FreeList(q);
      DistinctAt(order, p - 1, p);
      DropDistinct(order, p);
      DropAt(order, p, p - 1);
      Spliced(s, p, e);
      assert order[p] in order && order[p - 1] in order;
      RemoveTwo(q, x, y);
      UnusedFrame(before, nodes[..], unusedHead, unused);
      Retire(q, y, p, {x, y});
      assert {x, y} - {y} == {x};
      ghost var merged := nodes[..];
      Resize(q, x, e, p - 1);
      UnusedFrame(merged, nodes[..], unusedHead, unused) by {
        forall j | j in unused && j < |merged| ensures nodes[..][j] == merged[j] { assert j !in indexes[q].order; }
      }
    }

    /** Adds an extent that touches no free one, on a fresh node. */
    method AddFresh(q: nat, previous: nat, next: nat, e: Extent, ghost p: nat) returns (ok: bool)
      requires q < |pools| == |indexes| && PoolOk(nodes[..], pools[q], indexes[q], {})
      requires UnusedOk(nodes[..], unusedHead, unused) && Separate(indexes[q].order, unused)
      requires p <= |indexes[q].order|
      requires previous == (if p > 0 then indexes[q].order[p - 1] else Invalid)
      requires next == (if p < |indexes[q].order| then indexes[q].order[p] else Invalid)
      requires var s := FreeList(q); Canonical(s[..p] + [e] + s[p..])
      modifies this, nodes
      ensures OnlyPool(q, old(pools), old(indexes), pools, indexes)
      ensures PoolOk(nodes[..], pools[q], indexes[q], {}) && UnusedOk(nodes[..], unusedHead, unused)
      ensures Shift(old(indexes)[q].order, old(unused), indexes[q].order, unused)
      ensures forall j :: 0 <= j < nodes.Length && j !in old(indexes)[q].order && j !in old(unused) ==> nodes[j] == old(nodes[j])
      ensures ok <==> old(unused) != []
      ensures FreeList(q) == if ok then old(FreeList(q))[..p] + [e] + old(FreeList(q))[p..] else old(FreeList(q))
      ensures |old(unused)| <= |unused| + 1
    {
      hide At, BinOk, Canonical, Indexed, BinsOk, Linked, BinLinked, UnusedLinked, BinFor, Insert, Distinct;
      ghost var before, order, all := nodes[..], indexes[q].order, unused;
      var y;
      ok, y := Reserve();
      ghost var reserved := nodes[..];
      PoolFrame(before, reserved, pools[q], indexes[q], {});
      if ok {
        assert y in all;
        InsertDistinct(order, p, y);
        hide AddressOk;
        LinkFresh(q, y, e, previous, next, p);
        UnusedFrame(reserved, nodes[..], unusedHead, unused);
      }
    }

    /** The four ways a returned extent joins its neighbours. */
    method Join(q: nat, previous: nat, next: nat, e: Extent, ghost p: nat) returns (ok: bool)
      requires q < |pools| == |indexes| && PoolOk(nodes[..], pools[q], indexes[q], {})
      requires UnusedOk(nodes[..], unusedHead, unused) && Separate(indexes[q].order, unused)
      requires e.bytes > 0 && Place(FreeList(q), e.offset, p) && !Clash(FreeList(q), p, e)
      requires Between(indexes[q].order, p, previous, next)
      modifies this, nodes
      ensures OnlyPool(q, old(pools), old(indexes), pools, indexes)
      ensures PoolOk(nodes[..], pools[q], indexes[q], {}) && UnusedOk(nodes[..], unusedHead, unused)
      ensures Shift(old(indexes)[q].order, old(unused), indexes[q].order, unused)
      ensures forall j :: 0 <= j < nodes.Length && j !in old(indexes)[q].order && j !in old(unused) ==> nodes[j] == old(nodes[j])
      ensures !ok <==> old(unused) == [] && !JoinsLeft(old(FreeList(q)), p, e) && !JoinsRight(old(FreeList(q)), p, e)
      ensures FreeList(q) == if ok then Give(old(FreeList(q)), p, e) else old(FreeList(q))
      ensures |old(unused)| <= |unused| + 1
    {
      hide At, BinOk, Indexed, BinsOk, Linked, Distinct;
      ghost var s := FreeList(q);
      GiveCanonical(s, p, e);
      hide Canonical, Place, Clash;
      ok := true;
      if previous != Invalid && nodes[previous].offset + nodes[previous].bytes == e.offset {
        if next != Invalid && e.offset + e.bytes == nodes[next].offset {
          var joined := Extent(nodes[previous].offset, nodes[previous].bytes + e.bytes + nodes[next].bytes);
          assert Give(s, p, e) == s[..p - 1] + [joined] + s[p + 1..];
          MergeBoth(q, previous, next, joined, p);
        } else {
          var joined := Extent(nodes[previous].offset, nodes[previous].bytes + e.bytes);
          assert Give(s, p, e) == s[p - 1 := joined];
          Grow(q, previous, joined, p - 1);
        }
      } else if next != Invalid && e.offset + e.bytes == nodes[next].offset {
        var joined := Extent(e.offset, nodes[next].bytes + e.bytes);
        assert Give(s, p, e) == s[p := joined];
        Grow(q, next, joined, p);
      } else {
        assert Give(s, p, e) == s[..p] + [e] + s[p..];
        ok := AddFresh(q, previous, next, e, p);
      }
    }

    /** Returns an extent to pool `q`; it is refused exactly when it is empty, overlaps free bytes, or needs a node and none is left. */
    method FreeExtent(q: nat, offset: nat, bytes: nat) returns (r: Reclaim)
      requires Valid() && q < 2
      modifies this, nodes
      ensures Valid() && Free(1 - q) == old(Free(1 - q))
      ensures r == Empty <==> bytes == 0
      ensures r == Overlaps <==> bytes > 0 && exists x :: Contains(Extent(offset, bytes), x) && Covers(old(Free(q)), x)
      ensures r == Freed ==> exists p :: Given(old(Free(q)), p, Extent(offset, bytes), Free(q))
      ensures r == NoNode ==> old(unused) == [] && exists p :: Lone(old(Free(q)), p, Extent(offset, bytes))
      ensures r != Freed ==> Free(q) == old(Free(q))
      ensures |old(unused)| <= |unused| + 1
    {
      hide At, BinOk, Indexed, BinsOk, Linked, Distinct;
      if bytes == 0 { return Empty; }
      ghost var s := Free(q);
      var e := Extent(offset, bytes);
      var clash, previous, next;
      ghost var p;
      clash, previous, next, p := Locate(q, e);
      if clash { return Overlaps; }
      hide Canonical, Place, Covers, StoreOk;
      var ok := JoinStore(q, previous, next, e, p);
      if !ok {
        assert Lone(s, p, e);
        return NoNode;
      }
      assert Given(s, p, e, Free(q));
      return Freed;
    }

    /** The place of an extent, and whether it overlaps free bytes there. */
    method Locate(q: nat, e: Extent) returns (clash: bool, previous: nat, next: nat, ghost p: nat)
      requires Valid() && q < 2 && e.bytes > 0
      ensures p <= |Free(q)| && Place(Free(q), e.offset, p) && (clash <==> Clash(Free(q), p, e))
      ensures clash <==> exists x :: Contains(e, x) && Covers(Free(q), x)
      ensures Between(OrderOf(q), p, previous, next)
    {
      hide At, BinOk, Indexed, BinsOk, Linked, Distinct;
      previous, next, p := Walk(q, e.offset);
      ClashIff(Free(q), p, e);
      hide Canonical, Covers, Place;
      clash := (previous != Invalid && nodes[previous].offset + nodes[previous].bytes > e.offset) ||
               (next != Invalid && e.offset + e.bytes > nodes[next].offset);
    }

    method JoinStore(q: nat, previous: nat, next: nat, e: Extent, ghost p: nat) returns (ok: bool)
      requires Valid() && q < 2 && e.bytes > 0 && p <= |Free(q)| && Place(Free(q), e.offset, p) && !Clash(Free(q), p, e)
      requires Between(OrderOf(q), p, previous, next)
      modifies this, nodes
      ensures Valid() && Free(1 - q) == old(Free(1 - q))
      ensures !ok <==> old(unused) == [] && !JoinsLeft(old(Free(q)), p, e) && !JoinsRight(old(Free(q)), p, e)
      ensures Free(q) == if ok then Give(old(Free(q)), p, e) else old(Free(q))
      ensures |old(unused)| <= |unused| + 1
    {
      hide StoreOk, Canonical, Place, Clash, Give, JoinsLeft, JoinsRight, At, ExtentsOf, Known, Between;
      ok := JoinParts(q, previous, next, e, p);
    }

    /** The same with both lists spelled out. */
    method JoinParts(q: nat, previous: nat, next: nat, e: Extent, ghost p: nat) returns (ok: bool)
      requires Shaped() && q < 2
      requires e.bytes > 0 && p <= |FreeList(q)| && Place(FreeList(q), e.offset, p) && !Clash(FreeList(q), p, e)
      requires Between(indexes[q].order, p, previous, next)
      requires StoreOk(nodes[..], pools, indexes, unusedHead, unused)
      modifies this, nodes
      ensures Shaped()
      ensures FreeList(1 - q) == old(FreeList(1 - q))
      ensures !ok <==> old(unused) == [] && !JoinsLeft(old(FreeList(q)), p, e) && !JoinsRight(old(FreeList(q)), p, e)
      ensures FreeList(q) == if ok then Give(old(FreeList(q)), p, e) else old(FreeList(q))
      ensures |old(unused)| <= |unused| + 1
      ensures StoreOk(nodes[..], pools, indexes, unusedHead, unused)
    {
      hide StoreOk, PoolOk, UnusedOk, Canonical, Place, Clash, Give, JoinsLeft, JoinsRight, At, Shift, ExtentsOf, Known, Separate, OnlyPool, Between;
      ghost var before, pools0, indexes0, head0, unused0 := nodes[..], pools, indexes, unusedHead, unused;
      StoreParts(before, pools, indexes, unusedHead, unused, q);
      ok := Join(q, previous, next, e, p);
      StoreKeeps(before, pools0, indexes0, head0, unused0, nodes[..], pools, indexes, unusedHead, unused, q);
    }
  }

  /** The list entries on either side of position `p`. */
  ghost predicate Between(order: seq<nat>, p: nat, previous: nat, next: nat) {
    && p <= |order|
    && previous == (if p > 0 then order[p - 1] else Invalid)
    && next == (if p < |order| then order[p] else Invalid)
  }

  function FirstNode(e: Extent): Node {
    Blank.(offset := e.offset, bytes := e.bytes, bin := BinFor(e.bytes), free := true)
  }

  function FirstPool(x: nat, e: Extent): Pool {
    Pool(x, seq(BinCount, b => if b == BinFor(e.bytes) then x else Invalid), seq(BinCount, b => b == BinFor(e.bytes)))
  }

  ghost function FirstIndex(x: nat, e: Extent): Index {
    Index([x], seq(BinCount, b => if b == BinFor(e.bytes) then [x] else []))
  }

  lemma FirstPoolOk(nodes: seq<Node>, x: nat, e: Extent)
    requires x < |nodes| <= Invalid && nodes[x] == FirstNode(e) && e.bytes > 0
    ensures PoolOk(nodes, FirstPool(x, e), FirstIndex(x, e), {}) && ExtentsOf(nodes, [x]) == [e]
  {
    var pool, ix := FirstPool(x, e), FirstIndex(x, e);
    assert ExtentsOf(nodes, [x]) == [e];
    forall b | 0 <= b < BinCount ensures BinOk(nodes, pool.heads[b], pool.bits[b], b, ix.bins[b]) { }
  }

  lemma FirstStoreOk(nodes: seq<Node>, data: Extent, coherence: Extent, unused: seq<nat>)
    requires 2 <= |nodes| <= Invalid && unused == seq(|nodes| - 2, i => i + 2) && data.bytes > 0 && coherence.bytes > 0
    requires nodes[0] == FirstNode(data) && nodes[1] == FirstNode(coherence)
    requires forall j :: 2 <= j < |nodes| ==> nodes[j] == Blank.(next := if j + 1 < |nodes| then j + 1 else Invalid)
    ensures StoreOk(nodes, [FirstPool(0, data), FirstPool(1, coherence)], [FirstIndex(0, data), FirstIndex(1, coherence)],
                    if |nodes| > 2 then 2 else Invalid, unused)
    ensures FirstIndex(0, data).order == [0] && FirstIndex(1, coherence).order == [1]
    ensures Known([0], |nodes|) && Known([1], |nodes|)
    ensures ExtentsOf(nodes, [0]) == [data] && ExtentsOf(nodes, [1]) == [coherence]
  {
    FirstPoolOk(nodes, 0, data);
    FirstPoolOk(nodes, 1, coherence);
    FirstUnusedOk(nodes, unused);
    hide PoolOk, UnusedOk, FirstPool;
    forall x | 0 <= x < |nodes| ensures x in [0] || x in [1] || x in unused {
      if x >= 2 { assert unused[x - 2] == x; }
    }
  }

  lemma FirstUnusedOk(nodes: seq<Node>, unused: seq<nat>)
    requires 2 <= |nodes| <= Invalid && unused == seq(|nodes| - 2, i => i + 2)
    requires forall j :: 2 <= j < |nodes| ==> nodes[j] == Blank.(next := if j + 1 < |nodes| then j + 1 else Invalid)
    ensures UnusedOk(nodes, if |nodes| > 2 then 2 else Invalid, unused)
  { }

  /**
   What the index says about the free list: a free node is in exactly the bin of its size, a
   bitmap bit is set exactly when some free extent has that size class.
   */
  lemma IndexRefinesList(nodes: seq<Node>, pool: Pool, ix: Index, b: nat)
    requires PoolOk(nodes, pool, ix, {}) && b < BinCount
    ensures forall i :: 0 <= i < |ix.order| ==> (ix.order[i] in ix.bins[b] <==> BinFor(nodes[ix.order[i]].bytes) == b)
    ensures pool.bits[b] <==> exists i :: 0 <= i < |ix.order| && BinFor(ExtentsOf(nodes, ix.order)[i].bytes) == b
    ensures pool.heads[b] != Invalid <==> pool.bits[b]
  {
    hide At, Canonical, Linked, BinFor;
    var list := ix.bins[b];
    assert BinOk(nodes, pool.heads[b], pool.bits[b], b, list);
    forall i | 0 <= i < |ix.order| ensures ix.order[i] in list <==> BinFor(nodes[ix.order[i]].bytes) == b {
      var x := ix.order[i];
      var c := nodes[x].bin;
      assert x in ix.bins[c];
      assert BinOk(nodes, pool.heads[c], pool.bits[c], c, ix.bins[c]);
    }
    if pool.bits[b] {
      assert list[0] in ix.bins[b];
      assert list[0] in ix.order;
      var i :| 0 <= i < |ix.order| && ix.order[i] == list[0];
      assert BinFor(ExtentsOf(nodes, ix.order)[i].bytes) == b;
    }
  }

  /** Every node is in exactly one of the three lists, and marked free exactly when it is in an address list. */
  lemma ListsPartitionNodes(nodes: seq<Node>, pools: seq<Pool>, indexes: seq<Index>, head: nat, unused: seq<nat>, x: nat)
    requires StoreOk(nodes, pools, indexes, head, unused) && x < |nodes|
    ensures multiset(indexes[0].order)[x] + multiset(indexes[1].order)[x] + multiset(unused)[x] == 1
    ensures nodes[x].free <==> x in indexes[0].order || x in indexes[1].order
  {
    hide At, Canonical, Linked, BinsOk, Indexed;
    DistinctOnce(indexes[0].order, x);
    DistinctOnce(indexes[1].order, x);
    DistinctOnce(unused, x);
  }

  lemma {:induction false} DistinctOnce(s: seq<nat>, x: nat)
    requires Distinct(s)
    ensures multiset(s)[x] == if x in s then 1 else 0
  {
    if s != [] {
      assert s == [s[0]] + s[1..];
      DistinctOnce(s[1..], x);
    }
  }

  function CountUnused(nodes: seq<Node>, n: nat): nat
    requires n <= |nodes|
  {
    if n == 0 then 0 else CountUnused(nodes, n - 1) + (if nodes[n - 1].free then 0 else 1)
  }

  lemma {:induction false} CountIsSet(nodes: seq<Node>, n: nat)
    requires n <= |nodes|
    ensures CountUnused(nodes, n) == |set i | 0 <= i < n && !nodes[i].free|
  {
    var all := set i | 0 <= i < n && !nodes[i].free;
    if n == 0 {
      assert all == {};
    } else {
      CountIsSet(nodes, n - 1);
      var fewer := set i | 0 <= i < n - 1 && !nodes[i].free;
      assert all == fewer + (if nodes[n - 1].free then {} else {n - 1});
    }
  }

  /** Counting nodes by their state finds exactly the unused list. */
  lemma UnusedCounted(nodes: seq<Node>, pools: seq<Pool>, indexes: seq<Index>, head: nat, unused: seq<nat>)
    requires StoreOk(nodes, pools, indexes, head, unused)
    ensures CountUnused(nodes, |nodes|) == |unused|
  {
    var marked := set i | 0 <= i < |nodes| && !nodes[i].free;
    var listed := Elements(unused);
    CountIsSet(nodes, |nodes|);
    forall x: nat | x < |nodes| ensures x in marked <==> x in unused {
      ListsPartitionNodes(nodes, pools, indexes, head, unused, x);
    }
    hide StoreOk, PoolOk;
    assert marked == listed by { UnusedKnown(nodes, pools, indexes, head, unused); }
    DistinctSize(unused) by { UnusedKnown(nodes, pools, indexes, head, unused); }
  }

  lemma UnusedKnown(nodes: seq<Node>, pools: seq<Pool>, indexes: seq<Index>, head: nat, unused: seq<nat>)
    requires StoreOk(nodes, pools, indexes, head, unused)
    ensures Distinct(unused) && forall x :: x in unused ==> x < |nodes|
  {
    hide PoolOk, At, Apart;
    forall x | x in unused ensures x < |nodes| {
      var i :| 0 <= i < |unused| && unused[i] == x;
    }
  }

  ghost function Elements(s: seq<nat>): set<nat> {
    set x | x in s
  }

  lemma {:induction false} DistinctSize(s: seq<nat>)
    requires Distinct(s)
    ensures |Elements(s)| == |s|
  {
    if s == [] {
      assert Elements(s) == {};
    } else {
      var first, rest := s[0], s[1..];
      DistinctSize(rest);
      assert s == [first] + rest && first !in Elements(rest);
      assert Elements(s) == Elements(rest) + {first};
    }
  }

  ghost predicate Given(before: seq<Extent>, p: nat, e: Extent, after: seq<Extent>) {
    Place(before, e.offset, p) && after == Give(before, p, e)
  }

  /** The extent touches no free neighbour, so it needs a node of its own. */
  ghost predicate Lone(s: seq<Extent>, p: nat, e: Extent) {
    Place(s, e.offset, p) && !JoinsLeft(s, p, e) && !JoinsRight(s, p, e)
  }

  ghost function Position(nodes: seq<Node>, order: seq<nat>, x: nat): (p: nat)
    requires Known(order, |nodes|) && x in order
    ensures p < |order| && order[p] == x && ExtentsOf(nodes, order)[p] == ExtentOf(nodes[x])
  {
    var p :| 0 <= p < |order| && order[p] == x;
    p
  }

  /** `after` is `before` with the aligned request taken from the front of its `p`-th extent. */
  ghost predicate Carved(before: seq<Extent>, p: nat, at: nat, bytes: nat, alignment: nat, after: seq<Extent>) {
    && p < |before| && alignment > 0 && at == LeastMultiple(before[p].offset, alignment)
    && before[p].offset <= at && at + bytes <= End(before[p])
    && after == Carve(before, p, at, bytes)
  }

  /** An extent holds a request when the aligned start leaves room for it. */
  predicate Fits(e: Extent, bytes: nat, alignment: nat) {
    alignment > 0 && LeastMultiple(e.offset, alignment) + bytes <= End(e)
  }

  /** The request can stand at `at`: aligned, and inside the extent. */
  predicate Room(e: Extent, bytes: nat, alignment: nat, at: nat) {
    alignment > 0 && e.offset <= at && at % alignment == 0 && at + bytes <= End(e)
  }

  /** An extent holds a request exactly when there is room for it somewhere. */
  lemma FitsExactly(e: Extent, bytes: nat, alignment: nat)
    requires alignment > 0
    ensures Fits(e, bytes, alignment) <==> exists at :: Room(e, bytes, alignment, at)
  {
    hide LeastMultiple;
    LeastMultipleIs(e.offset, alignment);
    if Fits(e, bytes, alignment) { assert Room(e, bytes, alignment, LeastMultiple(e.offset, alignment)); }
    forall at | Room(e, bytes, alignment, at) ensures LeastMultiple(e.offset, alignment) <= at { RoomBehind(e, bytes, alignment, at); }
  }

  lemma RoomBehind(e: Extent, bytes: nat, alignment: nat, at: nat)
    requires Room(e, bytes, alignment, at)
    ensures LeastMultiple(e.offset, alignment) <= at
  {
    hide LeastMultiple;
    var k := at / alignment;
    assert at == k * alignment + at % alignment;
    LeastMultipleLeast(e.offset, alignment, k);
  }

  /** Taking the request out of the `p`-th extent leaves a piece on both sides, which needs a node. */
  ghost predicate Splits(s: seq<Extent>, p: nat, bytes: nat, alignment: nat) {
    && p < |s| && alignment > 0
    && s[p].offset < LeastMultiple(s[p].offset, alignment) && LeastMultiple(s[p].offset, alignment) + bytes < End(s[p])
  }

  ghost predicate Bounded(s: seq<Extent>) {
    forall i :: 0 <= i < |s| ==> End(s[i]) <= MaxU64
  }

  ghost predicate EndFits(nodes: seq<Node>, order: seq<nat>, n: nat) {
    n < |nodes| && End(ExtentOf(nodes[n])) <= MaxU64
  }

  lemma EndOf(nodes: seq<Node>, order: seq<nat>, n: nat)
    requires Known(order, |nodes|) && n in order
    requires Bounded(ExtentsOf(nodes, order))
    ensures EndFits(nodes, order, n)
  {
    var i :| 0 <= i < |order| && order[i] == n;
    assert ExtentsOf(nodes, order)[i] == ExtentOf(nodes[n]);
  }

  /** The 64-bit test of one candidate is the exact one. */
  method TryFit(e: Extent, bytes: nat, alignment: nat) returns (fits: bool, at: nat)
    requires PowerOfTwo(alignment) && alignment <= MaxU64 && End(e) <= MaxU64
    ensures fits <==> Fits(e, bytes, alignment)
    ensures fits ==> at == LeastMultiple(e.offset, alignment)
  {
    at := AlignUp(e.offset, alignment);
    AlignUpExact(e.offset, alignment);
    LeastMultipleIs(e.offset, alignment);
    hide AlignUp, LeastMultiple;
    fits := !(at < e.offset || at > e.offset + e.bytes || bytes > e.offset + e.bytes - at);
  }

  ghost predicate NoneFits(nodes: seq<Node>, bins: seq<seq<nat>>, lo: nat, hi: nat, bytes: nat, alignment: nat) {
    forall b, x :: lo <= b < hi && b < |bins| && x in bins[b] && x < |nodes| ==> !Fits(ExtentOf(nodes[x]), bytes, alignment)
  }

  /** Extents of smaller bins are too small, so a failed scan has seen everything that could fit. */
  lemma NoneAtAll(nodes: seq<Node>, pool: Pool, ix: Index, start: nat, bytes: nat, alignment: nat)
    requires PoolOk(nodes, pool, ix, {}) && start == BinFor(bytes) && NoneFits(nodes, ix.bins, start, BinCount, bytes, alignment)
    ensures var s := ExtentsOf(nodes, ix.order); forall i :: 0 <= i < |s| ==> !Fits(s[i], bytes, alignment)
  {
    hide At, Distinct, Canonical, Linked;
    var s := ExtentsOf(nodes, ix.order);
    forall i | 0 <= i < |s| ensures !Fits(s[i], bytes, alignment) {
      var x := ix.order[i];
      var b := nodes[x].bin;
      assert x in ix.bins[b];
      var k :| 0 <= k < |ix.bins[b]| && ix.bins[b][k] == x;
      assert BinOk(nodes, pool.heads[b], pool.bits[b], b, ix.bins[b]);
      assert b == BinFor(nodes[x].bytes);
      if b < start && alignment > 0 {
        SmallerBin(nodes[x].bytes, bytes);
        LeastMultipleIs(nodes[x].offset, alignment);
        hide LeastMultiple;
      }
    }
  }

  lemma FirstOnce(s: seq<nat>)
    requires Distinct(s) && s != []
    ensures s == [s[0]] + s[1..] && s[0] !in s[1..]
  { }

  /** Carving from the middle is shrinking to the prefix, then inserting the suffix after it. */
  lemma CarveSplit(s: seq<Extent>, p: nat, at: nat, bytes: nat)
    requires Canonical(s) && p < |s| && bytes > 0 && s[p].offset < at && at + bytes < End(s[p])
    ensures var t := s[p := Extent(s[p].offset, at - s[p].offset)];
      && Canonical(t)
      && t[..p + 1] + [Extent(at + bytes, End(s[p]) - (at + bytes))] + t[p + 1..] == Carve(s, p, at, bytes)
      && Canonical(Carve(s, p, at, bytes))
  {
    CarveCanonical(s, p, at, bytes);
    CarveCanonical(s, p, at, End(s[p]) - at);
    assert Carve(s, p, at, End(s[p]) - at) == s[p := Extent(s[p].offset, at - s[p].offset)];
  }

  ghost predicate Separate(order: seq<nat>, unused: seq<nat>) {
    forall x :: !(x in order && x in unused)
  }

  /** Nodes moved between an address list and the unused list, none lost and none shared. */
  ghost predicate Shift(order: seq<nat>, unused: seq<nat>, order': seq<nat>, unused': seq<nat>) {
    && (forall x :: (x in order' || x in unused') <==> (x in order || x in unused))
    && Separate(order', unused')
  }

  lemma UnusedFrame(nodes: seq<Node>, nodes': seq<Node>, head: nat, unused: seq<nat>)
    requires UnusedOk(nodes, head, unused) && |nodes'| == |nodes|
    requires forall j :: j in unused && j < |nodes| ==> nodes'[j] == nodes[j]
    ensures UnusedOk(nodes', head, unused)
  {
    hide At, Distinct;
    forall i | 0 <= i < |unused| ensures nodes'[unused[i]] == nodes[unused[i]] { assert unused[i] in unused; }
  }

  lemma Spliced(s: seq<Extent>, p: nat, e: Extent)
    requires 0 < p < |s|
    ensures (s[..p] + s[p + 1..])[p - 1 := e] == s[..p - 1] + [e] + s[p + 1..]
  { }

  lemma SplitIndexed(before: seq<Node>, shrunk: seq<Node>, after: seq<Node>, order: seq<nat>, p: nat, x: nat, y: nat)
    requires p < |order| && order[p] == x && y !in order && x < |before| == |shrunk| == |after| && Distinct(order)
    requires forall j :: 0 <= j < |before| && j != x ==> shrunk[j] == before[j]
    requires forall j :: 0 <= j < |after| && j !in Insert(order, p + 1, y) ==> after[j] == shrunk[j]
    ensures x in Insert(order, p + 1, y) && y in Insert(order, p + 1, y)
    ensures forall j :: 0 <= j < |after| && j !in Insert(order, p + 1, y) ==> after[j] == before[j]
  {
    InsertDistinct(order, p + 1, y);
    assert order[p] in order;
  }

  lemma StoreParts(nodes: seq<Node>, pools: seq<Pool>, indexes: seq<Index>, head: nat, unused: seq<nat>, q: nat)
    requires StoreOk(nodes, pools, indexes, head, unused) && q < 2
    ensures |pools| == |indexes| == 2 && PoolOk(nodes, pools[q], indexes[q], {}) && UnusedOk(nodes, head, unused)
    ensures Separate(indexes[q].order, unused)
  {
    hide PoolOk, UnusedOk;
  }

  /** What has to be shown about one pool and the unused list for the whole store to stay consistent. */
  lemma StoreKeeps(nodes: seq<Node>, pools: seq<Pool>, indexes: seq<Index>, head: nat, unused: seq<nat>,
                   nodes': seq<Node>, pools': seq<Pool>, indexes': seq<Index>, head': nat, unused': seq<nat>, q: nat)
    requires StoreOk(nodes, pools, indexes, head, unused) && q < 2 && OnlyPool(q, pools, indexes, pools', indexes')
    requires |nodes'| == |nodes| && PoolOk(nodes', pools'[q], indexes'[q], {}) && UnusedOk(nodes', head', unused')
    requires Shift(indexes[q].order, unused, indexes'[q].order, unused')
    requires forall j :: 0 <= j < |nodes| && j !in indexes[q].order && j !in unused ==> nodes'[j] == nodes[j]
    ensures StoreOk(nodes', pools', indexes', head', unused')
    ensures |indexes'| == 2 && indexes'[1 - q] == indexes[1 - q]
    ensures Known(indexes'[0].order, |nodes'|) && Known(indexes'[1].order, |nodes'|)
    ensures ExtentsOf(nodes', indexes'[1 - q].order) == ExtentsOf(nodes, indexes[1 - q].order)
  {
    hide AddressOk, BinsOk, Indexed, Distinct, At;
    PoolFrame(nodes, nodes', pools[1 - q], indexes[1 - q], {});
    KnownOrder(nodes', pools'[0], indexes'[0]);
    KnownOrder(nodes', pools'[1], indexes'[1]);
  }

  lemma KnownOrder(nodes: seq<Node>, pool: Pool, ix: Index)
    requires PoolOk(nodes, pool, ix, {})
    ensures Known(ix.order, |nodes|)
  {
    hide At, BinsOk, Indexed, Canonical, Distinct;
  }

  lemma OutsideInsert(nodes: seq<Node>, nodes': seq<Node>, order: seq<nat>, p: nat, y: nat, e: Extent)
    requires Known(order, |nodes|) && Distinct(order) && p <= |order| && y !in order && LinkedIn(nodes, nodes', order, p, y, e)
    ensures forall j :: 0 <= j < |nodes| && j !in Insert(order, p, y) ==> nodes'[j] == nodes[j]
  {
    InsertDistinct(order, p, y);
    hide Insert;
    assert p > 0 ==> order[p - 1] in order;
    assert p < |order| ==> order[p] in order;
  }

  lemma Second(s: seq<nat>)
    ensures At(s, 1) == if |s| > 1 then s[1] else Invalid
  { }

  lemma OutsideRemove(nodes: seq<Node>, nodes': seq<Node>, order: seq<nat>, p: nat)
    requires Known(order, |nodes|) && p < |order| && LinkedOut(nodes, nodes', order, p)
    ensures forall j :: 0 <= j < |nodes| && j !in order ==> nodes'[j] == nodes[j]
  {
    assert order[p] in order && (p > 0 ==> order[p - 1] in order) && (p + 1 < |order| ==> order[p + 1] in order);
  }

  ghost predicate OnlyPool(q: nat, pools: seq<Pool>, indexes: seq<Index>, pools': seq<Pool>, indexes': seq<Index>) {
    && |pools'| == |indexes'| == |pools| == |indexes|
    && (forall k :: 0 <= k < |pools| && k != q ==> pools'[k] == pools[k] && indexes'[k] == indexes[k])
  }

  lemma HeadNotLoose(nodes: seq<Node>, pool: Pool, ix: Index, loose: set<nat>, x: nat, b: nat)
    requires PoolOk(nodes, pool, ix, loose) && x in loose && b < BinCount && x < |nodes|
    ensures pool.heads[b] != x
  {
    hide At, Distinct, Canonical;
    var list := ix.bins[b];
    assert BinOk(nodes, pool.heads[b], pool.bits[b], b, list);
    assert list != [] ==> list[0] in list;
  }
}
