/**
 The index structures over the shared node array: an address-ordered doubly linked list and 64
 size-bin lists with a bitmap per pool, and one list of unused nodes. Each update of the links
 is proved to keep the lists what they should be.
 */
module ExtentIndex {
  import opened Extents

  const Invalid: nat := 0xFFFF_FFFF
  const BinCount: nat := 64
  const MaxU64: nat := 0xFFFF_FFFF_FFFF_FFFF

  datatype Node = Node(
    offset: nat, bytes: nat,
    next: nat, previous: nat,
    binNext: nat, binPrevious: nat, bin: nat,
    free: bool)

  const Blank := Node(0, 0, Invalid, Invalid, Invalid, Invalid, 0, false)

  /** List head, bin heads and bitmap of one pool. */
  datatype Pool = Pool(head: nat, heads: seq<nat>, bits: seq<bool>)

  /** The node indices those links stand for: the address list and the 64 bin lists. */
  datatype Index = Index(order: seq<nat>, bins: seq<seq<nat>>)

  // ------------------------------------------------------------------ size bins

  function Pow2(n: nat): (r: nat)
    ensures r > 0
  {
    if n == 0 then 1 else 2 * Pow2(n - 1)
  }

  function Log2(n: nat): nat
    requires n > 0
  {
    if n == 1 then 0 else 1 + Log2(n / 2)
  }

  function BinFor(bytes: nat): (bin: nat)
    ensures bin < BinCount
  {
    if bytes <= 1 then 0 else if Log2(bytes) < BinCount - 1 then Log2(bytes) else BinCount - 1
  }

  lemma {:induction false} Log2Range(n: nat)
    requires n > 0
    ensures Pow2(Log2(n)) <= n < Pow2(Log2(n) + 1)
  {
    if n > 1 { Log2Range(n / 2); }
  }

  lemma {:induction false} Log2Monotone(a: nat, b: nat)
    requires 0 < a <= b
    ensures Log2(a) <= Log2(b)
  {
    if a > 1 { Log2Monotone(a / 2, b / 2); }
  }

  lemma {:induction false} Log2Below(n: nat, k: nat)
    requires 0 < n < Pow2(k)
    ensures Log2(n) < k
  {
    if n > 1 { Log2Below(n / 2, k - 1); }
  }

  /** A smaller bin holds only smaller extents, so starting the search at the request's bin misses nothing. */
  lemma SmallerBin(have: nat, want: nat)
    requires BinFor(have) < BinFor(want)
    ensures have < want
  {
    if want <= have && want > 1 { Log2Monotone(want, have); }
  }

  /** Bin `b` holds exactly the sizes from `2^b` to below `2^(b+1)` (and 0 in the first). */
  lemma BinRange(bytes: nat)
    requires 0 < bytes <= MaxU64
    ensures Pow2(BinFor(bytes)) <= bytes < Pow2(BinFor(bytes) + 1)
  {
    Log2Range(bytes);
    WordIsPow2();
    Log2Below(bytes, 64);
  }

  lemma WordIsPow2()
    ensures Pow2(64) == MaxU64 + 1
  {
    assert Pow2(4) == 16;
    PowSum(4, 4);
    PowSum(8, 8);
    PowSum(16, 16);
    PowSum(32, 32);
  }

  lemma {:induction false} PowSum(a: nat, b: nat)
    ensures Pow2(a + b) == Pow2(a) * Pow2(b)
  {
    if a > 0 { PowSum(a - 1, b); }
  }

  // ------------------------------------------------------------------ lists of indices

  function At(s: seq<nat>, i: int): nat {
    if 0 <= i < |s| then s[i] else Invalid
  }

  function First(s: seq<nat>): nat {
    if s == [] then Invalid else s[0]
  }

  ghost predicate Distinct(s: seq<nat>) {
    forall i, j :: 0 <= i < j < |s| ==> s[i] != s[j]
  }

  ghost predicate Known(s: seq<nat>, n: nat) {
    n <= Invalid && forall i :: 0 <= i < |s| ==> s[i] < n
  }

  ghost predicate Linked(nodes: seq<Node>, head: nat, order: seq<nat>)
    requires Known(order, |nodes|)
  {
    && head == First(order)
    && forall i :: 0 <= i < |order| ==> nodes[order[i]].next == At(order, i + 1) && nodes[order[i]].previous == At(order, i - 1)
  }

  ghost predicate BinLinked(nodes: seq<Node>, head: nat, list: seq<nat>)
    requires Known(list, |nodes|)
  {
    && head == First(list)
    && forall i :: 0 <= i < |list| ==> nodes[list[i]].binNext == At(list, i + 1) && nodes[list[i]].binPrevious == At(list, i - 1)
  }

  ghost predicate UnusedLinked(nodes: seq<Node>, head: nat, unused: seq<nat>)
    requires Known(unused, |nodes|)
  {
    && head == First(unused)
    && forall i :: 0 <= i < |unused| ==> nodes[unused[i]].next == At(unused, i + 1) && !nodes[unused[i]].free
  }

  function ExtentOf(n: Node): Extent { Extent(n.offset, n.bytes) }

  ghost function ExtentsOf(nodes: seq<Node>, order: seq<nat>): (r: seq<Extent>)
    requires Known(order, |nodes|)
    ensures |r| == |order| && forall i :: 0 <= i < |r| ==> r[i] == ExtentOf(nodes[order[i]])
  {
    seq(|order|, i requires 0 <= i < |order| => ExtentOf(nodes[order[i]]))
  }

  // ------------------------------------------------------------------ invariants

  /** The address list: links, free marks, and a canonical free list. */
  ghost predicate AddressOk(nodes: seq<Node>, head: nat, order: seq<nat>) {
    && Known(order, |nodes|) && Distinct(order)
    && Linked(nodes, head, order)
    && (forall i :: 0 <= i < |order| ==> nodes[order[i]].free)
    && Canonical(ExtentsOf(nodes, order))
  }

  /** One bin: its links, its bitmap bit, and only extents of its size class. */
  ghost predicate BinOk(nodes: seq<Node>, head: nat, bit: bool, b: nat, list: seq<nat>) {
    && Known(list, |nodes|) && Distinct(list)
    && BinLinked(nodes, head, list)
    && (bit <==> list != [])
    && (forall i :: 0 <= i < |list| ==> nodes[list[i]].bin == b == BinFor(nodes[list[i]].bytes))
  }

  ghost predicate BinsOk(nodes: seq<Node>, pool: Pool, bins: seq<seq<nat>>) {
    && |pool.heads| == |pool.bits| == |bins| == BinCount
    && (forall b :: 0 <= b < BinCount ==> BinOk(nodes, pool.heads[b], pool.bits[b], b, bins[b]))
  }

  /** Every free node that is not `loose` is in the bin it names; the bins hold nothing else. */
  ghost predicate Indexed(nodes: seq<Node>, ix: Index, loose: set<nat>)
    requires Known(ix.order, |nodes|)
  {
    && (forall i :: 0 <= i < |ix.order| && ix.order[i] !in loose ==>
          nodes[ix.order[i]].bin < |ix.bins| && ix.order[i] in ix.bins[nodes[ix.order[i]].bin])
    && (forall b, x :: 0 <= b < |ix.bins| && x in ix.bins[b] ==> x in ix.order && x !in loose)
  }

  ghost predicate PoolOk(nodes: seq<Node>, pool: Pool, ix: Index, loose: set<nat>) {
    && AddressOk(nodes, pool.head, ix.order)
    && BinsOk(nodes, pool, ix.bins)
    && Indexed(nodes, ix, loose)
  }

  ghost predicate UnusedOk(nodes: seq<Node>, head: nat, unused: seq<nat>) {
    Known(unused, |nodes|) && Distinct(unused) && UnusedLinked(nodes, head, unused)
  }

  /** Three lists with no index in common. */
  ghost predicate Apart(a: seq<nat>, b: seq<nat>, c: seq<nat>) {
    forall x :: !(x in a && x in b) && !(x in a && x in c) && !(x in b && x in c)
  }

  // ------------------------------------------------------------------ bins

  /** The node array after `x` was linked in front of bin `b`. */
  ghost predicate FrontLinked(nodes: seq<Node>, nodes': seq<Node>, head: nat, x: nat, b: nat) {
    && |nodes'| == |nodes| && x < |nodes|
    && nodes'[x] == nodes[x].(bin := b, binPrevious := Invalid, binNext := head)
    && (head < |nodes| ==> nodes'[head] == nodes[head].(binPrevious := x))
    && (forall j :: 0 <= j < |nodes| && j != x && j != head ==> nodes'[j] == nodes[j])
  }

  function WithHead(pool: Pool, b: nat, head: nat): Pool
    requires b < |pool.heads| == |pool.bits|
  {
    pool.(heads := pool.heads[b := head], bits := pool.bits[b := head != Invalid])
  }

  /** Only the bin fields of nodes of `order` may differ. */
  ghost predicate SameAddresses(nodes: seq<Node>, nodes': seq<Node>, order: seq<nat>) {
    && |nodes'| == |nodes|
    && (forall j :: 0 <= j < |nodes| ==>
          && nodes'[j].offset == nodes[j].offset && nodes'[j].bytes == nodes[j].bytes && nodes'[j].free == nodes[j].free
          && nodes'[j].next == nodes[j].next && nodes'[j].previous == nodes[j].previous)
    && (forall j :: 0 <= j < |nodes| && j !in order ==> nodes'[j] == nodes[j])
  }

  lemma AddressFrame(nodes: seq<Node>, nodes': seq<Node>, head: nat, order: seq<nat>, touched: seq<nat>)
    requires AddressOk(nodes, head, order) && SameAddresses(nodes, nodes', touched)
    ensures AddressOk(nodes', head, order) && ExtentsOf(nodes', order) == ExtentsOf(nodes, order)
  {
    assert ExtentsOf(nodes', order) == ExtentsOf(nodes, order);
  }

  lemma InsertBinOk(nodes: seq<Node>, nodes': seq<Node>, pool: Pool, ix: Index, loose: set<nat>, x: nat, b: nat)
    requires PoolOk(nodes, pool, ix, loose) && x in loose && x in ix.order
    requires b == BinFor(nodes[x].bytes) && FrontLinked(nodes, nodes', pool.heads[b], x, b)
    ensures SameAddresses(nodes, nodes', ix.order)
    ensures PoolOk(nodes', WithHead(pool, b, x), ix.(bins := ix.bins[b := [x] + ix.bins[b]]), loose - {x})
  {
    hide AddressOk, Indexed, BinOk, FrontLinked, At;
    InsertedAddresses(nodes, nodes', pool, ix, loose, x, b);
    InsertedBins(nodes, nodes', pool, ix, loose, x, b);
    InsertedMembers(nodes, nodes', pool, ix, loose, x, b);
    Assemble(nodes', WithHead(pool, b, x), ix.(bins := ix.bins[b := [x] + ix.bins[b]]), loose - {x});
  }

  lemma InsertedAddresses(nodes: seq<Node>, nodes': seq<Node>, pool: Pool, ix: Index, loose: set<nat>, x: nat, b: nat)
    requires PoolOk(nodes, pool, ix, loose) && x in loose && x in ix.order
    requires b == BinFor(nodes[x].bytes) && FrontLinked(nodes, nodes', pool.heads[b], x, b)
    ensures SameAddresses(nodes, nodes', ix.order) && AddressOk(nodes', pool.head, ix.order)
  {
    hide At;
    var list := ix.bins[b];
    assert BinOk(nodes, pool.heads[b], pool.bits[b], b, list);
    assert list != [] ==> list[0] in list;
    assert pool.heads[b] < |nodes| ==> pool.heads[b] in ix.order && pool.heads[b] != x;
    hide AddressOk, BinsOk, BinOk, Indexed, BinFor, SameAddresses, FrontLinked;
    FrontSame(nodes, nodes', pool.heads[b], x, b, ix.order);
    AddressFrame(nodes, nodes', pool.head, ix.order, ix.order);
  }

  lemma FrontSame(nodes: seq<Node>, nodes': seq<Node>, head: nat, x: nat, b: nat, order: seq<nat>)
    requires FrontLinked(nodes, nodes', head, x, b) && x in order && (head < |nodes| ==> head in order && head != x)
    ensures SameAddresses(nodes, nodes', order)
  { }

  lemma InsertedMembers(nodes: seq<Node>, nodes': seq<Node>, pool: Pool, ix: Index, loose: set<nat>, x: nat, b: nat)
    requires PoolOk(nodes, pool, ix, loose) && x in loose && x in ix.order
    requires b == BinFor(nodes[x].bytes) && FrontLinked(nodes, nodes', pool.heads[b], x, b)
    ensures Indexed(nodes', ix.(bins := ix.bins[b := [x] + ix.bins[b]]), loose - {x})
  {
    hide BinFor, BinOk, Linked, Canonical, At;
    InsertedIndex(nodes, nodes', ix, loose, x, b);
  }

  lemma Assemble(nodes: seq<Node>, pool: Pool, ix: Index, loose: set<nat>)
    requires AddressOk(nodes, pool.head, ix.order) && BinsOk(nodes, pool, ix.bins) && Indexed(nodes, ix, loose)
    ensures PoolOk(nodes, pool, ix, loose)
  { }

  lemma InsertedIndex(nodes: seq<Node>, nodes': seq<Node>, ix: Index, loose: set<nat>, x: nat, b: nat)
    requires Known(ix.order, |nodes|) && |nodes'| == |nodes| && Indexed(nodes, ix, loose) && x in loose && x in ix.order
    requires b < |ix.bins| && nodes'[x].bin == b && (forall j :: 0 <= j < |nodes| && j != x ==> nodes'[j].bin == nodes[j].bin)
    ensures Indexed(nodes', ix.(bins := ix.bins[b := [x] + ix.bins[b]]), loose - {x})
  {
    var ix' := ix.(bins := ix.bins[b := [x] + ix.bins[b]]);
    forall c, y | 0 <= c < |ix'.bins| && y in ix'.bins[c] ensures y in ix'.order && y !in loose - {x} {
      assert y in ix.bins[c] || y == x;
    }
    forall i | 0 <= i < |ix.order| && ix.order[i] !in loose - {x}
      ensures nodes'[ix.order[i]].bin < |ix'.bins| && ix.order[i] in ix'.bins[nodes'[ix.order[i]].bin]
    {
      if ix.order[i] != x { assert nodes'[ix.order[i]].bin == nodes[ix.order[i]].bin; }
    }
  }

  lemma InsertedBins(nodes: seq<Node>, nodes': seq<Node>, pool: Pool, ix: Index, loose: set<nat>, x: nat, b: nat)
    requires PoolOk(nodes, pool, ix, loose) && x in loose && x in ix.order
    requires b == BinFor(nodes[x].bytes) && FrontLinked(nodes, nodes', pool.heads[b], x, b)
    ensures BinsOk(nodes', WithHead(pool, b, x), ix.bins[b := [x] + ix.bins[b]])
  {
    hide AddressOk, Distinct, At;
    var list := ix.bins[b];
    assert BinOk(nodes, pool.heads[b], pool.bits[b], b, list);
    assert |nodes| <= Invalid && x !in list;
    assert list != [] ==> list[0] in list;
    BinFront(nodes, nodes', pool.heads[b], pool.bits[b], b, list, x) by {
      forall i | 0 < i < |list| ensures nodes'[list[i]] == nodes[list[i]] {
        DistinctAt(list, 0, i);
        assert list[i] in list;
      }
    }
    var pool' := WithHead(pool, b, x);
    forall c | 0 <= c < BinCount && c != b ensures BinOk(nodes', pool'.heads[c], pool'.bits[c], c, ix.bins[c]) {
      assert BinOk(nodes, pool.heads[c], pool.bits[c], c, ix.bins[c]);
      forall i | 0 <= i < |ix.bins[c]| ensures nodes'[ix.bins[c][i]] == nodes[ix.bins[c][i]] {
        assert ix.bins[c][i] in ix.bins[c] && nodes[ix.bins[c][i]].bin == c;
      }
      BinFrame(nodes, nodes', pool.heads[c], pool.bits[c], c, ix.bins[c]);
    }
  }

  lemma DistinctAt(s: seq<nat>, i: nat, j: nat)
    requires Distinct(s) && i < |s| && j < |s| && i != j
    ensures s[i] != s[j]
  { }

  lemma BinFrame(nodes: seq<Node>, nodes': seq<Node>, head: nat, bit: bool, b: nat, list: seq<nat>)
    requires BinOk(nodes, head, bit, b, list) && |nodes'| == |nodes|
    requires forall i :: 0 <= i < |list| ==> nodes'[list[i]] == nodes[list[i]]
    ensures BinOk(nodes', head, bit, b, list)
  { }

  lemma BinFront(nodes: seq<Node>, nodes': seq<Node>, head: nat, bit: bool, b: nat, list: seq<nat>, x: nat)
    requires BinOk(nodes, head, bit, b, list) && x < |nodes| == |nodes'| <= Invalid && x !in list
    requires nodes'[x].bin == b == BinFor(nodes'[x].bytes) && nodes'[x].binNext == head && nodes'[x].binPrevious == Invalid
    requires forall i :: 0 < i < |list| ==> nodes'[list[i]] == nodes[list[i]]
    requires list != [] ==> nodes'[list[0]] == nodes[list[0]].(binPrevious := x)
    ensures BinOk(nodes', x, true, b, [x] + list)
  {
    var list' := [x] + list;
    forall i | 0 <= i < |list'|
      ensures list'[i] < |nodes'| && nodes'[list'[i]].binNext == At(list', i + 1) && nodes'[list'[i]].binPrevious == At(list', i - 1)
      ensures nodes'[list'[i]].bin == b == BinFor(nodes'[list'[i]].bytes)
    {
      if i > 0 { assert list'[i] == list[i - 1]; }
    }
  }

  /** The node array after `x` was taken out of its bin list. */
  ghost predicate BinUnlinked(nodes: seq<Node>, nodes': seq<Node>, x: nat) {
    && |nodes'| == |nodes| && x < |nodes|
    && var before, after := nodes[x].binPrevious, nodes[x].binNext;
    && nodes'[x] == nodes[x].(binNext := Invalid, binPrevious := Invalid)
    && (before < |nodes| ==> nodes'[before] == nodes[before].(binNext := after))
    && (after < |nodes| ==> nodes'[after] == nodes[after].(binPrevious := before))
    && (forall j :: 0 <= j < |nodes| && j != x && j != before && j != after ==> nodes'[j] == nodes[j])
  }

  function Drop(s: seq<nat>, k: nat): seq<nat>
    requires k < |s|
  {
    s[..k] + s[k + 1..]
  }

  function HeadAfter(nodes: seq<Node>, head: nat, x: nat): nat
    requires x < |nodes|
  {
    if nodes[x].binPrevious == Invalid then nodes[x].binNext else head
  }

  lemma DropAt(s: seq<nat>, k: nat, i: nat)
    requires k < |s| && i < |s| - 1
    ensures Drop(s, k)[i] == s[if i < k then i else i + 1]
  { }

  lemma DropDistinct(s: seq<nat>, k: nat)
    requires Distinct(s) && k < |s|
    ensures Distinct(Drop(s, k)) && s[k] !in Drop(s, k)
    ensures forall x :: x in Drop(s, k) <==> x in s && x != s[k]
  {
    var r := Drop(s, k);
    forall i, j | 0 <= i < j < |r| ensures r[i] != r[j] { DropAt(s, k, i); DropAt(s, k, j); }
    forall i | 0 <= i < |r| ensures r[i] != s[k] && r[i] in s { DropAt(s, k, i); }
    forall x | x in s && x != s[k] ensures x in r {
      var i :| 0 <= i < |s| && s[i] == x;
      DropAt(s, k, if i < k then i else i - 1);
    }
  }

  /** What the links of the `k`-th entry are. */
  lemma BinNeighbours(nodes: seq<Node>, head: nat, list: seq<nat>, k: nat)
    requires Known(list, |nodes|) && BinLinked(nodes, head, list) && k < |list|
    ensures nodes[list[k]].binPrevious == if k > 0 then list[k - 1] else Invalid
    ensures nodes[list[k]].binNext == if k + 1 < |list| then list[k + 1] else Invalid
  { }

  /** Links as explicit neighbours, for one entry. */
  lemma BinEntry(nodes: seq<Node>, list: seq<nat>, j: nat)
    requires j < |list| && list[j] < |nodes|
    requires nodes[list[j]].binPrevious == (if j > 0 then list[j - 1] else Invalid)
    requires nodes[list[j]].binNext == (if j + 1 < |list| then list[j + 1] else Invalid)
    ensures nodes[list[j]].binNext == At(list, j + 1) && nodes[list[j]].binPrevious == At(list, j - 1)
  { }

  lemma DropLinked(nodes: seq<Node>, nodes': seq<Node>, head: nat, list: seq<nat>, k: nat, i: nat)
    requires Known(list, |nodes|) && Distinct(list) && BinLinked(nodes, head, list) && k < |list|
    requires BinUnlinked(nodes, nodes', list[k]) && i < |Drop(list, k)|
    ensures var list' := Drop(list, k);
      && list'[i] < |nodes'| && nodes'[list'[i]].bin == nodes[list'[i]].bin && nodes'[list'[i]].bytes == nodes[list'[i]].bytes
      && nodes'[list'[i]].binNext == At(list', i + 1) && nodes'[list'[i]].binPrevious == At(list', i - 1)
  {
    hide At;
    var list' := Drop(list, k);
    var j := if i < k then i else i + 1;
    BinNeighbours(nodes, head, list, k);
    BinNeighbours(nodes, head, list, j);
    hide BinLinked;
    DropAt(list, k, i);
    if i + 1 < |list'| { DropAt(list, k, i + 1); }
    if 0 < i { DropAt(list, k, i - 1); }
    DistinctAt(list, j, k);
    if 0 < k && j != k - 1 { DistinctAt(list, j, k - 1); }
    if k + 1 < |list| && j != k + 1 { DistinctAt(list, j, k + 1); }
    hide Distinct, Drop;
    BinEntry(nodes', list', i);
  }

  lemma DropHead(list: seq<nat>, k: nat)
    requires k < |list|
    ensures |Drop(list, k)| == |list| - 1
    ensures First(Drop(list, k)) == if k > 0 then list[0] else if |list| > 1 then list[1] else Invalid
  { }

  lemma BinDrop(nodes: seq<Node>, nodes': seq<Node>, head: nat, bit: bool, b: nat, list: seq<nat>, k: nat)
    requires BinOk(nodes, head, bit, b, list) && k < |list| && BinUnlinked(nodes, nodes', list[k])
    ensures BinOk(nodes', HeadAfter(nodes, head, list[k]), HeadAfter(nodes, head, list[k]) != Invalid, b, Drop(list, k))
  {
    hide At, BinUnlinked, Distinct, BinFor;
    var list' := Drop(list, k);
    DropDistinct(list, k);
    BinNeighbours(nodes, head, list, k);
    DropHead(list, k);
    forall i | 0 <= i < |list'|
      ensures list'[i] < |nodes'| && nodes'[list'[i]].bin == b == BinFor(nodes'[list'[i]].bytes)
      ensures nodes'[list'[i]].binNext == At(list', i + 1) && nodes'[list'[i]].binPrevious == At(list', i - 1)
    {
      DropLinked(nodes, nodes', head, list, k, i);
      DropAt(list, k, i);
    }
    assert |nodes'| == |nodes| by { UnlinkedLength(nodes, nodes', list[k]); }
  }

  lemma UnlinkedLength(nodes: seq<Node>, nodes': seq<Node>, x: nat)
    requires BinUnlinked(nodes, nodes', x)
    ensures |nodes'| == |nodes|
  { }

  lemma RemoveBinOk(nodes: seq<Node>, nodes': seq<Node>, pool: Pool, ix: Index, loose: set<nat>, x: nat, b: nat, k: nat)
    requires PoolOk(nodes, pool, ix, loose) && x in ix.order && x < |nodes| && b == nodes[x].bin < BinCount
    requires k < |ix.bins[b]| && ix.bins[b][k] == x && BinUnlinked(nodes, nodes', x)
    ensures SameAddresses(nodes, nodes', ix.order)
    ensures PoolOk(nodes', WithHead(pool, b, HeadAfter(nodes, pool.heads[b], x)), ix.(bins := ix.bins[b := Drop(ix.bins[b], k)]), loose + {x})
  {
    hide AddressOk, Indexed, BinOk, BinUnlinked, At;
    RemovedAddresses(nodes, nodes', pool, ix, loose, x, b, k);
    RemovedBins(nodes, nodes', pool, ix, loose, x, b, k);
    RemovedMembers(nodes, nodes', pool, ix, loose, x, b, k);
    Assemble(nodes', WithHead(pool, b, HeadAfter(nodes, pool.heads[b], x)), ix.(bins := ix.bins[b := Drop(ix.bins[b], k)]), loose + {x});
  }

  /** A bin node's neighbours are in the same bin, so in the same pool. */
  lemma NeighboursInside(nodes: seq<Node>, pool: Pool, ix: Index, loose: set<nat>, x: nat, b: nat, k: nat)
    requires PoolOk(nodes, pool, ix, loose) && b < BinCount && k < |ix.bins[b]| && ix.bins[b][k] == x < |nodes|
    ensures var list := ix.bins[b];
      && Distinct(list) && Known(list, |nodes|)
      && nodes[x].binPrevious == (if k > 0 then list[k - 1] else Invalid)
      && nodes[x].binNext == (if k + 1 < |list| then list[k + 1] else Invalid)
      && (k > 0 ==> list[k - 1] in list && list[k - 1] in ix.order && list[k - 1] != x)
      && (k + 1 < |list| ==> list[k + 1] in list && list[k + 1] in ix.order && list[k + 1] != x)
      && (0 < k && k + 1 < |list| ==> list[k - 1] != list[k + 1])
  {
    hide At, AddressOk;
    var list := ix.bins[b];
    assert BinOk(nodes, pool.heads[b], pool.bits[b], b, list);
    BinNeighbours(nodes, pool.heads[b], list, k);
    hide BinLinked, BinsOk;
    assert k > 0 ==> list[k - 1] in list;
    assert k + 1 < |list| ==> list[k + 1] in list;
  }

  lemma RemovedAddresses(nodes: seq<Node>, nodes': seq<Node>, pool: Pool, ix: Index, loose: set<nat>, x: nat, b: nat, k: nat)
    requires PoolOk(nodes, pool, ix, loose) && x in ix.order && x < |nodes| && b == nodes[x].bin < BinCount
    requires k < |ix.bins[b]| && ix.bins[b][k] == x && BinUnlinked(nodes, nodes', x)
    ensures SameAddresses(nodes, nodes', ix.order) && AddressOk(nodes', pool.head, ix.order)
  {
    hide At;
    NeighboursInside(nodes, pool, ix, loose, x, b, k);
    hide AddressOk, BinsOk, Indexed, Distinct;
    assert SameAddresses(nodes, nodes', ix.order);
    hide SameAddresses, BinUnlinked;
    AddressFrame(nodes, nodes', pool.head, ix.order, ix.order);
  }

  lemma RemovedBins(nodes: seq<Node>, nodes': seq<Node>, pool: Pool, ix: Index, loose: set<nat>, x: nat, b: nat, k: nat)
    requires PoolOk(nodes, pool, ix, loose) && x in ix.order && x < |nodes| && b == nodes[x].bin < BinCount
    requires k < |ix.bins[b]| && ix.bins[b][k] == x && BinUnlinked(nodes, nodes', x)
    ensures BinsOk(nodes', WithHead(pool, b, HeadAfter(nodes, pool.heads[b], x)), ix.bins[b := Drop(ix.bins[b], k)])
  {
    hide AddressOk, Distinct, At;
    var list := ix.bins[b];
    assert BinOk(nodes, pool.heads[b], pool.bits[b], b, list);
    BinDrop(nodes, nodes', pool.heads[b], pool.bits[b], b, list, k);
    NeighboursInside(nodes, pool, ix, loose, x, b, k);
    var pool' := WithHead(pool, b, HeadAfter(nodes, pool.heads[b], x));
    forall c | 0 <= c < BinCount && c != b ensures BinOk(nodes', pool'.heads[c], pool'.bits[c], c, ix.bins[c]) {
      assert BinOk(nodes, pool.heads[c], pool.bits[c], c, ix.bins[c]);
      forall i | 0 <= i < |ix.bins[c]| ensures nodes'[ix.bins[c][i]] == nodes[ix.bins[c][i]] {
        assert nodes[ix.bins[c][i]].bin == c;
      }
      BinFrame(nodes, nodes', pool.heads[c], pool.bits[c], c, ix.bins[c]);
    }
  }

  lemma RemovedMembers(nodes: seq<Node>, nodes': seq<Node>, pool: Pool, ix: Index, loose: set<nat>, x: nat, b: nat, k: nat)
    requires PoolOk(nodes, pool, ix, loose) && x in ix.order && x < |nodes| && b == nodes[x].bin < BinCount
    requires k < |ix.bins[b]| && ix.bins[b][k] == x && BinUnlinked(nodes, nodes', x)
    ensures Indexed(nodes', ix.(bins := ix.bins[b := Drop(ix.bins[b], k)]), loose + {x})
  {
    hide At, BinLinked, Linked, Canonical, BinFor;
    var ix' := ix.(bins := ix.bins[b := Drop(ix.bins[b], k)]);
    assert BinOk(nodes, pool.heads[b], pool.bits[b], b, ix.bins[b]);
    DropDistinct(ix.bins[b], k);
    assert forall j :: 0 <= j < |nodes| ==> nodes'[j].bin == nodes[j].bin;
    hide BinUnlinked, Distinct, Drop;
    forall c, y | 0 <= c < |ix'.bins| && y in ix'.bins[c] ensures y in ix'.order && y !in loose + {x} {
      assert y in ix.bins[c];
    }
  }

  // ------------------------------------------------------------------ the address list

  function Insert(s: seq<nat>, p: nat, y: nat): seq<nat>
    requires p <= |s|
  {
    s[..p] + [y] + s[p..]
  }

  lemma InsertAt(s: seq<nat>, p: nat, y: nat, i: nat)
    requires p <= |s| && i <= |s|
    ensures Insert(s, p, y)[i] == if i < p then s[i] else if i == p then y else s[i - 1]
  { }

  lemma InsertDistinct(s: seq<nat>, p: nat, y: nat)
    requires Distinct(s) && p <= |s| && y !in s
    ensures Distinct(Insert(s, p, y)) && (forall x :: x in Insert(s, p, y) <==> x in s || x == y)
  {
    var r := Insert(s, p, y);
    forall i, j | 0 <= i < j < |r| ensures r[i] != r[j] { InsertAt(s, p, y, i); InsertAt(s, p, y, j); }
    forall x | x in s || x == y ensures x in r {
      if x in s {
        var i :| 0 <= i < |s| && s[i] == x;
        InsertAt(s, p, y, if i < p then i else i + 1);
      } else {
        InsertAt(s, p, y, p);
      }
    }
  }

  lemma Neighbours(nodes: seq<Node>, head: nat, order: seq<nat>, k: nat)
    requires Known(order, |nodes|) && Linked(nodes, head, order) && k < |order|
    ensures nodes[order[k]].previous == if k > 0 then order[k - 1] else Invalid
    ensures nodes[order[k]].next == if k + 1 < |order| then order[k + 1] else Invalid
  { }

  lemma Entry(nodes: seq<Node>, order: seq<nat>, j: nat)
    requires j < |order| && order[j] < |nodes|
    requires nodes[order[j]].previous == (if j > 0 then order[j - 1] else Invalid)
    requires nodes[order[j]].next == (if j + 1 < |order| then order[j + 1] else Invalid)
    ensures nodes[order[j]].next == At(order, j + 1) && nodes[order[j]].previous == At(order, j - 1)
  { }

  /** The node array after `y` was written and linked between the `p - 1`-th and `p`-th entries. */
  ghost predicate LinkedIn(nodes: seq<Node>, nodes': seq<Node>, order: seq<nat>, p: nat, y: nat, e: Extent)
    requires p <= |order| && Known(order, |nodes|)
  {
    && |nodes'| == |nodes| && y < |nodes|
    && nodes'[y].free && ExtentOf(nodes'[y]) == e
    && nodes'[y].previous == (if p > 0 then order[p - 1] else Invalid)
    && nodes'[y].next == (if p < |order| then order[p] else Invalid)
    && (p > 0 ==> nodes'[order[p - 1]] == nodes[order[p - 1]].(next := y))
    && (p < |order| ==> nodes'[order[p]] == nodes[order[p]].(previous := y))
    && (forall j :: 0 <= j < |nodes| && j != y && (p > 0 ==> j != order[p - 1]) && (p < |order| ==> j != order[p]) ==> nodes'[j] == nodes[j])
  }

  lemma InsertLinked(nodes: seq<Node>, nodes': seq<Node>, head: nat, order: seq<nat>, p: nat, y: nat, e: Extent, i: nat)
    requires AddressOk(nodes, head, order) && p <= |order| && y !in order && LinkedIn(nodes, nodes', order, p, y, e)
    requires i <= |order|
    ensures var order' := Insert(order, p, y);
      && order'[i] < |nodes'| && nodes'[order'[i]].free
      && nodes'[order'[i]].next == At(order', i + 1) && nodes'[order'[i]].previous == At(order', i - 1)
      && ExtentOf(nodes'[order'[i]]) == (if i == p then e else ExtentOf(nodes[order'[i]]))
  {
    hide At, Canonical;
    var order' := Insert(order, p, y);
    InsertAt(order, p, y, i);
    if i < |order| { InsertAt(order, p, y, i + 1); }
    if 0 < i { InsertAt(order, p, y, i - 1); }
    if i != p {
      var j := if i < p then i else i - 1;
      Neighbours(nodes, head, order, j);
      assert order[j] != y && nodes[order[j]].free;
      if 0 < p && j != p - 1 { DistinctAt(order, j, p - 1); }
      if p < |order| && j != p { DistinctAt(order, j, p); }
      if 0 < p < |order| { DistinctAt(order, p - 1, p); }
    }
    hide AddressOk, Insert;
    Entry(nodes', order', i);
  }

  lemma InsertAddressOk(nodes: seq<Node>, nodes': seq<Node>, head: nat, order: seq<nat>, p: nat, y: nat, e: Extent)
    requires AddressOk(nodes, head, order) && p <= |order| && y !in order && LinkedIn(nodes, nodes', order, p, y, e)
    requires var s := ExtentsOf(nodes, order); Canonical(s[..p] + [e] + s[p..])
    ensures AddressOk(nodes', if p == 0 then y else head, Insert(order, p, y))
    ensures var s := ExtentsOf(nodes, order); ExtentsOf(nodes', Insert(order, p, y)) == s[..p] + [e] + s[p..]
  {
    hide At;
    var order', s := Insert(order, p, y), ExtentsOf(nodes, order);
    InsertDistinct(order, p, y);
    assert |nodes'| == |nodes| <= Invalid;
    hide Canonical, Distinct, LinkedIn;
    forall i | 0 <= i < |order'|
      ensures order'[i] < |nodes'| && nodes'[order'[i]].free
      ensures nodes'[order'[i]].next == At(order', i + 1) && nodes'[order'[i]].previous == At(order', i - 1)
      ensures ExtentOf(nodes'[order'[i]]) == (s[..p] + [e] + s[p..])[i]
    {
      InsertLinked(nodes, nodes', head, order, p, y, e, i);
      InsertAt(order, p, y, i);
    }
    InsertFirst(order, p, y);
    assert ExtentsOf(nodes', order') == s[..p] + [e] + s[p..];
  }

  lemma InsertFirst(s: seq<nat>, p: nat, y: nat)
    requires p <= |s|
    ensures First(Insert(s, p, y)) == if p == 0 then y else First(s)
  {
    InsertAt(s, p, y, 0);
  }

  /** The node array after the `p`-th entry was unlinked; what becomes of it is free to choose. */
  ghost predicate LinkedOut(nodes: seq<Node>, nodes': seq<Node>, order: seq<nat>, p: nat)
    requires p < |order| && Known(order, |nodes|)
  {
    && |nodes'| == |nodes|
    && (p > 0 ==> nodes'[order[p - 1]] == nodes[order[p - 1]].(next := if p + 1 < |order| then order[p + 1] else Invalid))
    && (p + 1 < |order| ==> nodes'[order[p + 1]] == nodes[order[p + 1]].(previous := if p > 0 then order[p - 1] else Invalid))
    && (forall j :: 0 <= j < |nodes| && j != order[p] && (p > 0 ==> j != order[p - 1]) && (p + 1 < |order| ==> j != order[p + 1])
          ==> nodes'[j] == nodes[j])
  }

  lemma RemoveLinked(nodes: seq<Node>, nodes': seq<Node>, head: nat, order: seq<nat>, p: nat, i: nat)
    requires AddressOk(nodes, head, order) && p < |order| && LinkedOut(nodes, nodes', order, p) && i < |order| - 1
    ensures var order' := Drop(order, p);
      && order'[i] < |nodes'| && nodes'[order'[i]].free && ExtentOf(nodes'[order'[i]]) == ExtentOf(nodes[order'[i]])
      && nodes'[order'[i]].next == At(order', i + 1) && nodes'[order'[i]].previous == At(order', i - 1)
  {
    hide At, Canonical;
    var order' := Drop(order, p);
    var j := if i < p then i else i + 1;
    DropAt(order, p, i);
    if i + 1 < |order'| { DropAt(order, p, i + 1); }
    if 0 < i { DropAt(order, p, i - 1); }
    Neighbours(nodes, head, order, j);
    assert nodes[order[j]].free;
    DistinctAt(order, j, p);
    if 0 < p && j != p - 1 { DistinctAt(order, j, p - 1); }
    if p + 1 < |order| && j != p + 1 { DistinctAt(order, j, p + 1); }
    if 0 < p && p + 1 < |order| { DistinctAt(order, p - 1, p + 1); }
    hide AddressOk, Drop;
    Entry(nodes', order', i);
  }

  lemma RemoveCanonical(s: seq<Extent>, p: nat)
    requires Canonical(s) && p < |s|
    ensures Canonical(s[..p] + s[p + 1..])
  {
    CarveCanonical(s, p, s[p].offset, s[p].bytes);
    assert Carve(s, p, s[p].offset, s[p].bytes) == s[..p] + s[p + 1..];
  }

  lemma DropFirst(s: seq<nat>, p: nat)
    requires p < |s|
    ensures First(Drop(s, p)) == if p == 0 then At(s, 1) else First(s)
  { }

  lemma RemoveAddressOk(nodes: seq<Node>, nodes': seq<Node>, head: nat, order: seq<nat>, p: nat)
    requires AddressOk(nodes, head, order) && p < |order| && LinkedOut(nodes, nodes', order, p)
    ensures AddressOk(nodes', if p == 0 then At(order, 1) else head, Drop(order, p))
    ensures var s := ExtentsOf(nodes, order); ExtentsOf(nodes', Drop(order, p)) == s[..p] + s[p + 1..]
  {
    hide At, Canonical, Distinct;
    var order', s := Drop(order, p), ExtentsOf(nodes, order);
    DropFirst(order, p);
    DropDistinct(order, p);
    assert |nodes'| == |nodes| <= Invalid;
    hide LinkedOut;
    RemoveCanonical(s, p);
    forall i | 0 <= i < |order'|
      ensures order'[i] < |nodes'| && nodes'[order'[i]].free
      ensures nodes'[order'[i]].next == At(order', i + 1) && nodes'[order'[i]].previous == At(order', i - 1)
      ensures ExtentOf(nodes'[order'[i]]) == (s[..p] + s[p + 1..])[i]
    {
      RemoveLinked(nodes, nodes', head, order, p, i);
      DropAt(order, p, i);
    }
    assert ExtentsOf(nodes', order') == s[..p] + s[p + 1..];
  }

  /** Changing one entry's extent in place. */
  lemma ResizeAddressOk(nodes: seq<Node>, nodes': seq<Node>, head: nat, order: seq<nat>, p: nat, e: Extent)
    requires AddressOk(nodes, head, order) && p < |order|
    requires nodes' == nodes[order[p] := nodes[order[p]].(offset := e.offset, bytes := e.bytes)]
    requires Canonical(ExtentsOf(nodes, order)[p := e])
    ensures AddressOk(nodes', head, order) && ExtentsOf(nodes', order) == ExtentsOf(nodes, order)[p := e]
  {
    hide At, Canonical;
    assert ExtentsOf(nodes', order) == ExtentsOf(nodes, order)[p := e];
  }

  // ------------------------------------------------------------------ pools

  ghost predicate SameBinFields(n: Node, n': Node) {
    n'.bin == n.bin && n'.binNext == n.binNext && n'.binPrevious == n.binPrevious && n'.bytes == n.bytes
  }

  /** Address changes that leave every binned node's bin fields alone keep the bins. */
  lemma BinsKept(nodes: seq<Node>, nodes': seq<Node>, pool: Pool, head: nat, bins: seq<seq<nat>>)
    requires BinsOk(nodes, pool, bins) && |nodes'| == |nodes|
    requires forall b, x :: 0 <= b < |bins| && x in bins[b] && x < |nodes| ==> SameBinFields(nodes[x], nodes'[x])
    ensures BinsOk(nodes', pool.(head := head), bins)
  {
    hide At, Distinct;
    forall b | 0 <= b < BinCount ensures BinOk(nodes', pool.heads[b], pool.bits[b], b, bins[b]) {
      assert BinOk(nodes, pool.heads[b], pool.bits[b], b, bins[b]);
      forall i | 0 <= i < |bins[b]| ensures SameBinFields(nodes[bins[b][i]], nodes'[bins[b][i]]) {
        assert bins[b][i] in bins[b];
      }
    }
  }

  lemma PoolResize(nodes: seq<Node>, nodes': seq<Node>, pool: Pool, ix: Index, loose: set<nat>, p: nat, e: Extent)
    requires PoolOk(nodes, pool, ix, loose) && p < |ix.order| && ix.order[p] in loose
    requires nodes' == nodes[ix.order[p] := nodes[ix.order[p]].(offset := e.offset, bytes := e.bytes)]
    requires Canonical(ExtentsOf(nodes, ix.order)[p := e])
    ensures PoolOk(nodes', pool, ix, loose) && ExtentsOf(nodes', ix.order) == ExtentsOf(nodes, ix.order)[p := e]
  {
    hide Linked, BinOk, Canonical, Distinct;
    ResizeAddressOk(nodes, nodes', pool.head, ix.order, p, e);
    BinsKept(nodes, nodes', pool, pool.head, ix.bins);
  }

  lemma PoolInsert(nodes: seq<Node>, nodes': seq<Node>, pool: Pool, ix: Index, loose: set<nat>, p: nat, y: nat, e: Extent)
    requires PoolOk(nodes, pool, ix, loose) && p <= |ix.order| && y !in ix.order && LinkedIn(nodes, nodes', ix.order, p, y, e)
    requires var s := ExtentsOf(nodes, ix.order); Canonical(s[..p] + [e] + s[p..])
    ensures PoolOk(nodes', pool.(head := if p == 0 then y else pool.head), ix.(order := Insert(ix.order, p, y)), loose + {y})
    ensures var s := ExtentsOf(nodes, ix.order); ExtentsOf(nodes', Insert(ix.order, p, y)) == s[..p] + [e] + s[p..]
  {
    hide Linked, BinOk, Canonical, At;
    var head' := if p == 0 then y else pool.head;
    InsertAddressOk(nodes, nodes', pool.head, ix.order, p, y, e);
    InsertDistinct(ix.order, p, y);
    BinsKept(nodes, nodes', pool, head', ix.bins);
    hide Distinct, BinsOk, Insert;
    assert forall j :: 0 <= j < |nodes| && j != y ==> nodes'[j].bin == nodes[j].bin;
    var ix' := ix.(order := Insert(ix.order, p, y));
    forall i | 0 <= i < |ix'.order| && ix'.order[i] !in loose + {y}
      ensures nodes'[ix'.order[i]].bin < |ix'.bins| && ix'.order[i] in ix'.bins[nodes'[ix'.order[i]].bin]
    {
      assert ix'.order[i] in ix'.order;
      assert ix'.order[i] in ix.order;
    }
  }

  lemma PoolRemove(nodes: seq<Node>, nodes': seq<Node>, pool: Pool, ix: Index, loose: set<nat>, p: nat)
    requires PoolOk(nodes, pool, ix, loose) && p < |ix.order| && ix.order[p] in loose && LinkedOut(nodes, nodes', ix.order, p)
    ensures PoolOk(nodes', pool.(head := if p == 0 then At(ix.order, 1) else pool.head), ix.(order := Drop(ix.order, p)), loose - {ix.order[p]})
    ensures var s := ExtentsOf(nodes, ix.order); ExtentsOf(nodes', Drop(ix.order, p)) == s[..p] + s[p + 1..]
  {
    hide Linked, BinOk, Canonical, At;
    var head' := if p == 0 then At(ix.order, 1) else pool.head;
    RemoveAddressOk(nodes, nodes', pool.head, ix.order, p);
    DropDistinct(ix.order, p);
    BinsKept(nodes, nodes', pool, head', ix.bins);
    hide Distinct, BinsOk, Drop;
    assert forall j :: 0 <= j < |nodes| && j != ix.order[p] ==> nodes'[j].bin == nodes[j].bin;
    var ix' := ix.(order := Drop(ix.order, p));
    forall i | 0 <= i < |ix'.order| && ix'.order[i] !in loose - {ix.order[p]}
      ensures nodes'[ix'.order[i]].bin < |ix'.bins| && ix'.order[i] in ix'.bins[nodes'[ix'.order[i]].bin]
    {
      assert ix'.order[i] in ix'.order;
      assert ix'.order[i] in ix.order;
    }
  }

  lemma PoolFrame(nodes: seq<Node>, nodes': seq<Node>, pool: Pool, ix: Index, loose: set<nat>)
    requires PoolOk(nodes, pool, ix, loose) && |nodes'| == |nodes|
    requires forall j :: j in ix.order && j < |nodes| ==> nodes'[j] == nodes[j]
    ensures PoolOk(nodes', pool, ix, loose) && ExtentsOf(nodes', ix.order) == ExtentsOf(nodes, ix.order)
  {
    hide At, BinOk, Distinct;
    forall i | 0 <= i < |ix.order| ensures nodes'[ix.order[i]] == nodes[ix.order[i]] { assert ix.order[i] in ix.order; }
    assert ExtentsOf(nodes', ix.order) == ExtentsOf(nodes, ix.order);
    BinsKept(nodes, nodes', pool, pool.head, ix.bins);
  }

  /** A node taken off the unused list. */
  lemma UnusedPop(nodes: seq<Node>, nodes': seq<Node>, head: nat, unused: seq<nat>)
    requires UnusedOk(nodes, head, unused) && unused != [] && |nodes'| == |nodes|
    requires forall j :: j in unused && j < |nodes| && j != head ==> nodes'[j] == nodes[j]
    ensures UnusedOk(nodes', nodes[head].next, unused[1..])
  {
    var rest := unused[1..];
    forall i | 0 <= i < |rest|
      ensures rest[i] < |nodes'| && nodes'[rest[i]].next == At(rest, i + 1) && !nodes'[rest[i]].free
    {
      assert rest[i] == unused[i + 1] && unused[i + 1] in unused;
    }
    assert nodes[unused[0]].next == At(unused, 1);
  }

  /** A node pushed onto the unused list. */
  lemma UnusedPush(nodes: seq<Node>, nodes': seq<Node>, head: nat, unused: seq<nat>, x: nat)
    requires UnusedOk(nodes, head, unused) && x < |nodes| == |nodes'| <= Invalid && x !in unused
    requires forall j :: j in unused && j < |nodes| ==> nodes'[j] == nodes[j]
    requires nodes'[x].next == head && !nodes'[x].free
    ensures UnusedOk(nodes', x, [x] + unused)
  {
    var all := [x] + unused;
    forall i | 0 <= i < |all|
      ensures all[i] < |nodes'| && nodes'[all[i]].next == At(all, i + 1) && !nodes'[all[i]].free
    {
      if i > 0 {
        assert all[i] == unused[i - 1] && unused[i - 1] in unused;
      }
    }
  }
}
