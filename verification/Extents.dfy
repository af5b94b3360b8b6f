/**
 Free storage of one pool as a list of extents in address order, without the index structures
 that make it fast: what taking a piece out and giving one back mean for the free bytes.
 */
module Extents {

  datatype Extent = Extent(offset: nat, bytes: nat)

  function End(e: Extent): nat {
    e.offset + e.bytes
  }

  predicate Contains(e: Extent, x: nat) {
    e.offset <= x < End(e)
  }

  predicate Disjoint(a: Extent, b: Extent) {
    End(a) <= b.offset || End(b) <= a.offset
  }

  predicate Inside(e: Extent, whole: Extent) {
    whole.offset <= e.offset && End(e) <= End(whole)
  }

  /** Sorted, without empty extents, and maximally coalesced: a used byte separates neighbours. */
  predicate Canonical(s: seq<Extent>) {
    && (forall i :: 0 <= i < |s| ==> s[i].bytes > 0)
    && (forall i, j :: 0 <= i < j < |s| ==> End(s[i]) < s[j].offset)
  }

  predicate Covers(s: seq<Extent>, x: nat) {
    exists i :: 0 <= i < |s| && Contains(s[i], x)
  }

  ghost predicate SameBytes(a: seq<Extent>, b: seq<Extent>) {
    forall x :: Covers(a, x) <==> Covers(b, x)
  }

  /** In a canonical list the first extent reaches exactly to the first free byte's run end. */
  lemma FirstRun(s: seq<Extent>, x: nat)
    requires Canonical(s) && s != []
    ensures x < s[0].offset ==> !Covers(s, x)
    ensures s[0].offset <= x < End(s[0]) ==> Covers(s, x)
    ensures !Covers(s, End(s[0]))
  {
    if s[0].offset <= x < End(s[0]) {
      assert Contains(s[0], x);
    }
    forall i | 0 <= i < |s| ensures !Contains(s[i], End(s[0])) && (x < s[0].offset ==> !Contains(s[i], x)) {
      if i > 0 { assert End(s[0]) < s[i].offset; }
    }
  }

  lemma TailCovers(s: seq<Extent>, x: nat)
    requires Canonical(s) && s != []
    ensures Covers(s[1..], x) <==> Covers(s, x) && !Contains(s[0], x)
  {
    if Covers(s[1..], x) {
      var i :| 0 <= i < |s[1..]| && Contains(s[1..][i], x);
      assert s[1..][i] == s[i + 1] && Contains(s[i + 1], x);
    }
    if Covers(s, x) && !Contains(s[0], x) {
      var i :| 0 <= i < |s| && Contains(s[i], x);
      assert s[1..][i - 1] == s[i];
    }
  }

  lemma CanonicalTail(s: seq<Extent>)
    requires Canonical(s) && s != []
    ensures Canonical(s[1..])
  { }

  /** The free list is determined by the free bytes. */
  lemma {:induction false} CanonicalUnique(a: seq<Extent>, b: seq<Extent>)
    requires Canonical(a) && Canonical(b) && SameBytes(a, b)
    ensures a == b
  {
    if a == [] || b == [] {
      if a != [] { FirstRun(a, a[0].offset); }
      if b != [] { FirstRun(b, b[0].offset); }
    } else {
      SameFirst(a, b);
      CanonicalTail(a);
      CanonicalTail(b);
      forall x ensures Covers(a[1..], x) <==> Covers(b[1..], x) {
        TailCovers(a, x);
        TailCovers(b, x);
      }
      CanonicalUnique(a[1..], b[1..]);
    }
  }

  lemma SameFirst(a: seq<Extent>, b: seq<Extent>)
    requires Canonical(a) && Canonical(b) && SameBytes(a, b) && a != [] && b != []
    ensures a[0] == b[0]
  {
    FirstRun(a, a[0].offset);
    FirstRun(b, b[0].offset);
    FirstRun(a, b[0].offset);
    FirstRun(b, a[0].offset);
    assert Covers(a, a[0].offset) && Covers(b, b[0].offset);
    assert a[0].offset == b[0].offset;
    FirstRun(a, End(b[0]));
    FirstRun(b, End(a[0]));
  }

  // ------------------------------------------------------------------ taking a piece out

  /** What is left of `e` around `[at, at + bytes)`. */
  function Pieces(e: Extent, at: nat, bytes: nat): seq<Extent>
    requires e.offset <= at && at + bytes <= End(e)
  {
    (if e.offset < at then [Extent(e.offset, at - e.offset)] else []) +
    (if at + bytes < End(e) then [Extent(at + bytes, End(e) - (at + bytes))] else [])
  }

  function Carve(s: seq<Extent>, p: nat, at: nat, bytes: nat): seq<Extent>
    requires p < |s| && s[p].offset <= at && at + bytes <= End(s[p])
  {
    s[..p] + Pieces(s[p], at, bytes) + s[p + 1..]
  }

  lemma CoversConcat(a: seq<Extent>, b: seq<Extent>, x: nat)
    ensures Covers(a + b, x) <==> Covers(a, x) || Covers(b, x)
  {
    if Covers(a, x) {
      var i :| 0 <= i < |a| && Contains(a[i], x);
      assert (a + b)[i] == a[i];
    }
    if Covers(b, x) {
      var i :| 0 <= i < |b| && Contains(b[i], x);
      assert (a + b)[|a| + i] == b[i];
    }
  }

  lemma CanonicalConcat(a: seq<Extent>, b: seq<Extent>)
    requires Canonical(a) && Canonical(b) && (a != [] && b != [] ==> End(a[|a| - 1]) < b[0].offset)
    ensures Canonical(a + b)
  {
    var r := a + b;
    forall i, j | 0 <= i < j < |r| ensures End(r[i]) < r[j].offset {
      if i < |a| <= j {
        assert i < |a| - 1 ==> End(a[i]) < a[|a| - 1].offset;
        assert 0 < j - |a| ==> End(b[0]) < b[j - |a|].offset;
      }
    }
  }

  /** Canonical neighbours around a canonical middle. */
  lemma CanonicalSplice(a: seq<Extent>, m: seq<Extent>, b: seq<Extent>)
    requires Canonical(a) && Canonical(m) && Canonical(b)
    requires a != [] && m != [] ==> End(a[|a| - 1]) < m[0].offset
    requires m != [] && b != [] ==> End(m[|m| - 1]) < b[0].offset
    requires a != [] && b != [] ==> End(a[|a| - 1]) < b[0].offset
    ensures Canonical(a + m + b)
  {
    CanonicalConcat(a, m);
    CanonicalConcat(a + m, b);
  }

  lemma CarveCanonical(s: seq<Extent>, p: nat, at: nat, bytes: nat)
    requires Canonical(s) && p < |s| && s[p].offset <= at && at + bytes <= End(s[p]) && bytes > 0
    ensures Canonical(Carve(s, p, at, bytes))
  {
    CanonicalSplice(s[..p], Pieces(s[p], at, bytes), s[p + 1..]);
  }

  /** Carving removes exactly the carved bytes. */
  lemma CarveCovers(s: seq<Extent>, p: nat, at: nat, bytes: nat, x: nat)
    requires Canonical(s) && p < |s| && s[p].offset <= at && at + bytes <= End(s[p]) && bytes > 0
    ensures Covers(Carve(s, p, at, bytes), x) <==> Covers(s, x) && !(at <= x < at + bytes)
  {
    var e := s[p];
    var pieces := Pieces(e, at, bytes);
    CoversConcat(s[..p], pieces, x);
    CoversConcat(s[..p] + pieces, s[p + 1..], x);
    CoversConcat(s[..p], [e], x);
    CoversConcat(s[..p] + [e], s[p + 1..], x);
    assert s == s[..p] + [e] + s[p + 1..];
    assert Covers([e], x) <==> Contains(e, x) by { assert [e][0] == e; }
    PiecesCover(e, at, bytes, x);
    if at <= x < at + bytes {
      Elsewhere(s, p, x);
    }
  }

  /** A byte of one extent of a canonical list is in no other. */
  lemma Elsewhere(s: seq<Extent>, p: nat, x: nat)
    requires Canonical(s) && p < |s| && Contains(s[p], x)
    ensures !Covers(s[..p], x) && !Covers(s[p + 1..], x)
  {
    forall i | 0 <= i < |s| && i != p ensures !Contains(s[i], x) {
      if i < p { assert End(s[i]) < s[p].offset; } else { assert End(s[p]) < s[i].offset; }
    }
  }

  lemma PiecesCover(e: Extent, at: nat, bytes: nat, x: nat)
    requires e.offset <= at && at + bytes <= End(e)
    ensures Covers(Pieces(e, at, bytes), x) <==> Contains(e, x) && !(at <= x < at + bytes)
  {
    var pieces := Pieces(e, at, bytes);
    if Contains(e, x) && x < at { assert Contains(pieces[0], x); }
    if Contains(e, x) && at + bytes <= x { assert Contains(pieces[|pieces| - 1], x); }
  }

  // ------------------------------------------------------------------ giving a piece back

  /** Where an extent starting at `offset` belongs: after every extent that starts before it. */
  predicate Place(s: seq<Extent>, offset: nat, p: nat) {
    && p <= |s|
    && (forall i :: 0 <= i < p ==> s[i].offset < offset)
    && (forall i :: p <= i < |s| ==> offset <= s[i].offset)
  }

  predicate Clash(s: seq<Extent>, p: nat, e: Extent)
    requires p <= |s|
  {
    (p > 0 && End(s[p - 1]) > e.offset) || (p < |s| && End(e) > s[p].offset)
  }

  predicate JoinsLeft(s: seq<Extent>, p: nat, e: Extent)
    requires p <= |s|
  {
    p > 0 && End(s[p - 1]) == e.offset
  }

  predicate JoinsRight(s: seq<Extent>, p: nat, e: Extent)
    requires p <= |s|
  {
    p < |s| && End(e) == s[p].offset
  }

  function Give(s: seq<Extent>, p: nat, e: Extent): seq<Extent>
    requires p <= |s|
  {
    if JoinsLeft(s, p, e) && JoinsRight(s, p, e) then
      s[..p - 1] + [Extent(s[p - 1].offset, s[p - 1].bytes + e.bytes + s[p].bytes)] + s[p + 1..]
    else if JoinsLeft(s, p, e) then s[p - 1 := Extent(s[p - 1].offset, s[p - 1].bytes + e.bytes)]
    else if JoinsRight(s, p, e) then s[p := Extent(e.offset, e.bytes + s[p].bytes)]
    else s[..p] + [e] + s[p..]
  }

  /** The two-neighbour test finds every overlap with the free bytes. */
  lemma ClashIff(s: seq<Extent>, p: nat, e: Extent)
    requires Canonical(s) && e.bytes > 0 && Place(s, e.offset, p)
    ensures Clash(s, p, e) <==> exists x :: Contains(e, x) && Covers(s, x)
  {
    if p > 0 && End(s[p - 1]) > e.offset {
      assert Contains(s[p - 1], e.offset) && Contains(e, e.offset);
    } else if p < |s| && End(e) > s[p].offset {
      assert Contains(s[p], s[p].offset) && Contains(e, s[p].offset);
    } else {
      forall x | Contains(e, x) ensures !Covers(s, x) {
        forall i | 0 <= i < |s| ensures !Contains(s[i], x) {
          if i < p - 1 { assert End(s[i]) < s[p - 1].offset; }
          if i > p { assert End(s[p]) < s[i].offset; }
        }
      }
    }
  }

  lemma GiveCanonical(s: seq<Extent>, p: nat, e: Extent)
    requires Canonical(s) && e.bytes > 0 && Place(s, e.offset, p) && !Clash(s, p, e)
    ensures Canonical(Give(s, p, e))
  {
    var lo, hi, joined := GiveShape(s, p, e);
    CanonicalSplice(s[..lo], [joined], s[hi..]);
  }

  /** Every case replaces the adjacent neighbours, if any, by one extent. */
  lemma GiveShape(s: seq<Extent>, p: nat, e: Extent) returns (lo: nat, hi: nat, joined: Extent)
    requires p <= |s| && e.bytes > 0
    ensures lo <= p <= hi <= |s|
    ensures lo == (if JoinsLeft(s, p, e) then p - 1 else p) && hi == (if JoinsRight(s, p, e) then p + 1 else p)
    ensures joined.offset == (if JoinsLeft(s, p, e) then s[p - 1].offset else e.offset)
    ensures End(joined) == (if JoinsRight(s, p, e) then End(s[p]) else End(e)) && joined.bytes >= e.bytes
    ensures Give(s, p, e) == s[..lo] + [joined] + s[hi..]
  {
    lo := if JoinsLeft(s, p, e) then p - 1 else p;
    hi := if JoinsRight(s, p, e) then p + 1 else p;
    var first := if JoinsLeft(s, p, e) then s[p - 1].offset else e.offset;
    var last := if JoinsRight(s, p, e) then End(s[p]) else End(e);
    joined := Extent(first, last - first);
  }

  /** Giving back adds exactly the returned bytes. */
  lemma GiveCovers(s: seq<Extent>, p: nat, e: Extent, x: nat)
    requires p <= |s| && e.bytes > 0
    ensures Covers(Give(s, p, e), x) <==> Covers(s, x) || Contains(e, x)
  {
    var lo, hi, joined := GiveShape(s, p, e);
    assert s == s[..lo] + s[lo..hi] + s[hi..];
    CoversConcat(s[..lo], [joined], x);
    CoversConcat(s[..lo] + [joined], s[hi..], x);
    CoversConcat(s[..lo], s[lo..hi], x);
    CoversConcat(s[..lo] + s[lo..hi], s[hi..], x);
    assert Covers([joined], x) <==> Contains(joined, x) by { assert [joined][0] == joined; }
    assert Contains(joined, x) <==> Covers(s[lo..hi], x) || Contains(e, x) by {
      if JoinsLeft(s, p, e) && Contains(s[p - 1], x) { assert Contains(s[lo..hi][0], x); }
      if JoinsRight(s, p, e) && Contains(s[p], x) { assert Contains(s[lo..hi][p - lo], x); }
    }
  }

  /** Giving back what was just carved out restores the exact list, wherever it was cut from. */
  lemma GiveCarve(s: seq<Extent>, p: nat, at: nat, bytes: nat, q: nat)
    requires Canonical(s) && p < |s| && s[p].offset <= at && at + bytes <= End(s[p]) && bytes > 0
    requires Place(Carve(s, p, at, bytes), at, q)
    ensures !Clash(Carve(s, p, at, bytes), q, Extent(at, bytes))
    ensures Give(Carve(s, p, at, bytes), q, Extent(at, bytes)) == s
  {
    var c, e := Carve(s, p, at, bytes), Extent(at, bytes);
    CarveCanonical(s, p, at, bytes);
    forall x ensures Covers(c, x) <==> Covers(s, x) && !Contains(e, x) { CarveCovers(s, p, at, bytes, x); }
    ClashIff(c, q, e);
    GiveCanonical(c, q, e);
    forall x ensures Covers(Give(c, q, e), x) <==> Covers(s, x) {
      GiveCovers(c, q, e, x);
      if Contains(e, x) { assert Contains(s[p], x); }
    }
    CanonicalUnique(Give(c, q, e), s);
  }

  // ------------------------------------------------------------------ conservation

  /** The free list and the live extents split the pool's bytes: each byte is in exactly one of them. */
  ghost predicate Partition(pool: Extent, free: seq<Extent>, live: map<nat, Extent>) {
    && Canonical(free)
    && (forall i :: 0 <= i < |free| ==> Inside(free[i], pool))
    && (forall k :: k in live ==> live[k].bytes > 0 && Inside(live[k], pool))
    && (forall j, k :: j in live && k in live && j != k ==> Disjoint(live[j], live[k]))
    && (forall x, k :: k in live && Contains(live[k], x) ==> !Covers(free, x))
    && (forall x :: Contains(pool, x) && !Covers(free, x) ==> Held(live, x))
  }

  ghost predicate Held(live: map<nat, Extent>, x: nat) {
    exists k :: k in live && Contains(live[k], x)
  }

  lemma CoveredInside(pool: Extent, free: seq<Extent>, e: Extent)
    requires forall i :: 0 <= i < |free| ==> Inside(free[i], pool)
    requires e.bytes > 0 && (forall x :: Contains(e, x) ==> Covers(free, x))
    ensures Inside(e, pool)
  {
    assert Contains(e, e.offset) && Contains(e, End(e) - 1);
    assert Covers(free, e.offset) && Covers(free, End(e) - 1);
  }

  /** Moving a carved extent to the live ones keeps the partition. */
  lemma CarveKeeps(pool: Extent, free: seq<Extent>, live: map<nat, Extent>, p: nat, at: nat, bytes: nat, key: nat)
    requires Partition(pool, free, live) && key !in live
    requires p < |free| && free[p].offset <= at && at + bytes <= End(free[p]) && bytes > 0
    ensures Partition(pool, Carve(free, p, at, bytes), live[key := Extent(at, bytes)])
  {
    var free', e := Carve(free, p, at, bytes), Extent(at, bytes);
    var live' := live[key := e];
    CarveCanonical(free, p, at, bytes);
    forall x ensures Covers(free', x) <==> Covers(free, x) && !Contains(e, x) { CarveCovers(free, p, at, bytes, x); }
    forall x | Contains(e, x) ensures Covers(free, x) { assert Contains(free[p], x); }
    forall i | 0 <= i < |free'| ensures Inside(free'[i], pool) {
      assert forall x :: Contains(free'[i], x) ==> Covers(free', x);
      CoveredInside(pool, free, free'[i]);
    }
    forall k | k in live ensures Disjoint(live[k], e) {
      if !Disjoint(live[k], e) {
        var x := if live[k].offset < e.offset then e.offset else live[k].offset;
        assert Contains(live[k], x) && Contains(e, x);
      }
    }
    forall x | Contains(pool, x) && !Covers(free', x) ensures Held(live', x) {
      if Covers(free, x) {
        assert Contains(live'[key], x);
      } else {
        var k :| k in live && Contains(live[k], x);
        assert Contains(live'[k], x);
      }
    }
  }

  /** A live extent never clashes, and giving it back keeps the partition. */
  lemma GiveKeeps(pool: Extent, free: seq<Extent>, live: map<nat, Extent>, key: nat, p: nat)
    requires Partition(pool, free, live) && key in live && Place(free, live[key].offset, p)
    ensures !Clash(free, p, live[key])
    ensures Partition(pool, Give(free, p, live[key]), live - {key})
  {
    var e := live[key];
    var free', live' := Give(free, p, e), live - {key};
    ClashIff(free, p, e);
    GiveCanonical(free, p, e);
    forall x ensures Covers(free', x) <==> Covers(free, x) || Contains(e, x) { GiveCovers(free, p, e, x); }
    forall i | 0 <= i < |free'| ensures Inside(free'[i], pool) { GiveInside(pool, free, p, e, i); }
    forall x, k | k in live' && Contains(live'[k], x) ensures !Covers(free', x) {
      assert Disjoint(live[k], e);
    }
    forall x | Contains(pool, x) && !Covers(free', x) ensures Held(live', x) {
      var k :| k in live && Contains(live[k], x);
      assert k in live';
    }
  }

  lemma GiveInside(pool: Extent, free: seq<Extent>, p: nat, e: Extent, i: nat)
    requires p <= |free| && Inside(e, pool) && (forall k :: 0 <= k < |free| ==> Inside(free[k], pool))
    requires i < |Give(free, p, e)|
    ensures Inside(Give(free, p, e)[i], pool)
  { }
}
