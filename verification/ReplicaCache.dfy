/**
 The replica cache of one host: a current and an old index of block copies, with the counts,
 byte total, shared holder bit and shared version marks that go with them. Calls run under the
 cache lock; what they leave behind is exact.
 */
module ReplicaCache {

  datatype Key = Key(base: nat, block: nat)

  datatype Replica = Replica(version: nat, size: nat, lastAccess: nat)

  type Entries = map<Key, Replica>

  // ------------------------------------------------------------------ totals

  ghost function Total(m: Entries): nat {
    if m == map[] then 0
    else
      var k :| k in m;
      m[k].size + Total(m - {k})
  }

  /** The total does not depend on the order of summation. */
  lemma {:induction false} TotalWithout(m: Entries, k: Key)
    requires k in m
    ensures Total(m) == m[k].size + Total(m - {k})
    decreases |m|
  {
    var j :| j in m && Total(m) == m[j].size + Total(m - {j});
    if j != k {
      TotalWithout(m - {j}, k);
      TotalWithout(m - {k}, j);
      assert m - {j} - {k} == m - {k} - {j};
    }
  }

  function KeysOf(m: Entries, base: nat): set<Key> {
    set k | k in m && k.base == base
  }

  ghost function Count(current: Entries, prior: Entries, base: nat): nat {
    |KeysOf(current, base)| + |KeysOf(prior, base)|
  }

  lemma KeysWithout(m: Entries, k: Key, base: nat)
    requires k in m
    ensures |KeysOf(m, base)| == |KeysOf(m - {k}, base)| + (if k.base == base then 1 else 0)
  {
    if k.base == base {
      assert KeysOf(m, base) == KeysOf(m - {k}, base) + {k};
    } else {
      assert KeysOf(m, base) == KeysOf(m - {k}, base);
    }
  }

  lemma KeysWith(m: Entries, k: Key, r: Replica, base: nat)
    requires k !in m
    ensures |KeysOf(m[k := r], base)| == |KeysOf(m, base)| + (if k.base == base then 1 else 0)
    ensures Total(m[k := r]) == Total(m) + r.size
  {
    KeysWithout(m[k := r], k, base);
    TotalWithout(m[k := r], k);
    assert m[k := r] - {k} == m;
  }

  function Mark(current: Entries, prior: Entries, k: Key): nat {
    if k in current then current[k].version + 1 else if k in prior then prior[k].version + 1 else 0
  }

  function Marked(marks: map<Key, nat>, k: Key): nat {
    if k in marks then marks[k] else 0
  }

  function Owing(owed: set<nat>, base: nat): nat {
    if base in owed then 1 else 0
  }

  /** An object is listed, with its number of copies, exactly while it has copies (or is owed one). */
  ghost predicate CountsOk(current: Entries, prior: Entries, counts: map<nat, nat>, owed: set<nat>) {
    && (forall base :: base in counts <==> Count(current, prior, base) + Owing(owed, base) > 0)
    && (forall base :: base in counts ==> counts[base] == Count(current, prior, base) + Owing(owed, base))
  }

  ghost predicate MarksOk(current: Entries, prior: Entries, marks: map<Key, nat>) {
    forall k :: Marked(marks, k) == Mark(current, prior, k)
  }

  /**
   The books balance. `owed` is an object whose count already includes an entry that is about
   to be added.
   */
  ghost predicate Books(current: Entries, prior: Entries, counts: map<nat, nat>, bytes: nat, holder: set<nat>, marks: map<Key, nat>, owed: set<nat>) {
    && current.Keys !! prior.Keys
    && bytes == Total(current) + Total(prior)
    && CountsOk(current, prior, counts, owed)
    && holder == counts.Keys
    && MarksOk(current, prior, marks)
  }

  function Less(counts: map<nat, nat>, base: nat): map<nat, nat>
    requires base in counts
  {
    if counts[base] <= 1 then counts - {base} else counts[base := counts[base] - 1]
  }

  lemma WithoutWith(m: Entries, k: Key, r: Replica)
    ensures (m - {k})[k := r] == m[k := r]
    ensures m - {k} - {k} == m - {k} && (k !in m ==> m - {k} == m)
  { }

  lemma LessKeys(counts: map<nat, nat>, base: nat)
    requires base in counts
    ensures Less(counts, base).Keys == if counts[base] <= 1 then counts.Keys - {base} else counts.Keys
  { }

  function SizeOf(current: Entries, prior: Entries, k: Key): nat
    requires k in current || k in prior
  {
    if k in current then current[k].size else prior[k].size
  }

  lemma CountWithout(current: Entries, prior: Entries, k: Key, base: nat)
    requires current.Keys !! prior.Keys && (k in current || k in prior)
    ensures Count(current, prior, base) == Count(current - {k}, prior - {k}, base) + (if base == k.base then 1 else 0)
  {
    if k in current {
      KeysWithout(current, k, base);
      assert prior - {k} == prior;
    } else {
      KeysWithout(prior, k, base);
      assert current - {k} == current;
    }
  }

  lemma EraseCounts(current: Entries, prior: Entries, counts: map<nat, nat>, owed: set<nat>, k: Key)
    requires current.Keys !! prior.Keys && CountsOk(current, prior, counts, owed) && (k in current || k in prior)
    ensures k.base in counts && counts[k.base] > 0 && CountsOk(current - {k}, prior - {k}, Less(counts, k.base), owed)
    ensures k.base in owed ==> counts[k.base] > 1
  {
    CountWithout(current, prior, k, k.base);
    hide Count;
    forall base ensures Count(current, prior, base) == Count(current - {k}, prior - {k}, base) + (if base == k.base then 1 else 0) {
      CountWithout(current, prior, k, base);
    }
  }

  /** Taking one entry out of either index. */
  lemma EraseBooks(current: Entries, prior: Entries, counts: map<nat, nat>, bytes: nat, holder: set<nat>, marks: map<Key, nat>, owed: set<nat>, k: Key)
    requires Books(current, prior, counts, bytes, holder, marks, owed) && (k in current || k in prior)
    ensures k.base in counts && counts[k.base] > 0 && (k.base in owed ==> counts[k.base] > 1)
    ensures k.base in owed ==> k.base in holder
    ensures SizeOf(current, prior, k) <= bytes
    ensures Books(current - {k}, prior - {k}, Less(counts, k.base), bytes - SizeOf(current, prior, k),
                  if counts[k.base] == 1 then holder - {k.base} else holder, marks[k := 0], owed)
  {
    EraseCounts(current, prior, counts, owed, k);
    LessKeys(counts, k.base);
    hide CountsOk, Total, Less;
    if k in current {
      TotalWithout(current, k);
      assert prior - {k} == prior;
    } else {
      TotalWithout(prior, k);
      assert current - {k} == current;
    }
    forall j ensures Marked(marks[k := 0], j) == Mark(current - {k}, prior - {k}, j) {
      assert Marked(marks, j) == Mark(current, prior, j);
    }
  }

  predicate Present(current: Entries, prior: Entries, k: Key) {
    k in current || k in prior
  }

  function AccessOf(current: Entries, prior: Entries, k: Key): nat
    requires Present(current, prior, k)
  {
    if k in current then current[k].lastAccess else prior[k].lastAccess
  }

  predicate Subset(m: Entries, whole: Entries) {
    forall k :: k in m ==> k in whole && m[k] == whole[k]
  }

  /** What remains is as it was, and was used no earlier than anything that went. */
  ghost predicate OldestGone(current: Entries, prior: Entries, current': Entries, prior': Entries) {
    && Subset(current', current) && Subset(prior', prior) && current.Keys !! prior.Keys
    && (forall e, j :: Present(current, prior, e) && !Present(current', prior', e) && Present(current', prior', j) ==>
          AccessOf(current, prior, e) <= AccessOf(current', prior', j))
  }

  lemma GoneNone(current: Entries, prior: Entries)
    requires current.Keys !! prior.Keys
    ensures OldestGone(current, prior, current, prior)
  { }

  lemma GoneStep(current: Entries, prior: Entries, current': Entries, prior': Entries, k: Key)
    requires OldestGone(current, prior, current', prior') && Present(current', prior', k)
    requires forall j :: Present(current', prior', j) ==> AccessOf(current', prior', k) <= AccessOf(current', prior', j)
    ensures OldestGone(current, prior, current' - {k}, prior' - {k})
  {
    var c, p := current' - {k}, prior' - {k};
    forall e, j | Present(current, prior, e) && !Present(c, p, e) && Present(c, p, j)
      ensures AccessOf(current, prior, e) <= AccessOf(c, p, j)
    {
      assert Present(current', prior', j) && AccessOf(c, p, j) == AccessOf(current', prior', j);
    }
  }

  /** Of what went, this copy was used last. */
  ghost predicate LastOut(current: Entries, prior: Entries, current': Entries, prior': Entries, k: Key) {
    && Present(current, prior, k) && !Present(current', prior', k)
    && (forall e :: Present(current, prior, e) && !Present(current', prior', e) ==> AccessOf(current, prior, e) <= AccessOf(current, prior, k))
  }

  /** Nothing went that could have stayed: with the last copy to go, a bound would still be exceeded. */
  ghost predicate Needed(current: Entries, prior: Entries, current': Entries, prior': Entries, bytes': nat, capacityEntries: nat, capacityBytes: nat) {
    || (current' == current && prior' == prior)
    || exists k :: LastOut(current, prior, current', prior', k) && TooMany(current, prior, current', prior', bytes', capacityEntries, capacityBytes, k)
  }

  predicate TooMany(current: Entries, prior: Entries, current': Entries, prior': Entries, bytes': nat, capacityEntries: nat, capacityBytes: nat, k: Key)
  {
    Present(current, prior, k) && (|current'| + |prior'| + 1 > capacityEntries || bytes' + SizeOf(current, prior, k) > capacityBytes)
  }

  lemma LastStep(current: Entries, prior: Entries, current': Entries, prior': Entries, k: Key)
    requires OldestGone(current, prior, current', prior') && Present(current', prior', k)
    ensures LastOut(current, prior, current' - {k}, prior' - {k}, k)
  {
    StaysAs(current, prior, current', prior', k);
    forall e | Present(current, prior, e) && !Present(current' - {k}, prior' - {k}, e)
      ensures AccessOf(current, prior, e) <= AccessOf(current, prior, k)
    {
      if e != k { GoneBefore(current, prior, current', prior', e, k); }
    }
    hide OldestGone;
  }

  /** What stays is the same copy. */
  lemma StaysAs(current: Entries, prior: Entries, current': Entries, prior': Entries, k: Key)
    requires OldestGone(current, prior, current', prior') && Present(current', prior', k)
    ensures Present(current, prior, k) && AccessOf(current, prior, k) == AccessOf(current', prior', k)
    ensures SizeOf(current, prior, k) == SizeOf(current', prior', k)
  { }

  lemma GoneBefore(current: Entries, prior: Entries, current': Entries, prior': Entries, e: Key, k: Key)
    requires OldestGone(current, prior, current', prior') && Present(current', prior', k)
    requires Present(current, prior, e) && !Present(current', prior', e)
    ensures Present(current, prior, k) && AccessOf(current, prior, e) <= AccessOf(current, prior, k) && k != e
  {
    StaysAs(current, prior, current', prior', k);
  }

  lemma OneFewer(current: Entries, prior: Entries, k: Key)
    requires Present(current, prior, k) && current.Keys !! prior.Keys
    ensures |current - {k}| + |prior - {k}| + 1 == |current| + |prior|
  {
    if k in current {
      Smaller(current, k);
      assert prior - {k} == prior;
    } else {
      Smaller(prior, k);
      assert current - {k} == current;
    }
  }

  /** No copy was used after now. */
  predicate Timed(current: Entries, prior: Entries, clock: nat) {
    (forall k :: k in current ==> current[k].lastAccess <= clock) && forall k :: k in prior ==> prior[k].lastAccess <= clock
  }

  /** The newest copy goes last, so it goes only if it does not fit alone. */
  lemma NewestStays(current: Entries, prior: Entries, current': Entries, prior': Entries, bytes': nat, capacityEntries: nat, capacityBytes: nat, k: Key)
    requires OldestGone(current, prior, current', prior') && Needed(current, prior, current', prior', bytes', capacityEntries, capacityBytes)
    requires Present(current, prior, k) && forall e :: Present(current, prior, e) && e != k ==> AccessOf(current, prior, e) < AccessOf(current, prior, k)
    requires |current'| + |prior'| == 0 ==> bytes' == 0
    ensures Present(current', prior', k) || capacityEntries == 0 || SizeOf(current, prior, k) > capacityBytes
  {
    if !Present(current', prior', k) {
      hide OldestGone;
      forall j ensures j !in current' && j !in prior' {
        if Present(current', prior', j) { GoneBefore(current, prior, current', prior', k, j); }
      }
      assert current'.Keys == {} && prior'.Keys == {};
    }
  }

  /** `m` is `whole` without some of the object's entries; those in `left` are still there. */
  ghost predicate Filtered(m: Entries, whole: Entries, left: set<Key>, base: nat) {
    && Subset(m, whole)
    && (forall k :: k in whole && k !in m ==> k.base == base)
    && (forall k :: k in m && k.base == base ==> k in left)
  }

  lemma FilterAll(m: Entries, left: set<Key>, base: nat)
    requires KeysOf(m, base) <= left
    ensures Filtered(m, m, left, base)
  {
    forall k | k in m && k.base == base ensures k in left { assert k in KeysOf(m, base); }
  }

  lemma FilterStep(m: Entries, whole: Entries, left: set<Key>, base: nat, k: Key)
    requires Filtered(m, whole, left, base) && k.base == base
    ensures Filtered(m - {k}, whole, left - {k}, base)
  { }

  lemma FilterDone(m: Entries, whole: Entries, base: nat)
    requires Filtered(m, whole, {}, base)
    ensures m == map k | k in whole && k.base != base :: whole[k]
  { }

  lemma EraseStep(current: Entries, prior: Entries, k: Key)
    requires Present(current, prior, k)
    ensures |current - {k}| + |prior - {k}| < |current| + |prior|
    ensures |current - {k}| <= |current| && |prior - {k}| <= |prior|
  {
    if k in current { Smaller(current, k); }
    if k in prior { Smaller(prior, k); }
    assert k !in current ==> current - {k} == current;
    assert k !in prior ==> prior - {k} == prior;
  }

  lemma KeysOfBoth(current: Entries, prior: Entries)
    requires |current| + |prior| > 0
    ensures current.Keys + prior.Keys != {}
  {
    assert |current.Keys| == |current| && |prior.Keys| == |prior|;
  }

  lemma Smaller(m: Entries, k: Key)
    requires k in m
    ensures |m - {k}| == |m| - 1
  {
    assert m.Keys == (m - {k}).Keys + {k};
    assert |m.Keys| == |m| && |(m - {k}).Keys| == |m - {k}|;
  }

  class Cache {
    const capacityEntries: nat
    const capacityBytes: nat
    var current: Entries
    var prior: Entries
    var counts: map<nat, nat>
    var bytes: nat
    var clock: nat
    /** Shared: the objects whose holder mask has this host's bit, and this host's version marks. */
    var holder: set<nat>
    var marks: map<Key, nat>
    /** Every clearing of the holder bit so far, oldest first. */
    ghost var cleared: seq<nat>

    ghost predicate Balanced(owed: set<nat>)
      reads this
    {
      Books(current, prior, counts, bytes, holder, marks, owed) && Timed(current, prior, clock)
    }

    ghost predicate Valid()
      reads this
    {
      Balanced({}) && Within()
    }

    ghost predicate Within()
      reads this
    {
      |current| + |prior| <= capacityEntries && bytes <= capacityBytes
    }

    constructor (capacityEntries: nat, capacityBytes: nat)
      ensures Valid() && current == map[] && prior == map[]
    {
      this.capacityEntries, this.capacityBytes := capacityEntries, capacityBytes;
      current, prior, counts, bytes, clock, holder, marks, cleared := map[], map[], map[], 0, 0, {}, map[], [];
    }

    /** Drops the copy of one block; the last copy of an object takes the holder bit with it. */
    method Erase(k: Key, ghost owed: set<nat>)
      requires Balanced(owed) && (k in current || k in prior)
      modifies this
      ensures Balanced(owed) && clock == old(clock)
      ensures current == old(current) - {k} && prior == old(prior) - {k}
      ensures bytes + SizeOf(old(current), old(prior), k) == old(bytes)
      ensures k.base in owed ==> cleared == old(cleared) && k.base in holder
      ensures cleared == old(cleared) || (cleared == old(cleared) + [k.base] && k.base !in holder)
    {
      hide Books, SizeOf, Less;
      EraseBooks(current, prior, counts, bytes, holder, marks, owed, k);
      var size := SizeOf(current, prior, k);
      marks := marks[k := 0];
      bytes := bytes - size;
      current, prior := current - {k}, prior - {k};
      if counts[k.base] == 1 {
        holder := holder - {k.base};
        cleared := cleared + [k.base];
      }
      counts := Less(counts, k.base);
    }

    /** A lookup in the current index; a hit makes the copy the most recently used. */
    method Lookup(k: Key) returns (found: bool, r: Replica)
      requires Valid()
      modifies this`current, this`clock
      ensures Valid() && (found <==> k in old(current))
      ensures found ==> r.version == old(current)[k].version && r.size == old(current)[k].size && clock == old(clock) + 1
      ensures current == if found then old(current)[k := old(current)[k].(lastAccess := clock)] else old(current)
    {
      r := Replica(0, 0, 0);
      found := k in current;
      if found {
        r := current[k];
        clock := clock + 1;
        TouchBooks(current, prior, counts, bytes, holder, marks, k, clock);
        hide Books;
        current := current[k := r.(lastAccess := clock)];
      }
    }

    /**
     Puts a copy into the current index, replacing any copy of the block. The object's holder
     bit is never cleared on the way, even when the replaced copy was its only one.
     */
    method Replace(k: Key, version: nat, size: nat)
      requires Balanced({})
      modifies this
      ensures Balanced({}) && cleared == old(cleared) && clock == old(clock) + 1 && k.base in holder
      ensures current == old(current)[k := Replica(version, size, clock)] && prior == old(prior) - {k}
    {
      hide Books;
      WithoutWith(current, k, Replica(version, size, clock + 1));
      WithoutWith(prior, k, Replica(version, size, clock + 1));
      Owe(k.base);
      if k in current { Erase(k, {k.base}); }
      if k in prior { Erase(k, {k.base}); }
      Add(k, version, size);
    }

    /** Counts an entry in advance, so that the object stays listed while its old copy goes. */
    method Owe(base: nat)
      requires Balanced({})
      modifies this`counts, this`holder
      ensures Balanced({base}) && base in holder
    {
      hide Books;
      OweBooks(current, prior, counts, bytes, holder, marks, base);
      if base !in counts { holder := holder + {base}; }
      counts := counts[base := (if base in counts then counts[base] else 0) + 1];
    }

    method Add(k: Key, version: nat, size: nat)
      requires Balanced({k.base}) && k !in current && k !in prior && k.base in holder
      modifies this`clock, this`bytes, this`current, this`marks
      ensures Balanced({}) && clock == old(clock) + 1
      ensures current == old(current)[k := Replica(version, size, clock)]
    {
      PayBooks(current, prior, counts, bytes, holder, marks, k, Replica(version, size, clock + 1));
      hide Books;
      clock := clock + 1;
      bytes := bytes + size;
      current := current[k := Replica(version, size, clock)];
      marks := marks[k := version + 1];
    }

    /** The least recently used copy of both indexes. */
    method FindVictim() returns (k: Key)
      requires |current| + |prior| > 0
      ensures Present(current, prior, k)
      ensures forall j :: Present(current, prior, j) ==> AccessOf(current, prior, k) <= AccessOf(current, prior, j)
    {
      var left := current.Keys + prior.Keys;
      KeysOfBoth(current, prior);
      k :| k in left;
      left := left - {k};
      while left != {}
        invariant Present(current, prior, k) && left <= current.Keys + prior.Keys
        invariant forall j :: Present(current, prior, j) && j !in left ==> AccessOf(current, prior, k) <= AccessOf(current, prior, j)
      {
        var j :| j in left;
        left := left - {j};
        if AccessOf(current, prior, j) < AccessOf(current, prior, k) { k := j; }
      }
    }

    /** Evicts until both bounds hold: what goes was never used more recently than what stays. */
    method EvictReplicas()
      requires Balanced({})
      modifies this
      ensures Valid() && clock == old(clock)
      ensures OldestGone(old(current), old(prior), current, prior)
      ensures Needed(old(current), old(prior), current, prior, bytes, capacityEntries, capacityBytes)
      ensures old(|current| + |prior|) <= capacityEntries && old(bytes) <= capacityBytes ==> current == old(current) && prior == old(prior)
      ensures |current| + |prior| == 0 ==> bytes == 0
    {
      EmptyBooks();
      hide Books, OldestGone, Subset, LastOut;
      GoneNone(current, prior);
      while (|current| + |prior| > capacityEntries || bytes > capacityBytes) && |current| + |prior| > 0
        invariant Balanced({}) && clock == old(clock) && (|current| + |prior| == 0 ==> bytes == 0)
        invariant OldestGone(old(current), old(prior), current, prior)
        invariant Needed(old(current), old(prior), current, prior, bytes, capacityEntries, capacityBytes)
        invariant old(|current| + |prior|) <= capacityEntries && old(bytes) <= capacityBytes ==> current == old(current) && prior == old(prior) && bytes == old(bytes)
        decreases |current| + |prior|
      {
        var k := FindVictim();
        EraseStep(current, prior, k);
        GoneStep(old(current), old(prior), current, prior, k);
        LastStep(old(current), old(prior), current, prior, k);
        StaysAs(old(current), old(prior), current, prior, k);
        DisjointBooks();
        OneFewer(current, prior, k);
        Erase(k, {});
        EmptyBooks();
        assert TooMany(old(current), old(prior), current, prior, bytes, capacityEntries, capacityBytes, k);
      }
    }

    lemma EmptyBooks()
      requires Balanced({})
      ensures |current| + |prior| == 0 ==> bytes == 0
    { }

    lemma DisjointBooks()
      requires Balanced({})
      ensures current.Keys !! prior.Keys
    { }

    /** Installs an accepted copy and brings the cache back within its bounds. */
    method CacheReplica(k: Key, version: nat, size: nat)
      requires Valid()
      modifies this
      ensures Valid() && clock == old(clock) + 1
      ensures Subset(current, old(current)[k := Replica(version, size, clock)]) && Subset(prior, old(prior) - {k})
      ensures k in current ==> Marked(marks, k) == version + 1
      ensures OldestGone(old(current)[k := Replica(version, size, clock)], old(prior) - {k}, current, prior)
      ensures Needed(old(current)[k := Replica(version, size, clock)], old(prior) - {k}, current, prior, bytes, capacityEntries, capacityBytes)
      ensures k in current || capacityEntries == 0 || size > capacityBytes
    {
      hide Books, Needed;
      Replace(k, version, size);
      ghost var c, p := current, prior;
      assert k !in p && c[k].lastAccess == clock && c[k].size == size;
      EvictReplicas();
      NewestStays(c, p, current, prior, bytes, capacityEntries, capacityBytes, k);
      if k in current { MarkOf(k); }
    }

    lemma MarkOf(k: Key)
      requires Balanced({}) && k in current
      ensures Marked(marks, k) == current[k].version + 1
    { }

    /** A writeback drops this host's own copy of the block it wrote. */
    method DropBlock(k: Key)
      requires Valid()
      modifies this
      ensures Valid() && current == old(current) - {k} && prior == old(prior) - {k} && clock == old(clock)
    {
      hide Books;
      WithoutWith(current, k, Replica(0, 0, 0));
      WithoutWith(prior, k, Replica(0, 0, 0));
      if Present(current, prior, k) {
        EraseStep(current, prior, k);
        Erase(k, {});
      }
    }

    /** Drops every copy of an object, and with them the holder bit. */
    method InvalidateObject(base: nat)
      requires Valid()
      modifies this
      ensures Valid() && clock == old(clock) && base !in holder
      ensures current == (map k | k in old(current) && k.base != base :: old(current)[k])
      ensures prior == (map k | k in old(prior) && k.base != base :: old(prior)[k])
    {
      hide Books;
      var left := KeysOf(current, base) + KeysOf(prior, base);
      FilterAll(current, left, base);
      FilterAll(prior, left, base);
      assert forall k :: k in left ==> k.base == base;
      hide Filtered, KeysOf, Subset;
      while left != {}
        invariant Valid() && clock == old(clock)
        invariant Filtered(current, old(current), left, base) && Filtered(prior, old(prior), left, base)
        invariant forall k :: k in left ==> k.base == base
      {
        var k :| k in left;
        FilterStep(current, old(current), left, base, k);
        FilterStep(prior, old(prior), left, base, k);
        DropBlock(k);
        left := left - {k};
      }
      FilterDone(current, old(current), base);
      FilterDone(prior, old(prior), base);
      NoneHeld(base);
    }

    lemma NoneHeld(base: nat)
      requires Balanced({}) && (forall k :: Present(current, prior, k) ==> k.base != base)
      ensures base !in holder
    {
      assert KeysOf(current, base) == {} && KeysOf(prior, base) == {};
    }

    /**
     The acquire boundary: unvalidated leftovers go, and every current copy becomes an old one
     that must be validated before it is used again.
     */
    method SynchronizeAcquire()
      requires Valid()
      modifies this
      ensures Valid() && clock == old(clock)
      ensures current == map[] && prior == old(current)
    {
      hide Books;
      while prior != map[]
        invariant Valid() && clock == old(clock) && current == old(current)
        decreases |prior|
      {
        var k :| k in prior;
        NotInBoth(k);
        EraseStep(current, prior, k);
        WithoutWith(current, k, Replica(0, 0, 0));
        Smaller(prior, k);
        Erase(k, {});
      }
      SwapBooks(current, counts, bytes, holder, marks);
      prior, current := current, map[];
    }

    lemma NotInBoth(k: Key)
      requires Balanced({}) && k in prior
      ensures k !in current
    { }
  }

  /** Access times are not part of the books. */
  lemma TouchBooks(current: Entries, prior: Entries, counts: map<nat, nat>, bytes: nat, holder: set<nat>, marks: map<Key, nat>, k: Key, time: nat)
    requires Books(current, prior, counts, bytes, holder, marks, {}) && k in current
    ensures var r := current[k].(lastAccess := time);
      Books(current[k := r], prior, counts, bytes, holder, marks, {}) && |current[k := r]| == |current|
  {
    var r := current[k].(lastAccess := time);
    TotalWithout(current, k);
    TotalWithout(current[k := r], k);
    assert current[k := r] - {k} == current - {k};
    forall base ensures Count(current[k := r], prior, base) == Count(current, prior, base) {
      assert KeysOf(current[k := r], base) == KeysOf(current, base);
    }
    assert current[k := r].Keys == current.Keys;
    hide Total;
    forall j ensures Marked(marks, j) == Mark(current[k := r], prior, j) { assert Marked(marks, j) == Mark(current, prior, j); }
  }

  lemma SwapBooks(current: Entries, counts: map<nat, nat>, bytes: nat, holder: set<nat>, marks: map<Key, nat>)
    requires Books(current, map[], counts, bytes, holder, marks, {})
    ensures Books(map[], current, counts, bytes, holder, marks, {})
  {
    forall base ensures Count(map[], current, base) == Count(current, map[], base) { }
    hide Count;
    forall k ensures Mark(map[], current, k) == Mark(current, map[], k) { }
    assert Total(map[]) == 0;
  }

  /** Counting the new entry before it is there. */
  lemma OweBooks(current: Entries, prior: Entries, counts: map<nat, nat>, bytes: nat, holder: set<nat>, marks: map<Key, nat>, base: nat)
    requires Books(current, prior, counts, bytes, holder, marks, {})
    ensures base in counts ==> base in holder
    ensures var more := counts[base := (if base in counts then counts[base] else 0) + 1];
      Books(current, prior, more, bytes, if base in counts then holder else holder + {base}, marks, {base})
  {
    hide Total, Count, MarksOk;
  }

  /** Adding the entry that was owed. */
  lemma PayBooks(current: Entries, prior: Entries, counts: map<nat, nat>, bytes: nat, holder: set<nat>, marks: map<Key, nat>, k: Key, r: Replica)
    requires Books(current, prior, counts, bytes, holder, marks, {k.base}) && k !in current && k !in prior
    ensures Books(current[k := r], prior, counts, bytes + r.size, holder, marks[k := r.version + 1], {})
  {
    forall base ensures Count(current[k := r], prior, base) == Count(current, prior, base) + Owing({k.base}, base) {
      KeysWith(current, k, r, base);
    }
    KeysWith(current, k, r, k.base);
    hide Total, Count;
    var marks' := marks[k := r.version + 1];
    forall j ensures Marked(marks', j) == Mark(current[k := r], prior, j) {
      assert Marked(marks, j) == Mark(current, prior, j);
    }
  }
}
