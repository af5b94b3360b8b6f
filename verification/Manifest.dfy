/**
 The function-manifest rendezvous: every host installs its sorted function table once, sends it
 entry by entry to every peer, and is ready when all peers' tables are complete and equal to its
 own. Fragments may arrive in any order, repeatedly, before or after the local installation.
 */
module Manifest {

  type Byte = bv8

  datatype Option<+T> = None | Some(value: T)

  const MaxFunctions: nat := 256
  const MaxName: nat := 63
  const MaxArgumentBytes: nat := 80

  datatype Descriptor = Descriptor(name: seq<Byte>, abi: nat, argumentBytes: nat, schema: nat)

  /** A local registration: the descriptor, the callback's identity and whether a callback is bound. */
  datatype Function = Function(descriptor: Descriptor, identity: nat, bound: bool)

  const Blank := Descriptor([], 0, 0, 0)

  /** `intact` stands for the magic, version and platform fields and a terminated name. */
  datatype Fragment = Fragment(source: nat, target: nat, count: nat, index: nat, descriptor: Descriptor, intact: bool)

  datatype Peer = Unseen | Seen(entries: seq<Option<Descriptor>>)

  datatype Registry = Registry(installed: bool, functions: seq<Function>, peers: seq<Peer>, ready: bool, failed: bool)

  datatype Status = Ok | InvalidArgument | AlreadyExists | FailedPrecondition | NotFound

  // ------------------------------------------------------------------ function identities

  const Basis: bv64 := 14695981039346656037

  function Spread(x: bv64): bv64 {
    x * 1099511628211
  }

  function Mix(id: bv64, c: Byte): bv64 {
    Spread(id ^ (c as bv64))
  }

  function Fold(id: bv64, name: seq<Byte>): bv64 {
    if name == [] then id else Mix(Fold(id, name[..|name| - 1]), name[|name| - 1])
  }

  function IdOf(name: seq<Byte>): bv64 {
    Fold(Basis, name)
  }

  method FunctionId(name: seq<Byte>) returns (id: bv64)
    ensures id == IdOf(name)
  {
    hide Mix;
    id := Basis;
    for i := 0 to |name|
      invariant id == Fold(Basis, name[..i])
    {
      assert name[..i + 1][..i] == name[..i];
      id := Mix(id, name[i]);
    }
    assert name[..|name|] == name;
  }

  // ------------------------------------------------------------------ sorting by name

  predicate Before(a: seq<Byte>, b: seq<Byte>) {
    if a == [] then b != []
    else if b == [] then false
    else a[0] < b[0] || (a[0] == b[0] && Before(a[1..], b[1..]))
  }

  lemma {:induction false} BeforeTotal(a: seq<Byte>, b: seq<Byte>)
    ensures Before(a, b) || a == b || Before(b, a)
  {
    if a != [] && b != [] && a[0] == b[0] {
      BeforeTotal(a[1..], b[1..]);
      assert a == [a[0]] + a[1..] && b == [b[0]] + b[1..];
    }
  }

  lemma {:induction false} BeforeTransitive(a: seq<Byte>, b: seq<Byte>, c: seq<Byte>)
    requires Before(a, b) && Before(b, c)
    ensures Before(a, c)
  {
    if a != [] && a[0] == b[0] == c[0] { BeforeTransitive(a[1..], b[1..], c[1..]); }
  }

  lemma {:induction false} BeforeIrreflexive(a: seq<Byte>)
    ensures !Before(a, a)
  {
    if a != [] { BeforeIrreflexive(a[1..]); }
  }

  function Insert(f: Function, fs: seq<Function>): (r: seq<Function>)
    ensures multiset(r) == multiset([f]) + multiset(fs)
  {
    if fs == [] then [f]
    else if Before(fs[0].descriptor.name, f.descriptor.name) then
      assert fs == [fs[0]] + fs[1..];
      [fs[0]] + Insert(f, fs[1..])
    else [f] + fs
  }

  function Sort(fs: seq<Function>): (r: seq<Function>)
    ensures multiset(r) == multiset(fs)
  {
    if fs == [] then []
    else
      assert fs == [fs[0]] + fs[1..];
      Insert(fs[0], Sort(fs[1..]))
  }

  ghost predicate Sorted(fs: seq<Function>) {
    forall i, j :: 0 <= i < j < |fs| ==> Before(fs[i].descriptor.name, fs[j].descriptor.name)
  }

  ghost predicate DistinctNames(fs: seq<Function>) {
    forall f: Function, g: Function :: f in multiset(fs) && g in multiset(fs) && f.descriptor.name == g.descriptor.name ==> f == g && multiset(fs)[f] == 1
  }

  lemma {:induction false} InsertSorted(f: Function, fs: seq<Function>)
    requires Sorted(fs) && forall g :: g in fs ==> g.descriptor.name != f.descriptor.name
    ensures Sorted(Insert(f, fs))
  {
    if fs != [] {
      var r := Insert(f, fs);
      if Before(fs[0].descriptor.name, f.descriptor.name) {
        InsertSorted(f, fs[1..]);
        var rest := Insert(f, fs[1..]);
        forall j | 0 <= j < |rest| ensures Before(fs[0].descriptor.name, rest[j].descriptor.name) {
          assert rest[j] in multiset(rest);
          assert rest[j] == f || rest[j] in fs[1..];
        }
      } else {
        BeforeTotal(fs[0].descriptor.name, f.descriptor.name);
        assert fs[0] in fs;
        forall j | 0 <= j < |fs| ensures Before(f.descriptor.name, fs[j].descriptor.name) {
          if j > 0 { BeforeTransitive(f.descriptor.name, fs[0].descriptor.name, fs[j].descriptor.name); }
        }
      }
    }
  }

  lemma {:induction false} SortSorted(fs: seq<Function>)
    requires DistinctNames(fs)
    ensures Sorted(Sort(fs))
  {
    if fs != [] {
      assert fs == [fs[0]] + fs[1..];
      var rest := fs[1..];
      assert multiset(fs) == multiset{fs[0]} + multiset(rest);
      forall f: Function, g: Function | f in multiset(rest) && g in multiset(rest) && f.descriptor.name == g.descriptor.name
        ensures f == g && multiset(rest)[f] == 1 { }
      SortSorted(rest);
      forall g | g in Sort(rest) ensures g.descriptor.name != fs[0].descriptor.name {
        assert g in multiset(Sort(rest));
        assert g in multiset(rest) && g in multiset(fs) && fs[0] in multiset(fs);
      }
      InsertSorted(fs[0], Sort(rest));
    }
  }

  /** A sorted table is determined by its entries, so hosts may register in any order. */
  lemma {:induction false} SortedUnique(a: seq<Function>, b: seq<Function>)
    requires Sorted(a) && Sorted(b) && multiset(a) == multiset(b)
    ensures a == b
  {
    hide Sorted;
    assert |a| == |multiset(a)| && |b| == |multiset(b)|;
    if a != [] {
      FirstEqual(a, b);
      SortedTail(a);
      SortedTail(b);
      SortedUnique(a[1..], b[1..]);
    }
  }

  lemma SortedTail(a: seq<Function>)
    requires Sorted(a) && a != []
    ensures Sorted(a[1..]) && a == [a[0]] + a[1..] && multiset(a[1..]) == multiset(a) - multiset{a[0]}
  {
    assert a == [a[0]] + a[1..];
  }

  lemma FirstEqual(a: seq<Function>, b: seq<Function>)
    requires Sorted(a) && Sorted(b) && multiset(a) == multiset(b) && a != [] && b != []
    ensures a[0] == b[0]
  {
    assert a[0] in multiset(b) && b[0] in multiset(a);
    var i :| 0 <= i < |b| && b[i] == a[0];
    var j :| 0 <= j < |a| && a[j] == b[0];
    if i > 0 && j > 0 {
      BeforeTransitive(a[0].descriptor.name, b[0].descriptor.name, a[0].descriptor.name);
      BeforeIrreflexive(a[0].descriptor.name);
    }
  }

  lemma OrderIrrelevant(a: seq<Function>, b: seq<Function>)
    requires DistinctNames(a) && multiset(a) == multiset(b)
    ensures Sort(a) == Sort(b)
  {
    SortSorted(a);
    SortSorted(b);
    SortedUnique(Sort(a), Sort(b));
  }

  // ------------------------------------------------------------------ installation

  function Describe(fs: seq<Function>): (r: seq<Descriptor>)
    ensures |r| == |fs| && forall i :: 0 <= i < |r| ==> r[i] == fs[i].descriptor
  {
    seq(|fs|, i requires 0 <= i < |fs| => fs[i].descriptor)
  }

  predicate ValidDescriptor(d: Descriptor) {
    && 0 < |d.name| <= MaxName && (forall i :: 0 <= i < |d.name| ==> d.name[i] != 0)
    && d.abi != 0 && d.schema != 0 && d.argumentBytes <= MaxArgumentBytes
  }

  predicate ValidFunction(f: Function) {
    ValidDescriptor(f.descriptor) && f.bound && f.identity != 0
  }

  predicate Clashes(f: Function, g: Function) {
    IdOf(f.descriptor.name) == IdOf(g.descriptor.name) || f.identity == g.identity
  }

  /** The check of a sorted table, entry by entry. */
  function Scan(fs: seq<Function>, i: nat): (r: Status)
    requires i <= |fs|
    ensures r == Ok ==> forall j :: i <= j < |fs| ==> ValidFunction(fs[j]) && forall k :: 0 <= k < j ==> !Clashes(fs[k], fs[j])
    decreases |fs| - i
  {
    if i == |fs| then Ok
    else if !ValidFunction(fs[i]) then InvalidArgument
    else if exists k :: 0 <= k < i && Clashes(fs[k], fs[i]) then AlreadyExists
    else Scan(fs, i + 1)
  }

  predicate Mismatch(p: Peer, table: seq<Descriptor>) {
    p.Seen? && (|p.entries| != |table| || exists i :: 0 <= i < |table| && p.entries[i].Some? && p.entries[i].value != table[i])
  }

  predicate Complete(p: Peer) {
    p.Seen? && forall i :: 0 <= i < |p.entries| ==> p.entries[i].Some?
  }

  predicate Disagrees(r: Registry, self: nat) {
    exists h :: 0 <= h < |r.peers| && h != self && Mismatch(r.peers[h], Describe(r.functions))
  }

  predicate AllComplete(r: Registry, self: nat) {
    forall h :: 0 <= h < |r.peers| && h != self ==> Complete(r.peers[h])
  }

  function Check(r: Registry, self: nat): Registry {
    if !r.installed || r.failed then r
    else r.(failed := Disagrees(r, self), ready := !Disagrees(r, self) && AllComplete(r, self))
  }

  datatype Effect = Effect(registry: Registry, status: Status)

  function Install(r: Registry, self: nat, functions: seq<Function>): Effect {
    if |functions| > MaxFunctions then Effect(r, InvalidArgument)
    else
      var fs := Sort(functions);
      if Scan(fs, 0) != Ok then Effect(r, Scan(fs, 0))
      else if r.installed then
        if Describe(fs) != Describe(r.functions) then Effect(r, FailedPrecondition)
        else if exists i :: 0 <= i < |fs| && fs[i].identity != r.functions[i].identity then Effect(r, AlreadyExists)
        else Effect(r, Ok)
      else Effect(Check(r.(installed := true, functions := fs), self), Ok)
  }

  // ------------------------------------------------------------------ fragments

  function AtLeastOne(n: nat): nat {
    if n == 0 then 1 else n
  }

  /** What host `source` sends for the `i`-th entry of its table; an empty table still shows itself. */
  function FragmentOf(source: nat, target: nat, table: seq<Descriptor>, i: nat): Fragment
    requires i < AtLeastOne(|table|)
  {
    Fragment(source, target, |table|, i, if table == [] then Blank else table[i], true)
  }

  predicate WellFormed(f: Fragment) {
    && f.intact && f.count <= MaxFunctions && f.index < AtLeastOne(f.count)
    && (f.count > 0 ==> f.descriptor.name != [] && f.descriptor.abi != 0 && f.descriptor.schema != 0 && f.descriptor.argumentBytes <= MaxArgumentBytes)
  }

  function Reject(r: Registry): Effect {
    Effect(r.(ready := false, failed := true), InvalidArgument)
  }

  function Handle(r: Registry, self: nat, f: Fragment): Effect {
    if f.target != self || f.source >= |r.peers| || f.source == self then Effect(r, InvalidArgument)
    else if !WellFormed(f) then Reject(r)
    else
      var p := r.peers[f.source];
      if p.Seen? && |p.entries| != f.count then Reject(r)
      else
        var entries := if p.Seen? then p.entries else seq(f.count, _ => None);
        if f.count == 0 then Effect(Check(r.(peers := r.peers[f.source := Seen(entries)]), self), Ok)
        else if entries[f.index].Some? && entries[f.index].value != f.descriptor then
          // The conflicting fragment is refused after the peer was marked as seen.
          Reject(r.(peers := r.peers[f.source := Seen(entries)]))
        else Effect(Check(r.(peers := r.peers[f.source := Seen(entries[f.index := Some(f.descriptor)])]), self), Ok)
  }

  /** The table position of a function identity, or the table's length. */
  function Find(table: seq<Descriptor>, id: bv64): (i: nat)
    ensures i <= |table| && (i < |table| ==> IdOf(table[i].name) == id)
    ensures forall j :: 0 <= j < i ==> IdOf(table[j].name) != id
  {
    if table == [] then 0
    else if IdOf(table[0].name) == id then 0
    else 1 + Find(table[1..], id)
  }

  datatype Resolution = Resolved(descriptor: Descriptor) | Refused(status: Status)

  function Resolve(r: Registry, id: bv64, argumentBytes: nat, requireReady: bool): Resolution {
    if r.failed then Refused(FailedPrecondition)
    else if !r.installed || (requireReady && !r.ready) then Refused(FailedPrecondition)
    else
      var table := Describe(r.functions);
      var i := Find(table, id);
      if i == |table| then Refused(NotFound)
      else if argumentBytes != table[i].argumentBytes then Refused(InvalidArgument)
      else Resolved(table[i])
  }

  // ------------------------------------------------------------------ the cluster

  /** `net` holds every fragment ever sent; `delivered[h]` those host `h` has handled at least once. */
  datatype Sys = Sys(registries: seq<Registry>, net: set<Fragment>, delivered: seq<set<Fragment>>)

  datatype Action = DoInstall(host: nat, functions: seq<Function>) | Deliver(fragment: Fragment)

  predicate Enabled(s: Sys, x: Action) {
    && |s.delivered| == |s.registries|
    && match x
       case DoInstall(h, _) => h < |s.registries|
       case Deliver(f) => f in s.net && f.target < |s.registries|
  }

  function Table(s: Sys, h: nat): seq<Descriptor>
    requires h < |s.registries|
  {
    Describe(s.registries[h].functions)
  }

  function Advertised(h: nat, n: nat, table: seq<Descriptor>): set<Fragment> {
    set t, i | 0 <= t < n && t != h && 0 <= i < AtLeastOne(|table|) :: FragmentOf(h, t, table, i)
  }

  function Next(s: Sys, x: Action): Sys
    requires Enabled(s, x)
  {
    match x
    case DoInstall(h, functions) =>
      var o := Install(s.registries[h], h, functions);
      s.(registries := s.registries[h := o.registry],
         net := if o.registry.installed && !s.registries[h].installed
                then s.net + Advertised(h, |s.registries|, Describe(o.registry.functions)) else s.net)
    case Deliver(f) =>
      var h := f.target;
      s.(registries := s.registries[h := Handle(s.registries[h], h, f).registry],
         delivered := s.delivered[h := s.delivered[h] + {f}])
  }

  function Init(n: nat): Sys {
    Sys(seq(n, _ => Registry(false, [], seq(n, _ => Unseen), false, false)), {}, seq(n, _ => {}))
  }

  /** What a host knows of a peer is what has been delivered of the peer's table. */
  ghost predicate PeerOk(p: Peer, delivered: set<Fragment>, source: nat, target: nat, table: seq<Descriptor>) {
    && (p.Unseen? <==> forall i :: 0 <= i < AtLeastOne(|table|) ==> FragmentOf(source, target, table, i) !in delivered)
    && (p.Seen? ==> |p.entries| == |table| && forall i :: 0 <= i < |table| ==>
          p.entries[i] == if FragmentOf(source, target, table, i) in delivered then Some(table[i]) else None)
  }

  ghost predicate RegistryOk(r: Registry, self: nat, n: nat) {
    && |r.peers| == n && |r.functions| <= MaxFunctions
    && (forall i :: 0 <= i < |r.functions| ==> ValidDescriptor(r.functions[i].descriptor))
    && (!r.installed ==> r.functions == [] && !r.ready && !r.failed)
    && (r.installed ==> (r.failed <==> Disagrees(r, self)) && (r.ready <==> !r.failed && AllComplete(r, self)))
  }

  ghost predicate Genuine(s: Sys, f: Fragment) {
    && f.source < |s.registries| && f.target < |s.registries| && f.source != f.target
    && s.registries[f.source].installed && f.index < AtLeastOne(|Table(s, f.source)|)
    && f == FragmentOf(f.source, f.target, Table(s, f.source), f.index)
  }

  ghost predicate KnowsPeers(s: Sys, h: nat)
    requires h < |s.registries| == |s.delivered|
  {
    && |s.registries[h].peers| == |s.registries|
    && forall k :: 0 <= k < |s.registries| && k != h ==> PeerOk(s.registries[h].peers[k], s.delivered[h], k, h, Table(s, k))
  }

  ghost predicate Inv(s: Sys) {
    && |s.delivered| == |s.registries|
    && (forall h :: 0 <= h < |s.registries| ==> RegistryOk(s.registries[h], h, |s.registries|))
    && (forall h :: 0 <= h < |s.registries| ==> KnowsPeers(s, h))
    && (forall f :: f in s.net ==> Genuine(s, f))
    && (forall h, f :: 0 <= h < |s.registries| && f in s.delivered[h] ==> f in s.net && f.target == h)
  }

  lemma InitInv(n: nat)
    ensures Inv(Init(n))
  { }

  lemma CheckOk(r: Registry, self: nat, n: nat)
    requires |r.peers| == n && |r.functions| <= MaxFunctions
    requires forall i :: 0 <= i < |r.functions| ==> ValidDescriptor(r.functions[i].descriptor)
    requires !r.installed ==> r.functions == [] && !r.ready
    requires r.failed ==> r.installed && Disagrees(r, self) && !r.ready
    ensures RegistryOk(Check(r, self), self, n)
  { }

  lemma InstallEffect(r: Registry, h: nat, n: nat, functions: seq<Function>)
    requires RegistryOk(r, h, n)
    ensures var o := Install(r, h, functions).registry;
      && RegistryOk(o, h, n) && o.peers == r.peers
      && (o != r ==> !r.installed && o.installed)
      && (r.installed ==> o == r)
  {
    var fs := Sort(functions);
    assert |fs| == |multiset(fs)| == |multiset(functions)| == |functions|;
    if !r.installed && Install(r, h, functions).registry != r {
      CheckOk(r.(installed := true, functions := fs), h, n);
    }
  }

  lemma InstallKeeps(s: Sys, h: nat, functions: seq<Function>)
    requires Inv(s) && Enabled(s, DoInstall(h, functions))
    ensures Inv(Next(s, DoInstall(h, functions)))
  {
    hide Install, RegistryOk, Genuine, PeerOk, FragmentOf, KnowsPeers, AtLeastOne;
    var s', n := Next(s, DoInstall(h, functions)), |s.registries|;
    var r, o := s.registries[h], Install(s.registries[h], h, functions).registry;
    assert RegistryOk(r, h, n);
    InstallEffect(r, h, n, functions);
    if o == r {
      assert s' == s;
    } else {
      InstalledNet(s, s', h);
      forall k | 0 <= k < n ensures KnowsPeers(s', k) { InstalledPeer(s, s', h, k); }
    }
  }

  lemma InstalledNet(s: Sys, s': Sys, h: nat)
    requires h < |s.registries| == |s'.registries| && !s.registries[h].installed && s'.registries[h].installed
    requires forall j :: 0 <= j < |s.registries| && j != h ==> s'.registries[j] == s.registries[j]
    requires s'.net == s.net + Advertised(h, |s.registries|, Table(s', h))
    requires forall f :: f in s.net ==> Genuine(s, f)
    ensures forall f :: f in s'.net ==> Genuine(s', f)
  {
    forall f | f in s'.net ensures Genuine(s', f) {
      if f in s.net { assert Genuine(s, f); }
    }
  }

  /** Before its installation nothing of a host's table was under way. */
  lemma InstalledPeer(s: Sys, s': Sys, h: nat, k: nat)
    requires Inv(s) && h < |s.registries| == |s'.registries| && k < |s.registries| && !s.registries[h].installed
    requires s'.delivered == s.delivered && s'.registries[k].peers == s.registries[k].peers
    requires forall j :: 0 <= j < |s.registries| && j != h ==> s'.registries[j] == s.registries[j]
    ensures KnowsPeers(s', k)
  {
    assert KnowsPeers(s, k);
    forall j | 0 <= j < |s.registries| && j != k
      ensures PeerOk(s'.registries[k].peers[j], s'.delivered[k], j, k, Table(s', j))
    {
      if j == h {
        forall f | f in s.delivered[k] ensures f.source != h { assert Genuine(s, f); }
        assert RegistryOk(s.registries[h], h, |s.registries|);
      }
    }
  }

  /** A genuine fragment is never refused, and what the host knows of the sender grows by its entry. */
  lemma HandleEffect(r: Registry, h: nat, n: nat, delivered: set<Fragment>, k: nat, table: seq<Descriptor>, i: nat)
    requires RegistryOk(r, h, n) && k < n && k != h && i < AtLeastOne(|table|) && |table| <= MaxFunctions
    requires forall j :: 0 <= j < |table| ==> ValidDescriptor(table[j])
    requires PeerOk(r.peers[k], delivered, k, h, table)
    ensures var f := FragmentOf(k, h, table, i); var o := Handle(r, h, f);
      && o.status == Ok && RegistryOk(o.registry, h, n)
      && o.registry.installed == r.installed && o.registry.functions == r.functions
      && (forall j :: 0 <= j < n && j != k ==> o.registry.peers[j] == r.peers[j])
      && PeerOk(o.registry.peers[k], delivered + {f}, k, h, table)
  {
    var f := FragmentOf(k, h, table, i);
    assert WellFormed(f);
    hide ValidDescriptor;
    var p := r.peers[k];
    var entries := if p.Seen? then p.entries else seq(f.count, _ => None);
    assert |entries| == |table|;
    var after := if table == [] then entries else entries[i := Some(table[i])];
    var q := Seen(after);
    assert f.count > 0 ==> entries[i].None? || entries[i] == Some(table[i]);
    PeerGrows(p, q, delivered, k, h, table, i, entries);
    var r' := r.(peers := r.peers[k := q]);
    if r.failed { StillDisagrees(r, r', h, k); }
    hide PeerOk;
    CheckOk(r'.(ready := r'.ready), h, n) by {
      assert r.failed ==> !r.ready;
    }
    assert Handle(r, h, f) == Effect(Check(r', h), Ok);
  }

  lemma PeerGrows(p: Peer, q: Peer, delivered: set<Fragment>, k: nat, h: nat, table: seq<Descriptor>, i: nat, entries: seq<Option<Descriptor>>)
    requires PeerOk(p, delivered, k, h, table) && i < AtLeastOne(|table|)
    requires entries == if p.Seen? then p.entries else seq(|table|, _ => None)
    requires q == Seen(if table == [] then entries else entries[i := Some(table[i])])
    ensures PeerOk(q, delivered + {FragmentOf(k, h, table, i)}, k, h, table)
  {
    var f := FragmentOf(k, h, table, i);
    assert f in delivered + {f};
    forall j | 0 <= j < |table|
      ensures q.entries[j] == if FragmentOf(k, h, table, j) in delivered + {f} then Some(table[j]) else None
    {
      if j != i { assert FragmentOf(k, h, table, j) != f; }
    }
  }

  lemma StillDisagrees(r: Registry, r': Registry, self: nat, k: nat)
    requires Disagrees(r, self) && k < |r.peers| && r' == r.(peers := r'.peers) && |r'.peers| == |r.peers|
    requires forall j :: 0 <= j < |r.peers| && j != k ==> r'.peers[j] == r.peers[j]
    requires r.peers[k].Seen? ==> r'.peers[k].Seen? && |r'.peers[k].entries| == |r.peers[k].entries|
    requires r.peers[k].Seen? ==>
      forall i :: 0 <= i < |r.peers[k].entries| && r.peers[k].entries[i].Some? ==> r'.peers[k].entries[i] == r.peers[k].entries[i]
    ensures Disagrees(r', self)
  {
    var h :| 0 <= h < |r.peers| && h != self && Mismatch(r.peers[h], Describe(r.functions));
    assert Mismatch(r'.peers[h], Describe(r'.functions));
  }

  lemma DeliverKeeps(s: Sys, f: Fragment)
    requires Inv(s) && Enabled(s, Deliver(f))
    ensures Inv(Next(s, Deliver(f)))
  {
    var s', n, h, k := Next(s, Deliver(f)), |s.registries|, f.target, f.source;
    assert Genuine(s, f) && KnowsPeers(s, h) && RegistryOk(s.registries[h], h, n) && RegistryOk(s.registries[k], k, n);
    HandleEffect(s.registries[h], h, n, s.delivered[h], k, Table(s, k), f.index);
    hide Handle, RegistryOk, PeerOk;
    assert forall j :: 0 <= j < n ==> Table(s', j) == Table(s, j);
    forall x | x in s'.net ensures Genuine(s', x) { assert Genuine(s, x); }
    forall j | 0 <= j < n ensures KnowsPeers(s', j) {
      assert KnowsPeers(s, j);
      if j == h {
        forall i | 0 <= i < n && i != h ensures PeerOk(s'.registries[h].peers[i], s'.delivered[h], i, h, Table(s', i)) {
          if i != k { PeerFrame(s.registries[h].peers[i], s.delivered[h], f, i, h, Table(s, i)); }
        }
      }
    }
  }

  lemma PeerFrame(p: Peer, delivered: set<Fragment>, f: Fragment, source: nat, target: nat, table: seq<Descriptor>)
    requires PeerOk(p, delivered, source, target, table) && f.source != source
    ensures PeerOk(p, delivered + {f}, source, target, table)
  {
    assert forall i :: 0 <= i < AtLeastOne(|table|) ==> FragmentOf(source, target, table, i) != f;
  }

  lemma StepKeeps(s: Sys, x: Action)
    requires Inv(s) && Enabled(s, x)
    ensures Inv(Next(s, x))
  {
    match x
    case DoInstall(h, functions) => InstallKeeps(s, h, functions);
    case Deliver(f) => DeliverKeeps(s, f);
  }

  ghost predicate Run(run: seq<Sys>, actions: seq<Action>) {
    && |run| == |actions| + 1
    && (forall i :: 0 <= i < |actions| ==> Enabled(run[i], actions[i]) && run[i + 1] == Next(run[i], actions[i]))
  }

  lemma {:induction false} RunKeeps(run: seq<Sys>, actions: seq<Action>, n: nat, i: nat)
    requires Run(run, actions) && run[0] == Init(n) && i < |run|
    ensures Inv(run[i])
  {
    hide Inv, Next, Enabled, Init;
    if i == 0 {
      InitInv(n);
    } else {
      RunKeeps(run, actions, n, i - 1);
      StepKeeps(run[i - 1], actions[i - 1]);
    }
  }

  // ------------------------------------------------------------------ verdict and agreement

  /** The verdicts as they depend on the installed table and the set of delivered fragments alone. */
  ghost predicate Conflicting(delivered: set<Fragment>, table: seq<Descriptor>) {
    exists f :: f in delivered && Differs(f, table)
  }

  ghost predicate Everything(delivered: set<Fragment>, self: nat, n: nat, table: seq<Descriptor>) {
    forall k, i :: 0 <= k < n && k != self && 0 <= i < AtLeastOne(|table|) ==> FragmentOf(k, self, table, i) in delivered
  }

  predicate Differs(f: Fragment, table: seq<Descriptor>) {
    f.count != |table| || (f.index < |table| && f.descriptor != table[f.index])
  }

  lemma MismatchShows(p: Peer, delivered: set<Fragment>, k: nat, h: nat, theirs: seq<Descriptor>, table: seq<Descriptor>) returns (f: Fragment)
    requires PeerOk(p, delivered, k, h, theirs) && Mismatch(p, table)
    ensures f in delivered && Differs(f, table)
  {
    var i :| 0 <= i < AtLeastOne(|theirs|) && FragmentOf(k, h, theirs, i) in delivered;
    f := FragmentOf(k, h, theirs, i);
    if |theirs| == |table| {
      var j :| 0 <= j < |table| && p.entries[j].Some? && p.entries[j].value != table[j];
      f := FragmentOf(k, h, theirs, j);
    }
  }

  lemma DifferenceShows(p: Peer, delivered: set<Fragment>, k: nat, h: nat, theirs: seq<Descriptor>, table: seq<Descriptor>, i: nat)
    requires PeerOk(p, delivered, k, h, theirs) && i < AtLeastOne(|theirs|)
    requires FragmentOf(k, h, theirs, i) in delivered && Differs(FragmentOf(k, h, theirs, i), table)
    ensures Mismatch(p, table)
  {
    assert p.Seen?;
    if |theirs| == |table| {
      assert p.entries[i] == Some(theirs[i]);
    }
  }

  /** A difference among the delivered fragments is exactly what the check finds. */
  lemma DisagreesIff(s: Sys, h: nat)
    requires Inv(s) && h < |s.registries|
    ensures Disagrees(s.registries[h], h) <==> Conflicting(s.delivered[h], Table(s, h))
  {
    var r, table := s.registries[h], Table(s, h);
    assert KnowsPeers(s, h) && RegistryOk(r, h, |s.registries|);
    hide RegistryOk, PeerOk, Mismatch, Differs, FragmentOf;
    if Disagrees(r, h) {
      var k :| 0 <= k < |r.peers| && k != h && Mismatch(r.peers[k], table);
      var f := MismatchShows(r.peers[k], s.delivered[h], k, h, Table(s, k), table);
    }
    if f :| f in s.delivered[h] && Differs(f, table) {
      assert Genuine(s, f);
      DifferenceShows(r.peers[f.source], s.delivered[h], f.source, h, Table(s, f.source), table, f.index);
    }
  }

  lemma CompleteIff(s: Sys, h: nat)
    requires Inv(s) && h < |s.registries| && !Disagrees(s.registries[h], h)
    ensures AllComplete(s.registries[h], h) <==> Everything(s.delivered[h], h, |s.registries|, Table(s, h))
  {
    var r, table := s.registries[h], Table(s, h);
    assert KnowsPeers(s, h) && RegistryOk(r, h, |s.registries|);
    hide RegistryOk;
    if AllComplete(r, h) {
      forall k, i | 0 <= k < |s.registries| && k != h && 0 <= i < AtLeastOne(|table|) ensures FragmentOf(k, h, table, i) in s.delivered[h] {
        SameTable(s, h, k);
        assert PeerOk(r.peers[k], s.delivered[h], k, h, table);
      }
    }
    if Everything(s.delivered[h], h, |s.registries|, table) {
      forall k | 0 <= k < |r.peers| && k != h ensures Complete(r.peers[k]) {
        var f := FragmentOf(k, h, table, 0);
        assert f in s.delivered[h] && Genuine(s, f);
        assert PeerOk(r.peers[k], s.delivered[h], k, h, Table(s, k));
        assert FragmentOf(k, h, Table(s, k), 0) == f;
        forall i | 0 <= i < |table| ensures Table(s, k)[i] == table[i] && FragmentOf(k, h, Table(s, k), i) in s.delivered[h] {
          var g := FragmentOf(k, h, table, i);
          assert g in s.delivered[h] && Genuine(s, g);
        }
      }
    }
  }

  /** A complete peer that does not disagree has the same table. */
  lemma SameTable(s: Sys, h: nat, k: nat)
    requires Inv(s) && h < |s.registries| && k < |s.registries| && k != h && !Disagrees(s.registries[h], h) && AllComplete(s.registries[h], h)
    ensures Table(s, k) == Table(s, h) && s.registries[k].installed
  {
    var r, table := s.registries[h], Table(s, h);
    assert KnowsPeers(s, h) && RegistryOk(r, h, |s.registries|);
    hide RegistryOk;
    var p, theirs := r.peers[k], Table(s, k);
    assert PeerOk(p, s.delivered[h], k, h, theirs);
    assert Complete(p) && !Mismatch(p, table);
    forall i | 0 <= i < |theirs| ensures theirs[i] == table[i] { assert p.entries[i].Some?; }
    var i :| 0 <= i < AtLeastOne(|theirs|) && FragmentOf(k, h, theirs, i) in s.delivered[h];
    assert Genuine(s, FragmentOf(k, h, theirs, i));
  }

  /**
   The verdict of a host is a function of its installed table and the set of fragments it has
   received: order, repetition and whether they came before the installation do not matter.
   */
  lemma VerdictExact(run: seq<Sys>, actions: seq<Action>, n: nat, t: nat, h: nat)
    requires Run(run, actions) && run[0] == Init(n) && t < |run| && h < |run[t].registries| && run[t].registries[h].installed
    ensures |run[t].delivered| == |run[t].registries|
    ensures run[t].registries[h].failed <==> Conflicting(run[t].delivered[h], Table(run[t], h))
    ensures run[t].registries[h].ready <==>
      !Conflicting(run[t].delivered[h], Table(run[t], h)) && Everything(run[t].delivered[h], h, |run[t].registries|, Table(run[t], h))
  {
    RunKeeps(run, actions, n, t);
    var s := run[t];
    assert RegistryOk(s.registries[h], h, |s.registries|);
    DisagreesIff(s, h);
    if !Disagrees(s.registries[h], h) { CompleteIff(s, h); }
  }

  /** Readiness on one host means every peer has installed the same table and resolves every identity alike. */
  lemma ReadyMeansAgreement(run: seq<Sys>, actions: seq<Action>, n: nat, t: nat, h: nat, k: nat, id: bv64, bytes: nat)
    requires Run(run, actions) && run[0] == Init(n) && t < |run| && h < |run[t].registries| && k < |run[t].registries|
    requires run[t].registries[h].ready
    ensures run[t].registries[k].installed && Table(run[t], k) == Table(run[t], h)
    ensures !run[t].registries[k].failed ==>
      Resolve(run[t].registries[k], id, bytes, false) == Resolve(run[t].registries[h], id, bytes, true)
  {
    RunKeeps(run, actions, n, t);
    var s := run[t];
    assert RegistryOk(s.registries[h], h, |s.registries|) && RegistryOk(s.registries[k], k, |s.registries|);
    if k != h { SameTable(s, h, k); }
  }

  /** A resolved identity names exactly one entry of the table. */
  lemma ResolveExact(r: Registry, id: bv64, bytes: nat, requireReady: bool, i: nat)
    requires Resolve(r, id, bytes, requireReady).Resolved? && i < |r.functions|
    requires Scan(r.functions, 0) == Ok
    ensures IdOf(r.functions[i].descriptor.name) == id ==> r.functions[i].descriptor == Resolve(r, id, bytes, requireReady).descriptor
  {
    var table := Describe(r.functions);
    var j := Find(table, id);
    if IdOf(r.functions[i].descriptor.name) == id && i != j {
      assert Clashes(r.functions[j], r.functions[i]);
    }
  }
}
