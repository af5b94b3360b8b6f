/**
 What the manifest gives to those who use it properly: different names get different identities
 unless the 64-bit hash collides, a clean table is installed, found and advertised, and hosts
 that installed one table become ready.
 */
module ManifestLaws {
  import opened Manifest

  // ------------------------------------------------------------------ identities

  /** Multiplies by the inverse of the prime, modulo 2^64. */
  function Gather(y: bv64): bv64 {
    y * 0xce965057aff6957b
  }

  lemma GatherTimes(x: bv64)
    ensures Gather(x * 1099511628211) == x
  { }

  lemma SpreadUndone(x: bv64)
    ensures Gather(Spread(x)) == x
  {
    hide Gather;
    GatherTimes(x);
  }

  lemma SpreadKept(x: bv64, y: bv64)
    ensures Spread(x) == Spread(y) ==> x == y
  {
    hide Spread, Gather;
    SpreadUndone(x);
    SpreadUndone(y);
  }

  lemma XorKept(x: bv64, y: bv64, c: bv64)
    ensures x ^ c == y ^ c ==> x == y
    ensures c ^ x == c ^ y ==> x == y
  { }

  lemma ByteKept(c: Byte, d: Byte)
    ensures c as bv64 == d as bv64 ==> c == d
  { }

  /** Mixing in the same byte keeps different identities different, and so does mixing different bytes into one. */
  lemma MixInjective(id: bv64, id': bv64, c: Byte, d: Byte)
    ensures Mix(id, c) == Mix(id', c) ==> id == id'
    ensures Mix(id, c) == Mix(id, d) ==> c == d
  {
    hide Spread;
    SpreadKept(id ^ (c as bv64), id' ^ (c as bv64));
    SpreadKept(id ^ (c as bv64), id ^ (d as bv64));
    XorKept(id, id', c as bv64);
    XorKept(c as bv64, d as bv64, id);
    ByteKept(c, d);
  }

  /** Names that differ in exactly one byte never share an identity. */
  lemma {:induction false} OneByteDiffers(a: seq<Byte>, b: seq<Byte>, k: nat)
    requires |a| == |b| && k < |a| && a[k] != b[k] && forall i :: 0 <= i < |a| && i != k ==> a[i] == b[i]
    ensures IdOf(a) != IdOf(b)
    decreases |a|
  {
    hide Mix;
    var n := |a| - 1;
    if k == n {
      assert a[..n] == b[..n];
      MixInjective(Fold(Basis, a[..n]), Fold(Basis, a[..n]), a[n], b[n]);
    } else {
      OneByteDiffers(a[..n], b[..n], k);
      MixInjective(Fold(Basis, a[..n]), Fold(Basis, b[..n]), a[n], a[n]);
    }
  }

  /** The published values of this 64-bit hash for the empty name, "a" and "ab". */
  lemma KnownIdentities()
    ensures IdOf([]) == 0xcbf29ce484222325
    ensures IdOf([97]) == 0xaf63dc4c8601ec8c
    ensures IdOf([97, 98]) == 0x089c4407b545986a
  {
    assert [97][..0] == [] && [97, 98][..1] == [97];
    assert Fold(Basis, []) == Basis;
    assert IdOf([97]) == Mix(Basis, 97);
    assert IdOf([97, 98]) == Mix(Mix(Basis, 97), 98);
  }

  // ------------------------------------------------------------------ order of names

  /** The first place where two names differ decides, and a proper beginning comes first. */
  predicate FirstDifference(a: seq<Byte>, b: seq<Byte>, k: nat) {
    k <= |a| && k < |b| && (forall i :: 0 <= i < k ==> a[i] == b[i]) && (k == |a| || a[k] < b[k])
  }

  lemma {:induction false} BeforeExactly(a: seq<Byte>, b: seq<Byte>)
    ensures Before(a, b) <==> exists k: nat :: FirstDifference(a, b, k)
  {
    if a == [] {
      if b != [] { assert FirstDifference(a, b, 0); }
    } else if b != [] {
      if a[0] == b[0] {
        BeforeExactly(a[1..], b[1..]);
        forall k: nat | FirstDifference(a[1..], b[1..], k) ensures FirstDifference(a, b, k + 1) {
          forall i | 0 <= i < k + 1 ensures a[i] == b[i] { assert i > 0 ==> a[1..][i - 1] == b[1..][i - 1]; }
        }
        forall k: nat | FirstDifference(a, b, k) ensures k > 0 && FirstDifference(a[1..], b[1..], k - 1) { }
      } else {
        if a[0] < b[0] { assert FirstDifference(a, b, 0); }
      }
    }
  }

  // ------------------------------------------------------------------ installing

  ghost predicate Valid(fs: seq<Function>) {
    forall f :: f in fs ==> ValidFunction(f)
  }

  /** No two registrations share a name identity or a callback. */
  ghost predicate Clean(fs: seq<Function>) {
    forall i, j :: 0 <= i < j < |fs| ==>
      IdOf(fs[i].descriptor.name) != IdOf(fs[j].descriptor.name) && fs[i].identity != fs[j].identity
  }

  /** What a registration needs: a bound callback, a short name without zero bytes, and its numbers. */
  lemma ValidExactly(f: Function)
    ensures ValidFunction(f) <==>
      && 1 <= |f.descriptor.name| <= 63 && (forall i :: 0 <= i < |f.descriptor.name| ==> f.descriptor.name[i] != 0)
      && f.bound && f.identity != 0 && f.descriptor.abi != 0 && f.descriptor.schema != 0 && f.descriptor.argumentBytes <= 80
  { }

  lemma {:induction false} ScanFrom(fs: seq<Function>, i: nat)
    requires i <= |fs|
    ensures Scan(fs, i) == Ok <==> forall j :: i <= j < |fs| ==> ValidFunction(fs[j]) && forall k :: 0 <= k < j ==> !Clashes(fs[k], fs[j])
    decreases |fs| - i
  {
    hide ValidFunction, Clashes;
    if i < |fs| { ScanFrom(fs, i + 1); }
  }

  /** The check of a table succeeds exactly for valid entries without a clash. */
  lemma ScanExactly(fs: seq<Function>)
    ensures Scan(fs, 0) == Ok <==> Valid(fs) && Clean(fs)
  {
    ScanFrom(fs, 0);
    hide ValidFunction, IdOf, Scan;
    if Scan(fs, 0) == Ok {
      forall i, j | 0 <= i < j < |fs|
        ensures IdOf(fs[i].descriptor.name) != IdOf(fs[j].descriptor.name) && fs[i].identity != fs[j].identity
      {
        assert !Clashes(fs[i], fs[j]);
      }
    }
  }

  lemma {:induction false} TwicePlaces(fs: seq<Function>, f: Function)
    requires multiset(fs)[f] >= 2
    ensures exists i, j :: 0 <= i < j < |fs| && fs[i] == f && fs[j] == f
  {
    var n := |fs| - 1;
    assert fs == fs[..n] + [fs[n]];
    if fs[n] == f {
      assert f in multiset(fs[..n]);
      var i :| 0 <= i < n && fs[..n][i] == f;
      assert fs[i] == f;
    } else {
      TwicePlaces(fs[..n], f);
      var i, j :| 0 <= i < j < n && fs[..n][i] == f && fs[..n][j] == f;
      assert fs[i] == f && fs[j] == f;
    }
  }

  /** Equal entries at two places count twice. */
  lemma PlacesTwice(fs: seq<Function>, i: nat, j: nat)
    requires i < j < |fs| && fs[i] == fs[j]
    ensures multiset(fs)[fs[i]] >= 2
  {
    var f := fs[i];
    assert fs == fs[..j] + ([f] + fs[j + 1..]);
    assert fs[..j][i] == f;
  }

  lemma NoneTwice(fs: seq<Function>, f: Function)
    requires Clean(fs)
    ensures multiset(fs)[f] <= 1
  {
    hide IdOf;
    if multiset(fs)[f] >= 2 { TwicePlaces(fs, f); }
  }

  /** Cleanness does not depend on the order of registration. */
  lemma CleanPermuted(a: seq<Function>, b: seq<Function>)
    requires multiset(a) == multiset(b) && Clean(a)
    ensures Clean(b)
  {
    hide IdOf;
    forall i, j | 0 <= i < j < |b|
      ensures IdOf(b[i].descriptor.name) != IdOf(b[j].descriptor.name) && b[i].identity != b[j].identity
    {
      assert b[i] in multiset(a) && b[j] in multiset(a);
      NoneTwice(a, b[i]);
      if b[i] == b[j] {
        PlacesTwice(b, i, j);
      } else {
        var k :| 0 <= k < |a| && a[k] == b[i];
        var l :| 0 <= l < |a| && a[l] == b[j];
        assert k < l || l < k;
      }
    }
  }

  lemma ValidPermuted(a: seq<Function>, b: seq<Function>)
    requires multiset(a) == multiset(b)
    ensures Valid(a) <==> Valid(b)
  {
    hide ValidFunction;
    forall f ensures f in a <==> f in b { assert f in multiset(a) <==> f in multiset(b); }
  }

  /**
   A first installation succeeds exactly for at most 256 valid functions with different identities
   and callbacks, registered in any order, and the registry then has exactly them.
   */
  lemma InstallExactly(r: Registry, self: nat, functions: seq<Function>)
    requires !r.installed
    ensures var o := Install(r, self, functions);
      && (o.status == Ok <==> |functions| <= 256 && Valid(functions) && Clean(functions))
      && (o.status == Ok ==> o.registry.installed && multiset(o.registry.functions) == multiset(functions) && o.registry.peers == r.peers)
      && (o.status != Ok ==> o.registry == r)
  {
    var fs := Sort(functions);
    ScanExactly(fs);
    ValidPermuted(functions, fs);
    if Clean(fs) { CleanPermuted(fs, functions); }
    if Clean(functions) { CleanPermuted(functions, fs); }
    hide Valid, Clean, Scan, Disagrees, AllComplete;
  }

  /** Installing again changes nothing and succeeds exactly for the same table with the same callbacks. */
  lemma InstallAgain(r: Registry, self: nat, functions: seq<Function>)
    requires r.installed
    ensures var o, fs := Install(r, self, functions), Sort(functions);
      && o.registry == r
      && (o.status == Ok <==>
            && |functions| <= 256 && Valid(functions) && Clean(functions) && |fs| == |r.functions|
            && forall i :: 0 <= i < |fs| ==> fs[i].descriptor == r.functions[i].descriptor && fs[i].identity == r.functions[i].identity)
  {
    var fs := Sort(functions);
    ScanExactly(fs);
    ValidPermuted(functions, fs);
    if Clean(fs) { CleanPermuted(fs, functions); }
    if Clean(functions) { CleanPermuted(functions, fs); }
    hide Valid, Clean, Scan;
    var a, b := Describe(fs), Describe(r.functions);
    if |fs| == |r.functions| && forall i :: 0 <= i < |fs| ==> fs[i].descriptor == r.functions[i].descriptor { assert a == b; }
  }

  // ------------------------------------------------------------------ resolving

  lemma {:induction false} FindFirst(table: seq<Descriptor>, id: bv64, i: nat)
    requires i < |table| && IdOf(table[i].name) == id && forall j :: 0 <= j < i ==> IdOf(table[j].name) != id
    ensures Find(table, id) == i
  {
    hide IdOf;
    if i > 0 { FindFirst(table[1..], id, i - 1); }
  }

  /** Every installed function is found under its identity with its argument size, once the registry can serve. */
  lemma ResolveFinds(r: Registry, requireReady: bool, i: nat)
    requires r.installed && !r.failed && (requireReady ==> r.ready) && i < |r.functions| && Clean(r.functions)
    ensures var d := r.functions[i].descriptor;
      && Resolve(r, IdOf(d.name), d.argumentBytes, requireReady) == Resolved(d)
      && forall bytes: nat :: bytes != d.argumentBytes ==> Resolve(r, IdOf(d.name), bytes, requireReady) == Refused(InvalidArgument)
  {
    hide IdOf;
    FindFirst(Describe(r.functions), IdOf(r.functions[i].descriptor.name), i);
  }

  /** An identity nobody installed is not found, and a registry that failed or is not ready serves nothing. */
  lemma ResolveRefuses(r: Registry, id: bv64, bytes: nat, requireReady: bool)
    ensures r.failed || !r.installed || (requireReady && !r.ready) ==> Resolve(r, id, bytes, requireReady) == Refused(FailedPrecondition)
    ensures !r.failed && r.installed && (requireReady ==> r.ready) && (forall i :: 0 <= i < |r.functions| ==> IdOf(r.functions[i].descriptor.name) != id) ==>
      Resolve(r, id, bytes, requireReady) == Refused(NotFound)
  {
    hide IdOf;
  }

  // ------------------------------------------------------------------ fragments

  /** A fragment of a peer is accepted exactly when it is in order and agrees with what the peer sent before. */
  lemma HandleExactly(r: Registry, self: nat, f: Fragment)
    ensures var o := Handle(r, self, f);
      && (o.status == Ok <==>
            && f.target == self && f.source < |r.peers| && f.source != self
            && f.intact && f.count <= 256 && (f.index < f.count || (f.index == 0 && f.count == 0))
            && (f.count > 0 ==> f.descriptor.name != [] && f.descriptor.abi != 0 && f.descriptor.schema != 0 && f.descriptor.argumentBytes <= 80)
            && Agrees(r.peers[f.source], f))
      && (o.status != Ok ==> o.status == InvalidArgument)
      && o.registry.functions == r.functions && o.registry.installed == r.installed
      && (f.target != self || f.source >= |r.peers| || f.source == self ==> o.registry == r)
      && (o.status != Ok && f.target == self && f.source < |r.peers| && f.source != self ==> o.registry.failed && !o.registry.ready)
  {
    hide Disagrees, AllComplete;
  }

  predicate Agrees(p: Peer, f: Fragment) {
    p.Seen? ==> |p.entries| == f.count && (f.index < |p.entries| && p.entries[f.index].Some? ==> p.entries[f.index].value == f.descriptor)
  }

  // ------------------------------------------------------------------ the rendezvous succeeds

  ghost predicate Advertises(s: Sys) {
    forall k :: 0 <= k < |s.registries| && s.registries[k].installed ==> Advertised(k, |s.registries|, Table(s, k)) <= s.net
  }

  lemma StepAdvertises(s: Sys, x: Action, s': Sys)
    requires Enabled(s, x) && s' == Next(s, x) && Advertises(s)
    ensures Advertises(s') && |s'.registries| == |s.registries|
  {
    hide Advertised, Scan, Sort, WellFormed, Disagrees, AllComplete;
    match x
    case DoInstall(h, functions) =>
      forall k | 0 <= k < |s'.registries| && s'.registries[k].installed ensures Advertised(k, |s'.registries|, Table(s', k)) <= s'.net { }
    case Deliver(f) =>
      HandleExactly(s.registries[f.target], f.target, f);
      hide Handle;
      forall k | 0 <= k < |s'.registries| && s'.registries[k].installed ensures Advertised(k, |s'.registries|, Table(s', k)) <= s'.net { }
  }

  lemma {:induction false} AllAdvertised(run: seq<Sys>, actions: seq<Action>, n: nat, t: nat)
    requires Run(run, actions) && run[0] == Init(n) && t < |run|
    ensures Advertises(run[t]) && |run[t].registries| == n
  {
    hide Next, Enabled, Advertised;
    if t > 0 {
      AllAdvertised(run, actions, n, t - 1);
      StepAdvertises(run[t - 1], actions[t - 1], run[t]);
    }
  }

  /** Every host has installed this table, and whatever was sent has arrived, in any order and any number of times. */
  ghost predicate Settled(s: Sys, table: seq<Descriptor>) {
    && |s.delivered| == |s.registries|
    && (forall h :: 0 <= h < |s.registries| ==> s.registries[h].installed && Table(s, h) == table)
    && (forall f :: f in s.net && f.target < |s.registries| ==> f in s.delivered[f.target])
  }

  /** Hosts that install the same table all become ready, none fails. */
  lemma RendezvousSucceeds(run: seq<Sys>, actions: seq<Action>, n: nat, t: nat, table: seq<Descriptor>, h: nat)
    requires Run(run, actions) && run[0] == Init(n) && t < |run| && Settled(run[t], table) && h < |run[t].registries|
    ensures run[t].registries[h].ready && !run[t].registries[h].failed
  {
    hide Next, Enabled, Advertised;
    var s := run[t];
    RunKeeps(run, actions, n, t);
    AllAdvertised(run, actions, n, t);
    VerdictExact(run, actions, n, t, h);
    NoConflict(s, table, h);
    forall k, i | 0 <= k < n && k != h && 0 <= i < AtLeastOne(|table|) ensures FragmentOf(k, h, table, i) in s.delivered[h] {
      Sends(k, n, table, h, i);
      assert Advertised(k, n, Table(s, k)) <= s.net;
    }
  }

  lemma Sends(k: nat, n: nat, table: seq<Descriptor>, h: nat, i: nat)
    requires h < n && k != h && i < AtLeastOne(|table|)
    ensures FragmentOf(k, h, table, i) in Advertised(k, n, table)
  { }

  lemma NoConflict(s: Sys, table: seq<Descriptor>, h: nat)
    requires Inv(s) && Settled(s, table) && h < |s.registries|
    ensures !Conflicting(s.delivered[h], table)
  {
    forall f | f in s.delivered[h] ensures !Differs(f, table) { assert Genuine(s, f); }
  }
}
