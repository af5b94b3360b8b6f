/**
 The manifest registry of one host, changed in place. Every call is proved to leave the state
 and give the status that `Manifest` specifies.
 */
module ClusterRegistries {
  import opened Manifest

  class ClusterRegistry {
    const self: nat
    var installed: bool
    var functions: seq<Function>
    var peers: seq<Peer>
    var ready: bool
    var failed: bool

    function State(): Registry
      reads this
    {
      Registry(installed, functions, peers, ready, failed)
    }

    constructor (self: nat, hosts: nat)
      ensures this.self == self && State() == Registry(false, [], seq(hosts, _ => Unseen), false, false)
    {
      this.self := self;
      installed, functions, peers, ready, failed := false, [], seq(hosts, _ => Unseen), false, false;
    }

    method Compare(p: Peer, table: seq<Descriptor>) returns (mismatch: bool, complete: bool)
      ensures mismatch == Mismatch(p, table)
      ensures !mismatch ==> complete == Complete(p)
    {
      if p.Unseen? { return false, false; }
      if |p.entries| != |table| { return true, true; }
      complete := true;
      for i := 0 to |table|
        invariant complete == forall j :: 0 <= j < i ==> p.entries[j].Some?
        invariant forall j :: 0 <= j < i && p.entries[j].Some? ==> p.entries[j].value == table[j]
      {
        if p.entries[i].None? {
          complete := false;
        } else if p.entries[i].value != table[i] {
          return true, complete;
        }
      }
      return false, complete;
    }

    method CheckLocked()
      modifies this`ready, this`failed
      ensures State() == Check(old(State()), self)
    {
      if !installed || failed { return; }
      var table := Describe(functions);
      var complete := true;
      var host := 0;
      while host < |peers| && !failed
        invariant host <= |peers| && ready == old(ready)
        invariant failed <==> exists h :: 0 <= h < host && h != self && Mismatch(peers[h], table)
        invariant !failed ==> (complete <==> forall h :: 0 <= h < host && h != self ==> Complete(peers[h]))
      {
        if host != self {
          var mismatch, whole := Compare(peers[host], table);
          if mismatch { failed := true; }
          complete := complete && whole;
        }
        host := host + 1;
      }
      ready := !failed && complete;
    }

    method ScanTable(fs: seq<Function>) returns (status: Status)
      ensures status == Scan(fs, 0)
    {
      hide Clashes, ValidFunction;
      for i := 0 to |fs|
        invariant Scan(fs, 0) == Scan(fs, i)
      {
        if !ValidFunction(fs[i]) { return InvalidArgument; }
        for k := 0 to i
          invariant forall j :: 0 <= j < k ==> !Clashes(fs[j], fs[i])
        {
          if Clashes(fs[k], fs[i]) { return AlreadyExists; }
        }
      }
      return Ok;
    }

    /** The entries of the table for every other host; an empty table still shows itself. */
    method Advertise() returns (messages: seq<Fragment>)
      ensures forall f :: f in messages <==> f in Advertised(self, |peers|, Describe(functions))
    {
      var table, n := Describe(functions), |peers|;
      messages := [];
      for host := 0 to n
        invariant forall f :: f in messages <==> Sent(f, host, table)
      {
        if host != self {
          for i := 0 to AtLeastOne(|table|)
            invariant forall f :: f in messages <==>
              Sent(f, host, table) || (f.index < i && f == FragmentOf(self, host, table, f.index))
          {
            messages := messages + [FragmentOf(self, host, table, i)];
          }
        }
        forall f ensures Sent(f, host + 1, table) <==>
          Sent(f, host, table) || (host != self && f.index < AtLeastOne(|table|) && f == FragmentOf(self, host, table, f.index)) { }
      }
    }

    /** One of the fragments for the hosts below `host`. */
    predicate Sent(f: Fragment, host: nat, table: seq<Descriptor>) {
      f.target < host && f.target != self && f.index < AtLeastOne(|table|) && f == FragmentOf(self, f.target, table, f.index)
    }

    /** The first installation is advertised to everybody else; repeating it sends nothing. */
    method Install(fs: seq<Function>) returns (status: Status, messages: seq<Fragment>)
      modifies this
      ensures var o := Manifest.Install(old(State()), self, fs); State() == o.registry && status == o.status
      ensures forall f :: f in messages <==> status == Ok && !old(installed) && f in Advertised(self, |peers|, Describe(functions))
    {
      hide Scan, Sort, Check, Advertised;
      messages := [];
      if |fs| > MaxFunctions { return InvalidArgument, []; }
      var sorted := Sort(fs);
      status := ScanTable(sorted);
      if status != Ok { return; }
      if installed {
        if Describe(sorted) != Describe(functions) { return FailedPrecondition, []; }
        for i := 0 to |sorted|
          invariant forall j :: 0 <= j < i ==> sorted[j].identity == functions[j].identity
        {
          if sorted[i].identity != functions[i].identity { return AlreadyExists, []; }
        }
        return Ok, [];
      }
      installed, functions := true, sorted;
      messages := Advertise();
      CheckLocked();
      return Ok, messages;
    }

    method RejectFragment() returns (status: Status)
      modifies this`ready, this`failed
      ensures State() == Reject(old(State())).registry && status == InvalidArgument
    {
      ready, failed := false, true;
      return InvalidArgument;
    }

    method Handle(f: Fragment) returns (status: Status)
      modifies this
      ensures var o := Manifest.Handle(old(State()), self, f); State() == o.registry && status == o.status
    {
      if f.target != self || f.source >= |peers| || f.source == self { return InvalidArgument; }
      if !WellFormed(f) {
        status := RejectFragment();
        return;
      }
      if peers[f.source].Seen? && |peers[f.source].entries| != f.count {
        status := RejectFragment();
        return;
      }
      if peers[f.source].Unseen? {
        peers := peers[f.source := Seen(seq(f.count, _ => None))];
      }
      var entries := peers[f.source].entries;
      assert peers == old(peers)[f.source := Seen(entries)];
      if f.count > 0 {
        if entries[f.index].Some? && entries[f.index].value != f.descriptor {
          status := RejectFragment();
          return;
        }
        peers := peers[f.source := Seen(entries[f.index := Some(f.descriptor)])];
      }
      assert peers == old(peers)[f.source := peers[f.source]];
      hide Check, WellFormed;
      CheckLocked();
      return Ok;
    }

    method Lookup(identity: nat) returns (status: Status, id: bv64)
      ensures status == FailedPrecondition <==> !installed
      ensures status == Ok <==> installed && exists i :: 0 <= i < |functions| && functions[i].identity == identity
      ensures status == Ok ==> exists i :: 0 <= i < |functions| && functions[i].identity == identity && id == IdOf(functions[i].descriptor.name)
    {
      hide IdOf;
      id := 0;
      if !installed { return FailedPrecondition, id; }
      for i := 0 to |functions|
        invariant forall j :: 0 <= j < i ==> functions[j].identity != identity
      {
        if functions[i].identity == identity { return Ok, IdOf(functions[i].descriptor.name); }
      }
      return NotFound, id;
    }
  }
}
