/**
 The allocator and the retirement machine together. What the machine assumes of a new object,
 an address and block records no live object has, is what the allocator gives; and when the
 allocator takes an object back, the machine is ready to let it go.
 */
module Reuse {
  import opened Extents
  import opened Allocation
  import Retirement

  /** Address of one block record in an object's sidecar extent. */
  function RecordAt(d: Descriptor, i: nat): nat {
    d.sidecar.offset + i * BlockRecordBytes
  }

  /** Token state, held tokens and replicas of a block go by the address of its record. */
  function SidecarKeys(d: Descriptor): (keys: set<nat>)
    ensures forall k :: k in keys <==> exists i: nat :: i < d.blockCount && k == RecordAt(d, i)
  {
    set i: nat | i < d.blockCount :: RecordAt(d, i)
  }

  lemma RecordInside(d: Descriptor, i: nat)
    requires i < d.blockCount && d.sidecar.bytes == d.blockCount * BlockRecordBytes
    ensures Contains(d.sidecar, RecordAt(d, i)) && RecordAt(d, i) + BlockRecordBytes <= End(d.sidecar)
  {
    assert (d.blockCount - i) * BlockRecordBytes >= BlockRecordBytes;
  }

  /** Block records of one object stand side by side. */
  lemma RecordsApart(d: Descriptor, i: nat, j: nat)
    ensures RecordAt(d, 0) == d.sidecar.offset && RecordAt(d, i + 1) == RecordAt(d, i) + 576
    ensures i < j ==> RecordAt(d, i) + 576 <= RecordAt(d, j)
  {
    if i < j { assert (j - i - 1) * 576 >= 0; }
  }

  lemma KeysInside(d: Descriptor, k: nat)
    requires k in SidecarKeys(d) && d.sidecar.bytes == d.blockCount * BlockRecordBytes
    ensures Contains(d.sidecar, k)
  {
    var i: nat :| i < d.blockCount && k == RecordAt(d, i);
    RecordInside(d, i);
  }

  /** Different live objects have different block records. */
  lemma KeysApart(data: Extent, coherence: Extent, free: seq<Extent>, sidecarFree: seq<Extent>, objects: map<nat, Descriptor>, a: nat, b: nat)
    requires Accounted(data, coherence, free, sidecarFree, objects) && a in objects && b in objects && a != b
    ensures SidecarKeys(objects[a]) !! SidecarKeys(objects[b])
  {
    assert Placed(a, objects[a]) && Placed(b, objects[b]);
    var live := SidecarsOf(objects);
    assert Disjoint(live[a], live[b]);
    hide Accounted, Placed, SidecarKeys;
    forall k | k in SidecarKeys(objects[a]) ensures k !in SidecarKeys(objects[b]) {
      KeysInside(objects[a], k);
      if k in SidecarKeys(objects[b]) {
        KeysInside(objects[b], k);
        assert false;
      }
    }
  }

  /** The machine and the allocator have the same objects, under the same keys. */
  ghost predicate Linked(objects: map<nat, Descriptor>, s: Retirement.Sys) {
    && objects.Keys == s.objects.Keys
    && forall a :: a in objects ==> s.objects[a].keys == SidecarKeys(objects[a])
  }

  ghost predicate StorageAccounted(objects: map<nat, Descriptor>) {
    exists data, coherence, free, sidecarFree :: Accounted(data, coherence, free, sidecarFree, objects)
  }

  /** An allocation that keeps storage accounted for is a step the machine can take. */
  lemma NewObjectEnabled(objects: map<nat, Descriptor>, s: Retirement.Sys, h: nat, o: nat, d: Descriptor)
    requires Linked(objects, s) && o !in objects && StorageAccounted(objects[o := d]) && h < |s.hosts|
    ensures Retirement.Enabled(s, Retirement.Allocate(h, o, SidecarKeys(d)))
    ensures Linked(objects[o := d], Retirement.Next(s, Retirement.Allocate(h, o, SidecarKeys(d))))
  {
    hide Accounted, SidecarKeys;
    var data, coherence, free, sidecarFree :| Accounted(data, coherence, free, sidecarFree, objects[o := d]);
    forall b | b in s.objects ensures SidecarKeys(d) !! s.objects[b].keys {
      KeysApart(data, coherence, free, sidecarFree, objects[o := d], o, b);
    }
  }

  /** What reclamation checks of a retired object is what the machine checks. */
  lemma ReclaimedEnabled(objects: map<nat, Descriptor>, s: Retirement.Sys, h: nat, o: nat)
    requires Linked(objects, s) && o in objects && h < |s.hosts| && Retired(s.control, o, h)
    requires s.objects[o].holders == {} && forall i :: 0 <= i < |s.objects[o].ops| ==> s.objects[o].ops[i] == 0
    ensures Retirement.Enabled(s, Retirement.Free(h, o))
    ensures Linked(objects - {o}, Retirement.Next(s, Retirement.Free(h, o)))
    ensures Retirement.Next(s, Retirement.Free(h, o)).control == s.control.(current := s.control.current.(phase := Retirement.Idle))
  {
    hide SidecarKeys;
  }

  /** No other step makes or drops an object, or gives one different keys. */
  lemma OthersLinked(objects: map<nat, Descriptor>, s: Retirement.Sys, x: Retirement.Action)
    requires Linked(objects, s) && Retirement.Enabled(s, x) && !x.Allocate? && !x.Free?
    ensures Linked(objects, Retirement.Next(s, x))
  {
    hide SidecarKeys, Retirement.Hosts, Retirement.CaughtUp;
  }

  // ------------------------------------------------------------------ runs of both together

  /** One step of both: allocations are the allocator's, whatever address and records it gives. */
  ghost predicate JointStep(objects: map<nat, Descriptor>, s: Retirement.Sys, x: Retirement.Action,
                            objects': map<nat, Descriptor>, s': Retirement.Sys) {
    && x.host < |s.hosts|
    && (if x.Allocate? then
          && x.obj !in objects && x.obj in objects' && objects' == objects[x.obj := objects'[x.obj]]
          && StorageAccounted(objects') && x.keys == SidecarKeys(objects'[x.obj])
        else
          && Retirement.Enabled(s, x) && objects' == if x.Free? then objects - {x.obj} else objects)
    && (Retirement.Enabled(s, x) ==> s' == Retirement.Next(s, x))
  }

  ghost predicate JointRun(stores: seq<map<nat, Descriptor>>, run: seq<Retirement.Sys>, actions: seq<Retirement.Action>) {
    && |stores| == |run| == |actions| + 1
    && (forall i :: 0 <= i < |actions| ==> JointStep(stores[i], run[i], actions[i], stores[i + 1], run[i + 1]))
  }

  lemma StepLinked(objects: map<nat, Descriptor>, s: Retirement.Sys, x: Retirement.Action, objects': map<nat, Descriptor>, s': Retirement.Sys)
    requires Linked(objects, s) && JointStep(objects, s, x, objects', s')
    ensures Retirement.Enabled(s, x) && s' == Retirement.Next(s, x) && Linked(objects', s')
  {
    hide Linked, StorageAccounted, SidecarKeys, Retirement.Next;
    if x.Allocate? {
      NewObjectEnabled(objects, s, x.host, x.obj, objects'[x.obj]);
    } else if x.Free? {
      FreeLinked(objects, s, x);
    } else {
      OthersLinked(objects, s, x);
    }
  }

  lemma FreeLinked(objects: map<nat, Descriptor>, s: Retirement.Sys, x: Retirement.Action)
    requires Linked(objects, s) && Retirement.Enabled(s, x) && x.Free?
    ensures Linked(objects - {x.obj}, Retirement.Next(s, x))
  {
    hide SidecarKeys;
  }

  /**
   Every run in which storage comes from the allocator is a run of the retirement machine: the
   address and the records it hands out always meet what the machine asks of them. So all that
   is proved of the machine's runs, reuse safety included, holds of the two together.
   */
  lemma {:induction false} JointRunIsRun(stores: seq<map<nat, Descriptor>>, run: seq<Retirement.Sys>, actions: seq<Retirement.Action>, n: nat, i: nat)
    requires JointRun(stores, run, actions) && stores[0] == map[] && run[0] == Retirement.Init(n) && i < |run|
    ensures Retirement.Run(run[..i + 1], actions[..i]) && Linked(stores[i], run[i])
  {
    hide JointStep, SidecarKeys, Retirement.Next, Retirement.Enabled;
    if i > 0 {
      JointRunIsRun(stores, run, actions, n, i - 1);
      StepLinked(stores[i - 1], run[i - 1], actions[i - 1], stores[i], run[i]);
      assert run[..i + 1][..i] == run[..i] && actions[..i][..i - 1] == actions[..i - 1];
      RunGrows(run[..i], actions[..i - 1], run[..i + 1], actions[..i]);
    }
  }

  lemma RunGrows(run: seq<Retirement.Sys>, actions: seq<Retirement.Action>, run': seq<Retirement.Sys>, actions': seq<Retirement.Action>)
    requires Retirement.Run(run, actions) && |run'| == |run| + 1 && |actions'| == |actions| + 1
    requires run == run'[..|run|] && actions == actions'[..|actions|]
    requires Retirement.Enabled(run'[|actions|], actions'[|actions|])
    requires run'[|run|] == Retirement.Next(run'[|actions|], actions'[|actions|])
    ensures Retirement.Run(run', actions')
  {
    hide Retirement.Next, Retirement.Enabled;
    forall i | 0 <= i < |actions'|
      ensures Retirement.Enabled(run'[i], actions'[i]) && run'[i + 1] == Retirement.Next(run'[i], actions'[i])
    {
      if i < |actions| {
        assert Retirement.Enabled(run[i], actions[i]) && run[i + 1] == Retirement.Next(run[i], actions[i]);
      }
    }
  }

  /** Storage the allocator gives out, new or used before, is free of everything older. */
  lemma AllocatedIsClean(stores: seq<map<nat, Descriptor>>, run: seq<Retirement.Sys>, actions: seq<Retirement.Action>, n: nat, i: nat,
                         d: Descriptor, s': Retirement.Sys)
    requires JointRun(stores, run, actions) && stores[0] == map[] && run[0] == Retirement.Init(n)
    requires i < |actions| && actions[i].Allocate? && s' == run[i + 1] && actions[i].obj in stores[i + 1] && d == stores[i + 1][actions[i].obj]
    ensures Retirement.NoPacket(s', actions[i].obj)
    ensures forall h, k :: 0 <= h < |s'.hosts| && k in SidecarKeys(d) ==> Retirement.StartsAsToken(s', actions[i].host, h, k)
  {
    hide SidecarKeys, Retirement.Run, Retirement.NoPacket, Retirement.StartsAsToken, Retirement.NoState;
    JointRunIsRun(stores, run, actions, n, i + 1);
    assert JointStep(stores[i], run[i], actions[i], stores[i + 1], run[i + 1]);
    Retirement.ReuseIsSafe(run[..i + 2], actions[..i + 1], n, i, s');
  }

  // ------------------------------------------------------------------ the allocator's own calls

  /** A successful call of the allocator, and the step of the machine it is. */
  method AllocateObject(a: SharedAllocator, bytes: nat, alignment: nat, requestedBlock: nat, defaultBlock: nat, pinned: seq<bool>,
                        ghost s: Retirement.Sys, ghost host: nat)
    returns (r: Result, ghost s': Retirement.Sys)
    requires a.Valid() && |pinned| == |a.slots| && Linked(a.objects, s) && host < |s.hosts|
    modifies a, a.extents, a.extents.nodes
    ensures a.Valid() && Linked(a.objects, s')
    ensures !r.Object? ==> s' == s
    ensures r.Object? ==> r.offset in a.objects
    ensures r.Object? ==>
      var x := Retirement.Allocate(host, r.offset, SidecarKeys(a.objects[r.offset]));
      Retirement.Enabled(s, x) && s' == Retirement.Next(s, x)
  {
    hide Accounted, SlotsOk, SidecarKeys, Malformed, Linked, Retirement.Enabled, Retirement.Next;
    ghost var before := a.objects;
    r := a.Allocate(bytes, alignment, requestedBlock, defaultBlock, pinned);
    s' := s;
    if r.Object? {
      assert StorageAccounted(a.objects);
      NewObjectEnabled(before, s, host, r.offset, a.objects[r.offset]);
      s' := Retirement.Next(s, Retirement.Allocate(host, r.offset, SidecarKeys(a.objects[r.offset])));
    }
  }

  /**
   Reclamation in a reachable state, given the shared control slot, holder mask and counts. For
   a retired object only a reader of its slot or a shortage of nodes can refuse it, and the
   control slot it leaves is the machine's.
   */
  method ReclaimObject(a: SharedAllocator, o: nat, host: nat, control: Retirement.Control, pinned: seq<bool>, holders: set<nat>, active: seq<nat>,
                       ghost s: Retirement.Sys)
    returns (r: Freeing, control': Retirement.Control, ghost s': Retirement.Sys)
    requires a.Valid() && |pinned| == |a.slots| && Linked(a.objects, s) && Retirement.Inv(s) && host < |s.hosts|
    requires control == s.control
    requires o in a.objects && holders == s.objects[o].holders && active == s.objects[o].ops
    modifies a, a.extents, a.extents.nodes
    ensures a.Valid() && Linked(a.objects, s') && control' == s'.control
    ensures Retired(control, o, host) ==> r == Pinned || r == TooFewNodes || r == Reclaimed
    ensures r == Reclaimed ==> Retirement.Enabled(s, Retirement.Free(host, o)) && s' == Retirement.Next(s, Retirement.Free(host, o))
    ensures r != Reclaimed ==> s' == s
  {
    hide Accounted, SidecarKeys, Linked, SlotsOk, PinnedAt, Retirement.Inv, Retirement.Enabled, Retirement.Next;
    ghost var before := a.objects;
    LiveNamed(a.slots, a.objects, o);
    if Retired(control, o, host) { RetiredIsGone(before, s, o); }
    r, control' := a.Free(o, host, control, pinned, holders, active);
    s' := s;
    if r == Reclaimed {
      ReclaimedEnabled(before, s, host, o);
      s' := Retirement.Next(s, Retirement.Free(host, o));
    }
  }

  lemma RetiredIsGone(objects: map<nat, Descriptor>, s: Retirement.Sys, o: nat)
    requires Linked(objects, s) && Retirement.Inv(s) && o in objects
    requires s.control.current.phase.Reclaimable? && s.control.current.obj == o
    ensures s.objects[o].holders == {} && forall i :: 0 <= i < |s.objects[o].ops| ==> s.objects[o].ops[i] == 0
  {
    Retirement.ReclaimableIsGone(s);
  }
}
