/**
 Lookups and slot owners that nobody disturbs: a lookup finds and pins the first slot that can be
 pinned, or reports that there is none, and an owner changes exactly its slot's address.
 */
module DiscoveryRounds {
  import opened Discovery

  ghost predicate Leads(s: Sys, t: Sys, thread: nat) {
    exists run, actions :: Goes(s, t, thread, run, actions)
  }

  /** Steps of one lookup only. */
  ghost predicate Goes(s: Sys, t: Sys, thread: nat, run: seq<Sys>, actions: seq<Action>) {
    Run(run, actions) && run[0] == s && run[|actions|] == t && forall x :: x in actions ==> IsLookup(x) && x.thread == thread
  }

  lemma LeadsHere(s: Sys, thread: nat)
    ensures Leads(s, s, thread)
  {
    assert Goes(s, s, thread, [s], []);
  }

  lemma LeadsOn(s: Sys, t: Sys, x: Action, thread: nat)
    requires Leads(s, t, thread) && Enabled(t, x) && IsLookup(x) && x.thread == thread
    ensures Leads(s, Next(t, x), thread)
  {
    hide Next, Enabled;
    var run, actions :| Goes(s, t, thread, run, actions);
    var run', actions' := run + [Next(t, x)], actions + [x];
    forall i | 0 <= i < |actions'| ensures Enabled(run'[i], actions'[i]) && run'[i + 1] == Next(run'[i], actions'[i]) {
      if i < |actions| { assert Enabled(run[i], actions[i]) && run[i + 1] == Next(run[i], actions[i]); }
    }
    assert Goes(s, Next(t, x), thread, run', actions');
  }

  /** The slot names the address, is nobody's own, and has room for one more reader. */
  predicate Usable(s: Sys, a: nat, i: nat) {
    i < |s.slots| && s.slots[i].address == a && s.slots[i].readers < 0xFFFF_FFFE
  }

  /** What a lookup that has come to slot `i` ends with. */
  predicate Found(s: Sys, t: Sys, thread: nat, a: nat, i: nat, k: nat) {
    && thread < |s.lookups| && i <= k <= |s.slots| && (forall j :: i <= j < k ==> !Usable(s, a, j))
    && (if k < |s.slots| then
          Usable(s, a, k) && t == s.(lookups := s.lookups[thread := Pinned(a, k)], slots := s.slots[k := Slot(a, s.slots[k].readers + 1)])
        else t == s.(lookups := s.lookups[thread := Away]))
  }

  /** A slot that cannot be pinned is passed over. */
  lemma PassOver(s: Sys, u: Sys, thread: nat, a: nat, i: nat)
    requires thread < |s.lookups| && i < |s.slots| && !Usable(s, a, i) && Leads(u, SetLookup(s, thread, Looking(a, i)), thread)
    requires s.slots[i].readers <= Exclusive
    ensures Leads(u, SetLookup(s, thread, After(s, a, i)), thread)
  {
    hide Leads;
    var v := SetLookup(s, thread, Looking(a, i));
    LeadsOn(u, v, LoadAddress(thread), thread);
    if s.slots[i].address == a {
      var m := SetLookup(s, thread, Matched(a, i));
      assert Next(v, LoadAddress(thread)) == m;
      LeadsOn(u, m, LoadReaders(thread), thread);
      var w := SetLookup(s, thread, Swapping(a, i, s.slots[i].readers));
      assert Next(m, LoadReaders(thread)) == w;
      LeadsOn(u, w, Swap(thread, false), thread);
      assert Next(w, Swap(thread, false)) == SetLookup(s, thread, After(s, a, i));
    } else {
      assert Next(v, LoadAddress(thread)) == SetLookup(s, thread, After(s, a, i));
    }
  }

  /** A slot that can be pinned is pinned. */
  lemma PinHere(s: Sys, u: Sys, thread: nat, a: nat, i: nat)
    requires thread < |s.lookups| && Usable(s, a, i) && Leads(u, SetLookup(s, thread, Looking(a, i)), thread)
    ensures Leads(u, s.(lookups := s.lookups[thread := Pinned(a, i)], slots := s.slots[i := Slot(a, s.slots[i].readers + 1)]), thread)
  {
    hide Leads;
    var v, m := SetLookup(s, thread, Looking(a, i)), SetLookup(s, thread, Matched(a, i));
    LeadsOn(u, v, LoadAddress(thread), thread);
    assert Next(v, LoadAddress(thread)) == m;
    LeadsOn(u, m, LoadReaders(thread), thread);
    var w := SetLookup(s, thread, Swapping(a, i, s.slots[i].readers));
    assert Next(m, LoadReaders(thread)) == w;
    LeadsOn(u, w, Swap(thread, false), thread);
    var counted := SetReaders(SetLookup(s, thread, Counted(a, i)), i, s.slots[i].readers + 1);
    assert Next(w, Swap(thread, false)) == counted;
    LeadsOn(u, counted, Recheck(thread), thread);
    assert Next(counted, Recheck(thread)).slots == s.slots[i := Slot(a, s.slots[i].readers + 1)];
    assert Next(counted, Recheck(thread)).lookups == s.lookups[thread := Pinned(a, i)];
  }

  lemma {:induction false} LookOn(s: Sys, u: Sys, thread: nat, a: nat, i: nat) returns (t: Sys, k: nat)
    requires thread < |s.lookups| && i < |s.slots| && Leads(u, SetLookup(s, thread, Looking(a, i)), thread)
    requires forall j :: 0 <= j < |s.slots| ==> s.slots[j].readers <= Exclusive
    ensures Leads(u, t, thread) && Found(s, t, thread, a, i, k)
    decreases |s.slots| - i
  {
    hide Leads;
    if Usable(s, a, i) {
      PinHere(s, u, thread, a, i);
      k := i;
      t := s.(lookups := s.lookups[thread := Pinned(a, i)], slots := s.slots[i := Slot(a, s.slots[i].readers + 1)]);
    } else {
      PassOver(s, u, thread, a, i);
      if i + 1 < |s.slots| {
        t, k := LookOn(s, u, thread, a, i + 1);
      } else {
        k := i + 1;
        t := SetLookup(s, thread, Away);
      }
    }
  }

  /**
   In every reachable state an undisturbed lookup of an address pins the first slot that names it
   and can be pinned, adding exactly one reader, and fails exactly when there is no such slot.
   */
  lemma LookupAlone(s: Sys, thread: nat, a: nat) returns (t: Sys, k: nat)
    requires Inv(s) && thread < |s.lookups| && s.lookups[thread].Away? && a != 0
    ensures Leads(s, t, thread) && Found(s, t, thread, a, 0, k)
  {
    hide Leads;
    LeadsHere(s, thread);
    LeadsOn(s, s, Start(thread, a), thread);
    forall j | 0 <= j < |s.slots| ensures s.slots[j].readers <= Exclusive { assert SlotOk(s, j); }
    if |s.slots| > 0 {
      t, k := LookOn(s, s, thread, a, 0);
    } else {
      t, k := SetLookup(s, thread, Away), 0;
    }
  }

  /** Unpinning gives back exactly the one reader. */
  lemma UnpinGives(s: Sys, thread: nat)
    requires Inv(s) && Enabled(s, Unpin(thread))
    ensures var l, t := s.lookups[thread], Next(s, Unpin(thread));
      && s.slots[l.slot].readers > 0 && t.lookups == s.lookups[thread := Away]
      && t.slots == s.slots[l.slot := s.slots[l.slot].(readers := s.slots[l.slot].readers - 1)]
  {
    var l := s.lookups[thread];
    assert SlotOk(s, l.slot);
    HolderCounts(s.lookups, thread, l.slot);
    if Owned(s.owner, l.slot) { assert false; }
    hide Holders;
  }

  /** An owner takes a slot exactly when nobody is counted there, rewrites its address, and leaves it free. */
  lemma OwnerRound(s: Sys, i: nat, a: nat)
    requires s.owner.Free? && i < |s.slots| && s.slots[i].readers == 0
    ensures Enabled(s, Claim(i, s.slots[i].address))
    ensures var claimed := Next(s, Claim(i, s.slots[i].address));
      Enabled(claimed, SwapExclusive) && var owned := Next(claimed, SwapExclusive);
      owned.slots[i].readers == 0xFFFF_FFFF && Enabled(owned, StoreAddress(a)) && var written := Next(owned, StoreAddress(a));
      Enabled(written, Publish) && Next(written, Publish) == s.(slots := s.slots[i := Slot(a, 0)])
  { }

  lemma OwnerRefused(s: Sys, i: nat)
    requires s.owner.Free? && i < |s.slots| && s.slots[i].readers != 0
    ensures Enabled(s, Claim(i, s.slots[i].address)) && Enabled(Next(s, Claim(i, s.slots[i].address)), SwapExclusive)
    ensures Next(Next(s, Claim(i, s.slots[i].address)), SwapExclusive) == s
  { }
}
