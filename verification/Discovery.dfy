/**
 Discovery slots: lookups pin a slot with a compare-and-swap and check the address again, while
 allocation and reclamation take a slot for themselves by swapping a zero count for a sentinel.
 Every shared load, store and swap is its own step; any number of lookups run at once.
 */
module Discovery {

  const Exclusive: nat := 0xFFFF_FFFF

  datatype Slot = Slot(address: nat, readers: nat)

  /** Where a lookup of an address stands. */
  datatype Lookup =
    | Away
    | Looking(address: nat, slot: nat)
    | Matched(address: nat, slot: nat)
    | Swapping(address: nat, slot: nat, seen: nat)
    | Counted(address: nat, slot: nat)
    | Pinned(address: nat, slot: nat)
    | Leaving(address: nat, slot: nat)

  /** The one caller inside the extent lock. */
  datatype Owner =
    | Free
    | Claiming(slot: nat, wanted: nat)
    | Owning(slot: nat)
    | Written(slot: nat)

  datatype Sys = Sys(slots: seq<Slot>, lookups: seq<Lookup>, owner: Owner)

  datatype Action =
    | Start(thread: nat, address: nat)
    | LoadAddress(thread: nat)
    | LoadReaders(thread: nat)
    | Swap(thread: nat, spurious: bool)
    | Recheck(thread: nat)
    | Leave(thread: nat)
    | Unpin(thread: nat)
    | Claim(slot: nat, wanted: nat)
    | SwapExclusive
    | StoreAddress(address: nat)
    | Publish

  predicate IsLookup(x: Action) {
    !x.Claim? && !x.SwapExclusive? && !x.StoreAddress? && !x.Publish?
  }

  predicate Enabled(s: Sys, x: Action) {
    if IsLookup(x) then
      && x.thread < |s.lookups|
      && var l := s.lookups[x.thread];
      match x
      case Start(_, a) => l.Away? && a != 0
      case LoadAddress(_) => l.Looking? && l.slot < |s.slots|
      case LoadReaders(_) => l.Matched? && l.slot < |s.slots|
      case Swap(_, _) => l.Swapping? && l.slot < |s.slots|
      case Recheck(_) => l.Counted? && l.slot < |s.slots|
      case Leave(_) => l.Leaving? && l.slot < |s.slots|
      case _ => l.Pinned? && l.slot < |s.slots|
    else
      match x
      case Claim(i, wanted) => s.owner.Free? && i < |s.slots| && s.slots[i].address == wanted
      case SwapExclusive => s.owner.Claiming? && s.owner.slot < |s.slots|
      case StoreAddress(_) => s.owner.Owning? && s.owner.slot < |s.slots|
      case _ => (s.owner.Owning? || s.owner.Written?) && s.owner.slot < |s.slots|
  }

  /** The next slot to look at, or the end of a failed lookup. */
  function After(s: Sys, a: nat, i: nat): Lookup {
    if i + 1 < |s.slots| then Looking(a, i + 1) else Away
  }

  function SetLookup(s: Sys, t: nat, l: Lookup): Sys
    requires t < |s.lookups|
  {
    s.(lookups := s.lookups[t := l])
  }

  function SetReaders(s: Sys, i: nat, readers: nat): Sys
    requires i < |s.slots|
  {
    s.(slots := s.slots[i := s.slots[i].(readers := readers)])
  }

  function Minus(n: nat): nat {
    if n == 0 then Exclusive else n - 1
  }

  function Next(s: Sys, x: Action): Sys
    requires Enabled(s, x)
  {
    match x
    case Start(t, a) => SetLookup(s, t, if |s.slots| > 0 then Looking(a, 0) else Away)
    case LoadAddress(t) =>
      var l := s.lookups[t];
      SetLookup(s, t, if s.slots[l.slot].address == l.address then Matched(l.address, l.slot) else After(s, l.address, l.slot))
    case LoadReaders(t) =>
      var l := s.lookups[t];
      SetLookup(s, t, Swapping(l.address, l.slot, s.slots[l.slot].readers))
    case Swap(t, spurious) =>
      var l := s.lookups[t];
      if l.seen == Exclusive || l.seen == Exclusive - 1 then SetLookup(s, t, After(s, l.address, l.slot))
      else if spurious || s.slots[l.slot].readers != l.seen then
        SetLookup(s, t, Swapping(l.address, l.slot, s.slots[l.slot].readers))
      else SetLookup(SetReaders(s, l.slot, l.seen + 1), t, Counted(l.address, l.slot))
    case Recheck(t) =>
      var l := s.lookups[t];
      SetLookup(s, t, if s.slots[l.slot].address == l.address then Pinned(l.address, l.slot) else Leaving(l.address, l.slot))
    case Leave(t) =>
      var l := s.lookups[t];
      SetLookup(SetReaders(s, l.slot, Minus(s.slots[l.slot].readers)), t, After(s, l.address, l.slot))
    case Unpin(t) =>
      var l := s.lookups[t];
      SetLookup(SetReaders(s, l.slot, Minus(s.slots[l.slot].readers)), t, Away)
    case Claim(i, wanted) => s.(owner := Claiming(i, wanted))
    case SwapExclusive =>
      var i := s.owner.slot;
      if s.slots[i].readers == 0 then SetReaders(s, i, Exclusive).(owner := Owning(i)) else s.(owner := Free)
    case StoreAddress(a) =>
      var i := s.owner.slot;
      s.(slots := s.slots[i := s.slots[i].(address := a)], owner := Written(i))
    case Publish =>
      SetReaders(s, s.owner.slot, 0).(owner := Free)
  }

  function Init(slots: nat, threads: nat): Sys {
    Sys(seq(slots, _ => Slot(0, 0)), seq(threads, _ => Away), Free)
  }

  // ------------------------------------------------------------------ invariant

  /** A lookup whose increment of the slot's count has not been taken back. */
  predicate Holds(l: Lookup, i: nat) {
    (l.Counted? || l.Pinned? || l.Leaving?) && l.slot == i
  }

  function Holders(lookups: seq<Lookup>, i: nat): nat {
    if lookups == [] then 0 else Holders(lookups[1..], i) + (if Holds(lookups[0], i) then 1 else 0)
  }

  predicate Owned(owner: Owner, i: nat) {
    (owner.Owning? || owner.Written?) && owner.slot == i
  }

  /** A slot is either one owner's, with nobody counted, or counts exactly the lookups that hold it. */
  predicate SlotOk(s: Sys, i: nat)
    requires i < |s.slots|
  {
    var n := Holders(s.lookups, i);
    && (if Owned(s.owner, i) then s.slots[i].readers == Exclusive && n == 0
        else s.slots[i].readers == n && n < Exclusive)
  }

  predicate LookupOk(s: Sys, l: Lookup) {
    && (!l.Away? ==> l.slot < |s.slots| && l.address != 0)
    && (l.Pinned? ==> s.slots[l.slot].address == l.address)
  }

  predicate Inv(s: Sys) {
    && (forall i :: 0 <= i < |s.slots| ==> SlotOk(s, i))
    && (forall t :: 0 <= t < |s.lookups| ==> LookupOk(s, s.lookups[t]))
    && (!s.owner.Free? ==> s.owner.slot < |s.slots|)
  }

  lemma {:induction false} HoldersChange(lookups: seq<Lookup>, t: nat, l: Lookup, i: nat)
    requires t < |lookups|
    ensures Holders(lookups[t := l], i) + (if Holds(lookups[t], i) then 1 else 0) == Holders(lookups, i) + (if Holds(l, i) then 1 else 0)
  {
    if t == 0 {
      assert lookups[t := l][1..] == lookups[1..];
    } else {
      assert lookups[t := l][1..] == lookups[1..][t - 1 := l];
      HoldersChange(lookups[1..], t - 1, l, i);
    }
  }

  lemma {:induction false} HolderCounts(lookups: seq<Lookup>, t: nat, i: nat)
    requires t < |lookups| && Holds(lookups[t], i)
    ensures Holders(lookups, i) > 0
  {
    if t > 0 { HolderCounts(lookups[1..], t - 1, i); }
  }

  lemma {:induction false} NoHolders(lookups: seq<Lookup>, i: nat)
    requires forall t :: 0 <= t < |lookups| ==> !Holds(lookups[t], i)
    ensures Holders(lookups, i) == 0
  {
    if lookups != [] { NoHolders(lookups[1..], i); }
  }

  function Weight(l: Lookup, i: nat): nat {
    if Holds(l, i) then 1 else 0
  }

  /** One lookup moves, and its slot's count moves with what it holds. */
  lemma MoveKeeps(s: Sys, t: nat, l: Lookup, i: nat, readers: nat)
    requires Inv(s) && t < |s.lookups| && i < |s.slots|
    requires !l.Away? ==> l.slot < |s.slots| && l.address != 0
    requires forall k :: k != i ==> Weight(l, k) == Weight(s.lookups[t], k)
    requires readers + Weight(s.lookups[t], i) == s.slots[i].readers + Weight(l, i)
    requires readers != s.slots[i].readers ==> !Owned(s.owner, i) && readers < Exclusive
    requires l.Pinned? ==> s.slots[l.slot].address == l.address
    ensures Inv(SetLookup(SetReaders(s, i, readers), t, l))
  {
    hide Holds;
    var s' := SetLookup(SetReaders(s, i, readers), t, l);
    forall k | 0 <= k < |s'.slots| ensures SlotOk(s', k) {
      assert SlotOk(s, k) && (k != i ==> Weight(l, k) == Weight(s.lookups[t], k));
      HoldersChange(s.lookups, t, l, k);
    }
    forall u | 0 <= u < |s'.lookups| ensures LookupOk(s', s'.lookups[u]) {
      if u != t { assert LookupOk(s, s.lookups[u]); }
    }
  }

  lemma LookupKeeps(s: Sys, x: Action)
    requires Inv(s) && Enabled(s, x) && IsLookup(x)
    ensures Inv(Next(s, x))
  {
    var t := x.thread;
    var l, l' := s.lookups[t], Next(s, x).lookups[t];
    assert LookupOk(s, l);
    if l.Away? {
      StartKeeps(s, t, x.address);
    } else {
      var i := l.slot;
      assert SlotOk(s, i);
      if Holds(l, i) {
        HolderCounts(s.lookups, t, i);
        PinExcludes(s, t);
      }
      var readers := Next(s, x).slots[i].readers;
      assert s.slots[i := s.slots[i].(readers := s.slots[i].readers)] == s.slots;
      assert Next(s, x) == SetLookup(SetReaders(s, i, readers), t, l');
      assert x.Swap? && l'.Counted? ==> l.seen < Exclusive - 1;
      hide Inv, Holders;
      MoveKeeps(s, t, l', i, readers);
    }
  }

  lemma StartKeeps(s: Sys, t: nat, a: nat)
    requires Inv(s) && Enabled(s, Start(t, a))
    ensures Inv(Next(s, Start(t, a)))
  {
    var s' := Next(s, Start(t, a));
    var l' := s'.lookups[t];
    forall k | 0 <= k < |s'.slots| ensures SlotOk(s', k) {
      assert SlotOk(s, k);
      HoldersChange(s.lookups, t, l', k);
    }
    hide Holders;
    forall u | 0 <= u < |s'.lookups| ensures LookupOk(s', s'.lookups[u]) {
      if u != t { assert LookupOk(s, s.lookups[u]); }
    }
  }

  /** A pin excludes ownership of its slot. */
  lemma PinExcludes(s: Sys, t: nat)
    requires Inv(s) && t < |s.lookups| && !s.lookups[t].Away? && Holds(s.lookups[t], s.lookups[t].slot)
    ensures !Owned(s.owner, s.lookups[t].slot)
  {
    assert LookupOk(s, s.lookups[t]) && SlotOk(s, s.lookups[t].slot);
    HolderCounts(s.lookups, t, s.lookups[t].slot);
  }

  lemma OwnerKeeps(s: Sys, x: Action)
    requires Inv(s) && Enabled(s, x) && !IsLookup(x)
    ensures Inv(Next(s, x))
  {
    var s' := Next(s, x);
    forall i | 0 <= i < |s'.slots| ensures SlotOk(s', i) { assert SlotOk(s, i); }
    forall u | 0 <= u < |s'.lookups| ensures LookupOk(s', s'.lookups[u]) {
      assert LookupOk(s, s.lookups[u]);
      if s.lookups[u].Pinned? { PinExcludes(s, u); }
    }
  }

  lemma StepKeeps(s: Sys, x: Action)
    requires Inv(s) && Enabled(s, x)
    ensures Inv(Next(s, x))
  {
    if IsLookup(x) { LookupKeeps(s, x); } else { OwnerKeeps(s, x); }
  }

  lemma InitInv(slots: nat, threads: nat)
    ensures Inv(Init(slots, threads))
  {
    var s := Init(slots, threads);
    forall i | 0 <= i < |s.slots| ensures SlotOk(s, i) { NoHolders(s.lookups, i); }
  }

  ghost predicate Run(run: seq<Sys>, actions: seq<Action>) {
    && |run| == |actions| + 1
    && (forall i :: 0 <= i < |actions| ==> Enabled(run[i], actions[i]) && run[i + 1] == Next(run[i], actions[i]))
  }

  lemma {:induction false} RunKeeps(run: seq<Sys>, actions: seq<Action>, slots: nat, threads: nat, i: nat)
    requires Run(run, actions) && run[0] == Init(slots, threads) && i < |run|
    ensures Inv(run[i])
  {
    hide Inv, Next, Enabled, Init;
    if i == 0 {
      InitInv(slots, threads);
    } else {
      RunKeeps(run, actions, slots, threads, i - 1);
      StepKeeps(run[i - 1], actions[i - 1]);
    }
  }

  /** From a successful lookup until it unpins, its slot names the address it looked up and nobody owns the slot. */
  lemma PinnedStaysBound(run: seq<Sys>, actions: seq<Action>, slots: nat, threads: nat, i: nat, t: nat)
    requires Run(run, actions) && run[0] == Init(slots, threads) && i < |run| && t < |run[i].lookups| && run[i].lookups[t].Pinned?
    ensures var l := run[i].lookups[t];
      l.slot < |run[i].slots| && run[i].slots[l.slot].address == l.address != 0 && !Owned(run[i].owner, l.slot)
  {
    hide Next, Enabled, Init;
    RunKeeps(run, actions, slots, threads, i);
    assert LookupOk(run[i], run[i].lookups[t]);
    PinExcludes(run[i], t);
  }

  /** While a slot is owned, no lookup holds it and its count is the sentinel; otherwise the count is exact and never the sentinel. */
  lemma CountExact(run: seq<Sys>, actions: seq<Action>, slots: nat, threads: nat, i: nat, k: nat)
    requires Run(run, actions) && run[0] == Init(slots, threads) && i < |run| && k < |run[i].slots|
    ensures Owned(run[i].owner, k) <==> run[i].slots[k].readers == Exclusive
    ensures Owned(run[i].owner, k) ==> forall t :: 0 <= t < |run[i].lookups| ==> !Holds(run[i].lookups[t], k)
    ensures !Owned(run[i].owner, k) ==> run[i].slots[k].readers == Holders(run[i].lookups, k)
  {
    hide Next, Enabled, Init;
    RunKeeps(run, actions, slots, threads, i);
    assert SlotOk(run[i], k);
    forall t | 0 <= t < |run[i].lookups| && Holds(run[i].lookups[t], k) ensures Holders(run[i].lookups, k) > 0 {
      HolderCounts(run[i].lookups, t, k);
    }
  }

  /** An address of a slot changes only while its owner has it alone. */
  lemma AddressChangesOwned(s: Sys, x: Action, k: nat)
    requires Inv(s) && Enabled(s, x) && k < |s.slots| && Next(s, x).slots[k].address != s.slots[k].address
    ensures Owned(s.owner, k) && forall t :: 0 <= t < |s.lookups| ==> !Holds(s.lookups[t], k)
  {
    assert SlotOk(s, k);
    forall t | 0 <= t < |s.lookups| && Holds(s.lookups[t], k) ensures Holders(s.lookups, k) > 0 { HolderCounts(s.lookups, t, k); }
  }
}
