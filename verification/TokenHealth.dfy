/**
 When exactly the token stays usable. Two steps can spoil a block, both granting to a waiter that
 is gone: a grant packet that arrives too late loses the token, and an owner that grants a local
 request whose waiter was dropped stays held with nobody to release it.
 */
module TokenHealth {
  import opened TokenSpec
  import opened TokenProtocol
  import opened TokenConservation

  // ------------------------------------------------------------------ granting to nobody

  /** The owner picks a local request nobody waits for, at once or after abandoned grants in between. */
  predicate WedgesGrant(h: nat, b: Block, s: Host, r: Request)
    decreases |s.local.pending|, 3
  {
    && !b.retiring && r.id.host == h
    && if r.id.serial !in s.waiters then true
       else !(r.activate && Writing(b)) && WedgesConfer(h, Activated(b, r.activate), s, r.id.serial)
  }

  predicate WedgesConfer(h: nat, b: Block, s: Host, serial: nat)
    requires serial in s.waiters
    decreases |s.local.pending|, 2
  {
    && s.waiters[serial].abandoned
    && WedgesRelease(h, b, TakeToken(s).(waiters := Discard(s.waiters, serial)), Lease(b.version, b.epoch), false)
  }

  predicate WedgesHandoff(h: nat, b: Block, s: Host)
    decreases |s.local.pending|, 0
  {
    && !b.retiring && s.local.pending != []
    && WedgesGrant(h, b, s.(local := s.local.(pending := s.local.pending[1..])), s.local.pending[0])
  }

  predicate WedgesRelease(h: nat, b: Block, s: Host, lease: Lease, modified: bool)
    decreases |s.local.pending|, 1
  {
    Accepts(h, b, s, lease, modified) && WedgesHandoff(h, Committed(b, modified), s)
  }

  /** The step leaves the block held by a host whose request has no waiter. */
  predicate Wedges(s: Sys, a: Action) {
    match a
    case DoDeliver(i) =>
      && i < |s.net| && s.net[i].to < |s.hosts| && !s.block.retiring
      && var m := s.net[i]; var h := s.hosts[m.to];
      && (match m
          case Req(_, r) =>
            && r.observed <= s.block.version && s.block.owner == m.to && h.local.available && !h.local.held
            && WedgesGrant(m.to, s.block, h.(local := h.local.(held := true)), r)
          case Grant(_, id, version, epoch, activate) =>
            && s.block.owner == m.to && s.block.epoch == epoch && s.block.version == version
            && id.serial in h.waiters && !(activate && Writing(s.block))
            && WedgesConfer(m.to, Activated(s.block, activate), h, id.serial)
          case _ => false)
    case DoRelease(c, modified) =>
      c.id.host < |s.hosts| && WedgesRelease(c.id.host, s.block, s.hosts[c.id.host], c.lease, modified)
    case DoCancel(h, serial) =>
      && h < |s.hosts| && serial in s.hosts[h].waiters && s.hosts[h].waiters[serial].progress.Granted?
      && WedgesRelease(h, s.block, s.hosts[h].(waiters := s.hosts[h].waiters - {serial}), s.hosts[h].waiters[serial].progress.lease, false)
    case _ => false
  }

  ghost predicate GrantedAny(waiters: map<nat, Waiter>) {
    exists k :: k in waiters && waiters[k].progress.Granted?
  }

  /** What a grant by the owner leads to: somebody has a lease, the block is free or gone, or nobody can free it. */
  ghost predicate Settles(h: nat, s: Host, o: Outcome, wedged: bool) {
    if wedged then
      && o.status == NotFound && o.block.owner == h && o.host.local.held
      && (!GrantedAny(s.waiters) ==> !GrantedAny(o.host.waiters))
    else
      && o.status == Ok
      && (o.block.owner != h || !o.host.local.held || GrantedAny(o.host.waiters))
  }

  lemma GrantSettles(h: nat, b: Block, s: Host, r: Request)
    requires !b.retiring && b.owner == h && s.local.held && !Writing(b)
    ensures Settles(h, s, GrantTo(h, b, s, r), WedgesGrant(h, b, s, r))
    decreases |s.local.pending|, 3
  {
    if r.id.host == h && r.id.serial in s.waiters {
      ConferSettles(h, Activated(b, r.activate), s, r.id.serial);
    }
  }

  lemma ConferSettles(h: nat, b: Block, s: Host, serial: nat)
    requires !b.retiring && b.owner == h && serial in s.waiters
    ensures Settles(h, s, Confer(h, b, s, serial), WedgesConfer(h, b, s, serial))
    decreases |s.local.pending|, 2
  {
    var o := Confer(h, b, s, serial);
    if s.waiters[serial].abandoned {
      var t := TakeToken(s).(waiters := Discard(s.waiters, serial));
      if !GrantedAny(s.waiters) { assert !GrantedAny(t.waiters); }
      var lease := Lease(b.version, b.epoch);
      assert o == Release(h, b, t, lease, false);
      assert Accepts(h, b, t, lease, false) && Release(h, b, t, lease, false) == Handoff(h, Committed(b, false), t);
      assert WedgesConfer(h, b, s, serial) == WedgesRelease(h, b, t, lease, false) == WedgesHandoff(h, Committed(b, false), t);
      HandoffSettles(h, Committed(b, false), t);
    } else {
      assert o.host.waiters[serial].progress.Granted?;
    }
  }

  lemma HandoffSettles(h: nat, b: Block, s: Host)
    requires !b.retiring && b.owner == h && s.local.held && !Writing(b)
    ensures Settles(h, s, Handoff(h, b, s), WedgesHandoff(h, b, s))
    decreases |s.local.pending|, 0
  {
    if s.local.pending != [] {
      GrantSettles(h, b, s.(local := s.local.(pending := s.local.pending[1..])), s.local.pending[0]);
    }
  }

  // ------------------------------------------------------------------ the whole system

  predicate OwnerHolds(s: Sys) {
    s.block.owner < |s.hosts| && s.hosts[s.block.owner].local.held
  }

  /** Somebody has the lease, or is about to collect it. */
  ghost predicate Leased(s: Sys) {
    s.block.owner < |s.hosts| && (s.claims != {} || GrantedAny(s.hosts[s.block.owner].waiters))
  }

  lemma LeasedIff(s: Sys)
    requires Inv(s)
    ensures Leased(s) <==> exists id :: Ticket(s, id)
    ensures Leased(s) ==> OwnerHolds(s)
  {
    hide RequestsKept, TokenKept, Places, UniquePlaces, PacketsOk;
    if Leased(s) {
      if c :| c in s.claims {
        assert Claimed(s, c.id) && Ticket(s, c.id);
      } else {
        var k :| k in s.hosts[s.block.owner].waiters && s.hosts[s.block.owner].waiters[k].progress.Granted?;
        assert Ticket(s, RequestId(s.block.owner, k));
        assert WaiterOk(s, RequestId(s.block.owner, k));
      }
    }
    if id :| Ticket(s, id) {
      if GrantedWaiter(s, id) { assert WaiterOk(s, RequestId(id.host, id.serial)); }
    }
  }

  /** A held block has a lease out. */
  ghost predicate HeldSound(s: Sys) {
    OwnerHolds(s) ==> Leased(s)
  }

  /** Held with nobody to release it. */
  ghost predicate Wedged(s: Sys) {
    OwnerHolds(s) && !Leased(s)
  }

  /** What one step does to the lease. */
  ghost predicate LeaseStep(s: Sys, s': Sys, wedges: bool) {
    if wedges then Wedged(s') else (HeldSound(s) ==> HeldSound(s'))
  }

  /** Nobody has a lease on a block that is not held. */
  lemma FreeMeansNone(s: Sys)
    requires Inv(s) && !OwnerHolds(s)
    ensures s.block.owner < |s.hosts| && s.claims == {} && !GrantedAny(s.hosts[s.block.owner].waiters)
    ensures !Writing(s.block)
  {
    LeasedIff(s);
    hide RequestsKept, TokenKept, Places, UniquePlaces, PacketsOk, WaitersOk, ClaimsOk;
  }

  /** Other hosts have no token state, so a new owner starts unheld. */
  lemma OthersIdle(s: Sys, h: nat)
    requires Inv(s) && h < |s.hosts| && h != s.block.owner
    ensures s.hosts[h].local == Idle && !GrantedAny(s.hosts[h].waiters)
  {
    hide RequestsKept, TokenKept, Places, UniquePlaces, PacketsOk, ClaimsOk;
    assert LocalOk(s, h);
    forall k | k in s.hosts[h].waiters ensures !s.hosts[h].waiters[k].progress.Granted? { assert WaiterOk(s, RequestId(h, k)); }
  }

  /** A grant by the owner with no lease out: it settles, or wedges the block. */
  lemma OwnerSettles(s: Sys, s': Sys, h: nat, before: Host, o: Outcome, wedges: bool)
    requires Inv(s) && h == s.block.owner < |s.hosts| == |s'.hosts| && Settles(h, before, o, wedges) && !GrantedAny(before.waiters)
    requires s'.block == o.block && s'.hosts == s.hosts[h := o.host] && s'.claims == {} && o.block.owner < |s.hosts|
    ensures LeaseStep(s, s', wedges)
  {
    if o.block.owner != h { OthersIdle(s, o.block.owner); }
  }

  /** The lease is where it was. */
  lemma QuietLease(s: Sys, s': Sys)
    requires s.block.owner == s'.block.owner < |s.hosts| == |s'.hosts| && s'.claims == s.claims
    requires s'.hosts[s.block.owner].local.held == s.hosts[s.block.owner].local.held
    requires GrantedAny(s.hosts[s.block.owner].waiters) ==> GrantedAny(s'.hosts[s.block.owner].waiters)
    ensures LeaseStep(s, s', false)
  { }

  lemma NextOwner(s: Sys, a: Action)
    requires Inv(s) && Enabled(s, a)
    ensures s.block.owner < |s.hosts| && Next(s, a).block.owner < |Next(s, a).hosts| == |s.hosts|
  {
    hide Inv, Next;
    StepKeeps(s, a);
    OwnerKnown(s);
    OwnerKnown(Next(s, a));
    StepHosts(s, a);
  }

  lemma ReleaseLease(s: Sys, c: Claim, modified: bool)
    requires Inv(s) && Enabled(s, DoRelease(c, modified)) && !s.block.retiring
    ensures LeaseStep(s, Next(s, DoRelease(c, modified)), Wedges(s, DoRelease(c, modified)))
  {
    hide Inv, Handoff, WedgesHandoff;
    var a := DoRelease(c, modified);
    var h := c.id.host;
    NextOwner(s, a);
    ClaimAlone(s, c);
    if Accepts(h, s.block, s.hosts[h], c.lease, modified) {
      HandoffSettles(h, Committed(s.block, modified), s.hosts[h]);
      OwnerSettles(s, Next(s, a), h, s.hosts[h], Handoff(h, Committed(s.block, modified), s.hosts[h]), Wedges(s, a));
    } else {
      assert s.hosts[h := s.hosts[h]] == s.hosts;
      QuietLease(s, Next(s, a));
    }
  }

  lemma ClaimAlone(s: Sys, c: Claim)
    requires Inv(s) && c in s.claims
    ensures c.id.host == s.block.owner < |s.hosts| && s.claims == {c} && !GrantedAny(s.hosts[s.block.owner].waiters)
  {
    hide RequestsKept, TokenKept, Places, UniquePlaces, PacketsOk;
    var h := s.block.owner;
    forall k | k in s.hosts[h].waiters ensures !s.hosts[h].waiters[k].progress.Granted? { assert WaiterOk(s, RequestId(h, k)); }
  }

  /** The state after delivering packet `i`, with the packet taken out. */
  lemma DeliverLease(s: Sys, i: nat)
    requires Inv(s) && Enabled(s, DoDeliver(i)) && !s.block.retiring
    ensures LeaseStep(s, Next(s, DoDeliver(i)), Wedges(s, DoDeliver(i)))
  {
    hide Inv, Handle, LeaseStep, Wedges;
    NextOwner(s, DoDeliver(i));
    match s.net[i]
    case Req(_, _) => RequestLease(s, i);
    case Grant(_, _, _, _, _) => GrantLease(s, i);
    case _ => CancelLease(s, i);
  }

  lemma RequestLease(s: Sys, i: nat)
    requires Inv(s) && Enabled(s, DoDeliver(i)) && !s.block.retiring && s.net[i].Req?
    requires Next(s, DoDeliver(i)).block.owner < |s.hosts|
    ensures LeaseStep(s, Next(s, DoDeliver(i)), Wedges(s, DoDeliver(i)))
  {
    hide Inv, GrantTo, WedgesGrant;
    var m, s' := s.net[i], Next(s, DoDeliver(i));
    var h := s.hosts[m.to];
    DeliveredReq(s, i);
    if m.to == s.block.owner && h.local.available && !h.local.held {
      FreeMeansNone(s);
      var t := h.(local := h.local.(held := true));
      GrantSettles(m.to, s.block, t, m.request);
      OwnerSettles(s, s', m.to, t, GrantTo(m.to, s.block, t, m.request), Wedges(s, DoDeliver(i)));
    } else {
      QuietLease(s, s');
    }
  }

  lemma DeliveredReq(s: Sys, i: nat)
    requires Inv(s) && i < |s.net| && s.net[i].Req?
    ensures s.net[i].request.observed <= s.block.version && s.block.owner < |s.hosts|
  {
    assert PacketOk(s, s.net[i]);
  }

  lemma GrantLease(s: Sys, i: nat)
    requires Inv(s) && Enabled(s, DoDeliver(i)) && !s.block.retiring && s.net[i].Grant?
    requires Next(s, DoDeliver(i)).block.owner < |s.hosts|
    ensures LeaseStep(s, Next(s, DoDeliver(i)), Wedges(s, DoDeliver(i)))
  {
    hide Inv, Confer, WedgesConfer;
    var m, s' := s.net[i], Next(s, DoDeliver(i));
    var h := s.hosts[m.to];
    DeliveredGrant(s, i);
    FreeMeansNone(s);
    if m.granted.serial in h.waiters {
      var b := Activated(s.block, m.activate);
      ConferSettles(m.to, b, h, m.granted.serial);
      OwnerSettles(s, s', m.to, h, Confer(m.to, b, h, m.granted.serial), Wedges(s, DoDeliver(i)));
    } else {
      QuietLease(s, s');
    }
  }

  lemma DeliveredGrant(s: Sys, i: nat)
    requires Inv(s) && i < |s.net| && s.net[i].Grant?
    ensures var m := s.net[i];
      && m.to == s.block.owner < |s.hosts| && m.epoch == s.block.epoch && m.version == s.block.version && !OwnerHolds(s)
  {
    assert PacketOk(s, s.net[i]) && LocalOk(s, s.block.owner);
    CountWithout(s.net, i);
  }

  /** A cancellation or its acknowledgement never touches a granted waiter. */
  lemma CancelLease(s: Sys, i: nat)
    requires Inv(s) && Enabled(s, DoDeliver(i)) && !s.block.retiring && !s.net[i].Req? && !s.net[i].Grant?
    requires Next(s, DoDeliver(i)).block.owner < |s.hosts|
    ensures LeaseStep(s, Next(s, DoDeliver(i)), Wedges(s, DoDeliver(i)))
  {
    hide Inv, Without;
    var m, s' := s.net[i], Next(s, DoDeliver(i));
    DeliveredCancel(s, i);
    var h := s.block.owner;
    if k :| k in s.hosts[h].waiters && s.hosts[h].waiters[k].progress.Granted? {
      assert k in s'.hosts[h].waiters && s'.hosts[h].waiters[k].progress.Granted?;
    }
    QuietLease(s, s');
  }

  lemma DeliveredCancel(s: Sys, i: nat)
    requires Inv(s) && i < |s.net| && !s.net[i].Req? && !s.net[i].Grant?
    ensures var m := s.net[i]; var id := Identity(m);
      && (m.Cancel? || m.CancelAck?) && id.host < |s.hosts| && s.block.owner < |s.hosts| && (m.CancelAck? ==> m.to == id.host)
      && (id.serial in s.hosts[id.host].waiters ==> !s.hosts[id.host].waiters[id.serial].progress.Granted?)
  {
    var id := Identity(s.net[i]);
    assert PacketOk(s, s.net[i]);
    if id.serial in s.hosts[id.host].waiters { assert WaiterOk(s, RequestId(id.host, id.serial)); }
  }

  lemma AskLease(s: Sys, h: nat, activate: bool)
    requires Inv(s) && Enabled(s, DoRequest(h, activate)) && !s.block.retiring
    ensures LeaseStep(s, Next(s, DoRequest(h, activate)), false)
  {
    hide Inv;
    NextOwner(s, DoRequest(h, activate));
    if !OwnerHolds(s) { FreeMeansNone(s); }
    var s', o := Next(s, DoRequest(h, activate)), s.block.owner;
    NewSerial(s, h);
    if k :| k in s.hosts[o].waiters && s.hosts[o].waiters[k].progress.Granted? {
      assert k in s'.hosts[o].waiters && s'.hosts[o].waiters[k].progress.Granted?;
    }
    if s'.hosts[o].local.held == s.hosts[o].local.held {
      QuietLease(s, s');
    } else {
      assert s.next[h] in s'.hosts[o].waiters && s'.hosts[o].waiters[s.next[h]].progress.Granted?;
    }
  }

  lemma NewSerial(s: Sys, h: nat)
    requires Inv(s) && h < |s.hosts| == |s.next|
    ensures s.next[h] !in s.hosts[h].waiters
  {
    forall k | k in s.hosts[h].waiters ensures k != s.next[h] { assert WaiterOk(s, RequestId(h, k)); }
  }

  lemma WithdrawLease(s: Sys, h: nat, serial: nat)
    requires Inv(s) && Enabled(s, DoCancel(h, serial)) && !s.block.retiring
    ensures LeaseStep(s, Next(s, DoCancel(h, serial)), Wedges(s, DoCancel(h, serial)))
  {
    hide Inv, Handoff, WedgesHandoff, Without;
    var a := DoCancel(h, serial);
    NextOwner(s, a);
    var s', o := Next(s, a), s.block.owner;
    if serial in s.hosts[h].waiters && s.hosts[h].waiters[serial].progress.Granted? {
      GrantedAlone(s, h, serial);
      var t := s.hosts[h].(waiters := s.hosts[h].waiters - {serial});
      HandoffSettles(h, Committed(s.block, false), t);
      OwnerSettles(s, s', h, t, Handoff(h, Committed(s.block, false), t), Wedges(s, a));
    } else {
      if k :| k in s.hosts[o].waiters && s.hosts[o].waiters[k].progress.Granted? {
        assert k in s'.hosts[o].waiters && s'.hosts[o].waiters[k].progress.Granted?;
      }
      QuietLease(s, s');
    }
  }

  /** A granted waiter has the only lease, a current one. */
  lemma GrantedAlone(s: Sys, h: nat, serial: nat)
    requires Inv(s) && h < |s.hosts| && serial in s.hosts[h].waiters && s.hosts[h].waiters[serial].progress.Granted?
    ensures h == s.block.owner && s.hosts[h].local.held && s.claims == {}
    ensures s.hosts[h].waiters[serial].progress.lease == Lease(s.block.version, s.block.epoch)
    ensures !GrantedAny(s.hosts[h].waiters - {serial})
  {
    hide RequestsKept, TokenKept, Places, UniquePlaces, PacketsOk;
    assert WaiterOk(s, RequestId(h, serial));
    forall k | k in s.hosts[h].waiters - {serial} ensures !s.hosts[h].waiters[k].progress.Granted? {
      assert GrantedWaiter(s, RequestId(h, serial));
      assert GrantedWaiter(s, RequestId(h, k)) <==> s.hosts[h].waiters[k].progress.Granted?;
    }
  }

  lemma OtherLease(s: Sys, a: Action)
    requires Inv(s) && Enabled(s, a) && (a.DoClaim? || a.DoCollect? || a.DoRetain? || a.DoBegin?)
    ensures LeaseStep(s, Next(s, a), false)
  {
    hide Inv;
    NextOwner(s, a);
    var s', o := Next(s, a), s.block.owner;
    if !a.DoClaim? {
      if k :| k in s.hosts[o].waiters && s.hosts[o].waiters[k].progress.Granted? {
        assert k in s'.hosts[o].waiters && s'.hosts[o].waiters[k].progress.Granted?;
      }
      QuietLease(s, s');
    }
  }

  lemma StepLease(s: Sys, a: Action, s': Sys)
    requires Inv(s) && Enabled(s, a) && s' == Next(s, a) && !s'.block.retiring
    ensures LeaseStep(s, s', Wedges(s, a))
  {
    hide Inv, LeaseStep;
    NotYetRetiring(s, a);
    match a
    case DoRequest(h, activate) => AskLease(s, h, activate);
    case DoDeliver(i) => DeliverLease(s, i);
    case DoRelease(c, modified) => ReleaseLease(s, c, modified);
    case DoCancel(h, serial) => WithdrawLease(s, h, serial);
    case DoRetire => assert false;
    case DoClose(_) => assert false;
    case _ => OtherLease(s, a);
  }

  // ------------------------------------------------------------------ for good

  /** Nothing that spoils a wedged block's state: the owner keeps it, and nobody gets a lease. */
  lemma QuietWedge(s: Sys, s': Sys)
    requires Wedged(s) && s'.block.owner == s.block.owner && |s'.hosts| == |s.hosts| && s'.claims == s.claims
    requires s'.hosts[s.block.owner].local.held == s.hosts[s.block.owner].local.held
    requires GrantedAny(s'.hosts[s.block.owner].waiters) ==> GrantedAny(s.hosts[s.block.owner].waiters)
    ensures Wedged(s')
  { }

  lemma WedgedFacts(s: Sys)
    requires Inv(s) && Wedged(s)
    ensures GrantCount(s.net) == 0 && (forall i :: 0 <= i < |s.net| ==> !s.net[i].Grant?)
    ensures forall id :: !Ticket(s, id)
    ensures s.claims == {} && forall id :: !GrantedWaiter(s, id)
    ensures s.hosts[s.block.owner].local.available
  {
    LeasedIff(s);
    assert forall id :: GrantedWaiter(s, id) ==> Ticket(s, id);
    HeldAvailable(s, s.block.owner);
    assert GrantCount(s.net) == 0;
    hide Inv;
    forall i | 0 <= i < |s.net| ensures !s.net[i].Grant? { CountWithout(s.net, i); }
  }

  lemma WedgedDeliver(s: Sys, i: nat)
    requires Inv(s) && Wedged(s) && Enabled(s, DoDeliver(i))
    ensures Wedged(Next(s, DoDeliver(i))) && Next(s, DoDeliver(i)).block.owner == s.block.owner
  {
    hide Inv, Without, GrantTo, Confer;
    WedgedFacts(s);
    if s.net[i].Req? {
      DeliveredReq(s, i);
    } else {
      DeliveredCancel(s, i);
    }
    QuietWedge(s, Next(s, DoDeliver(i)));
  }

  /** A wedged block stays wedged, through retirement and closing too. */
  lemma WedgedStays(s: Sys, a: Action)
    requires Inv(s) && Wedged(s) && Enabled(s, a)
    ensures Wedged(Next(s, a)) && Next(s, a).block.owner == s.block.owner
  {
    hide Inv, Without, Release, Handle;
    WedgedFacts(s);
    StepHosts(s, a);
    match a
    case DoDeliver(i) => WedgedDeliver(s, i);
    case DoClaim(_, _) => assert false;
    case DoBegin(c) => assert false;
    case DoRelease(c, _) => assert false;
    case DoCancel(h, serial) =>
      assert !Ticket(s, RequestId(h, serial));
      QuietWedge(s, Next(s, a));
    case DoClose(h) =>
      forall k | k in s.hosts[h].waiters ensures !s.hosts[h].waiters[k].progress.Granted? { assert !Ticket(s, RequestId(h, k)); }
      QuietWedge(s, Next(s, a));
    case _ => QuietWedge(s, Next(s, a));
  }

  lemma {:induction false} WedgedForGood(run: seq<Sys>, actions: seq<Action>, n: nat, owner: nat, i: nat, j: nat)
    requires owner < n && Run(run, actions) && run[0] == Init(n, owner) && i <= j < |run| && Wedged(run[i])
    ensures Wedged(run[j]) && run[j].block.owner == run[i].block.owner
    ensures forall id :: !Ticket(run[j], id)
    decreases j
  {
    hide Inv, Next, Enabled, Init, Wedged;
    RunKeeps(run, actions, n, owner, j);
    if i < j {
      WedgedForGood(run, actions, n, owner, i, j - 1);
      RunKeeps(run, actions, n, owner, j - 1);
      WedgedStays(run[j - 1], actions[j - 1]);
    }
    WedgedFacts(run[j]);
  }

  // ------------------------------------------------------------------ exactly

  /** One token, and the block is held exactly when somebody has a lease on it. */
  ghost predicate Healthy(s: Sys) {
    && s.block.owner < |s.hosts| && Tokens(s) == 1
    && (s.hosts[s.block.owner].local.held <==> exists id :: Ticket(s, id))
  }

  /** Some step before `i` granted to a waiter that was gone. */
  ghost predicate SpoiltBefore(run: seq<Sys>, actions: seq<Action>, i: nat)
    requires i <= |actions| < |run|
  {
    exists j :: 0 <= j < i && (Loses(run[j], actions[j]) || Wedges(run[j], actions[j]))
  }

  /**
   For every run until retirement, cancellations included: the token is in one place and the
   block is held exactly while leased, if and only if no step granted to a waiter that was gone.
   Otherwise there is no token, or the owner holds the block for nobody.
   */
  lemma {:induction false} HealthyExactly(run: seq<Sys>, actions: seq<Action>, n: nat, owner: nat, i: nat)
    requires owner < n && Run(run, actions) && run[0] == Init(n, owner) && i < |run| && !run[i].block.retiring
    ensures Healthy(run[i]) <==> !SpoiltBefore(run, actions, i)
    ensures run[i].block.owner < |run[i].hosts|
    ensures SpoiltBefore(run, actions, i) <==> Tokens(run[i]) == 0 || Wedged(run[i])
  {
    hide Inv, Next, Enabled, Loses, Wedges, Wedged, HeldSound;
    RunKeeps(run, actions, n, owner, i);
    if i == 0 {
      StartsHealthy(n, owner);
    } else {
      var s, a, s' := run[i - 1], actions[i - 1], run[i];
      RunKeeps(run, actions, n, owner, i - 1);
      StepTokens(s, a, s');
      HealthyExactly(run, actions, n, owner, i - 1);
      StepLease(s, a, s');
      if Wedged(s) { WedgedStays(s, a); }
      SpoiltStep(run, actions, i);
      SoundOrWedged(s);
    }
    SoundOrWedged(run[i]);
  }

  lemma SpoiltStep(run: seq<Sys>, actions: seq<Action>, i: nat)
    requires 0 < i <= |actions| < |run|
    ensures SpoiltBefore(run, actions, i) <==>
      SpoiltBefore(run, actions, i - 1) || Loses(run[i - 1], actions[i - 1]) || Wedges(run[i - 1], actions[i - 1])
  {
    hide Loses, Wedges;
  }

  lemma StartsHealthy(n: nat, owner: nat)
    requires owner < n
    ensures var s := Init(n, owner); s.block.owner < |s.hosts| && Tokens(s) == 1 && HeldSound(s)
  { }

  lemma SoundOrWedged(s: Sys)
    requires Inv(s)
    ensures HeldSound(s) <==> !Wedged(s)
    ensures s.block.owner < |s.hosts| && (HeldSound(s) <==> (s.hosts[s.block.owner].local.held <==> exists id :: Ticket(s, id)))
  {
    LeasedIff(s);
    OwnerKnown(s);
    hide Inv, Ticket;
  }

  /** Only a cancellation that overtook its request spoils a block. */
  lemma SpoilNeedsOvertaking(run: seq<Sys>, actions: seq<Action>, n: nat, owner: nat, i: nat)
    requires owner < n && Run(run, actions) && run[0] == Init(n, owner) && i < |run| && !run[i].block.retiring
    requires SpoiltBefore(run, actions, i)
    ensures run[i].overtaken
  {
    hide Next, Enabled, Init, Inv, SpoiltBefore;
    HealthyExactly(run, actions, n, owner, i);
    if !run[i].overtaken {
      ExactlyOneToken(run, actions, n, owner, i);
    }
  }

  lemma GrantToStatus(h: nat, b: Block, s: Host, r: Request)
    requires !b.retiring && b.owner == h && s.local.held && !Writing(b)
    ensures GrantTo(h, b, s, r).status == if WedgesGrant(h, b, s, r) then NotFound else Ok
  {
    GrantSettles(h, b, s, r);
  }

  /** A handler reports an error exactly at a step that spoils the block, in every run. */
  lemma HandlerFailsExactly(run: seq<Sys>, actions: seq<Action>, n: nat, owner: nat, i: nat)
    requires owner < n && Run(run, actions) && run[0] == Init(n, owner) && i < |actions| && actions[i].DoDeliver?
    ensures var m := run[i].net[actions[i].index];
      && m.to < |run[i].hosts|
      && (Handle(m.to, run[i].block, run[i].hosts[m.to], m).status != Ok <==> Loses(run[i], actions[i]) || Wedges(run[i], actions[i]))
  {
    hide Next, Init, Inv, GrantTo, Confer, WedgesGrant, WedgesConfer, Without;
    RunKeeps(run, actions, n, owner, i);
    var s, k := run[i], actions[i].index;
    assert Enabled(s, DoDeliver(k)) && actions[i] == DoDeliver(k);
    if !s.block.retiring {
      match s.net[k]
      case Req(to, r) =>
        DeliveredReq(s, k);
        if to == s.block.owner && s.hosts[to].local.available && !s.hosts[to].local.held {
          FreeMeansNone(s);
          GrantToStatus(to, s.block, s.hosts[to].(local := s.hosts[to].local.(held := true)), r);
        }
      case Grant(to, id, _, _, activate) =>
        DeliveredGrant(s, k);
        FreeMeansNone(s);
        if id.serial in s.hosts[to].waiters { ConferSettles(to, Activated(s.block, activate), s.hosts[to], id.serial); }
      case _ => DeliveredCancel(s, k);
    }
  }

  /** So does the release of a lease that is out: it cannot find the next waiter exactly when it wedges the block. */
  lemma ReleaseFailsExactly(run: seq<Sys>, actions: seq<Action>, n: nat, owner: nat, i: nat, c: Claim, modified: bool)
    requires owner < n && Run(run, actions) && run[0] == Init(n, owner) && i < |actions| && actions[i] == DoRelease(c, modified)
    ensures c.id.host < |run[i].hosts|
    ensures Release(c.id.host, run[i].block, run[i].hosts[c.id.host], c.lease, modified).status ==
      if modified && !Writing(run[i].block) then FailedPrecondition else if Wedges(run[i], actions[i]) then NotFound else Ok
  {
    hide Next, Init, Inv, Handoff, WedgesHandoff;
    RunKeeps(run, actions, n, owner, i);
    var s := run[i];
    assert Enabled(s, actions[i]);
    ClaimAccepted(s, c);
    if !s.block.retiring {
      if !(modified && !Writing(s.block)) { HandoffSettles(c.id.host, Committed(s.block, modified), s.hosts[c.id.host]); }
    } else {
      RetiringHandsOff(c.id.host, Committed(s.block, modified), s.hosts[c.id.host]);
    }
  }

  lemma ClaimAccepted(s: Sys, c: Claim)
    requires Inv(s) && c in s.claims
    ensures c.id.host == s.block.owner < |s.hosts| && c.lease == Lease(s.block.version, s.block.epoch) && s.hosts[s.block.owner].local.held
  {
    hide RequestsKept, TokenKept, Places, UniquePlaces, PacketsOk, WaitersOk;
  }

  lemma RetiringHandsOff(h: nat, b: Block, s: Host)
    requires b.retiring
    ensures Handoff(h, b, s).status == Ok && !WedgesHandoff(h, b, s)
  { }
}
