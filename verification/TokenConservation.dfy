/**
 When exactly the write token is lost: a run loses it if and only if some grant is delivered to
 a host that no longer has the waiter it was granted for. Cancellation is the only way there.
 `TokenHealth` adds the other way to spoil a block, in which the token stays but nobody can use it.
 */
module TokenConservation {
  import opened TokenSpec
  import opened TokenProtocol

  function Here(s: Host): nat {
    if s.local.available then 1 else 0
  }

  /** Tokens a host accounts for after a call: its own, and the grants it sent. */
  function After(o: Outcome): nat {
    Here(o.host) + GrantCount(o.sent)
  }

  /** A call of the owner that keeps the token in sight: it is still here, or on its way to the new owner. */
  predicate Conserves(h: nat, o: Outcome) {
    && After(o) == 1 && !o.block.retiring
    && (o.block.owner == h <==> o.host.local.available)
  }

  lemma GrantToConserves(h: nat, b: Block, s: Host, r: Request)
    requires !b.retiring && b.owner == h && s.local.available
    ensures Conserves(h, GrantTo(h, b, s, r))
    decreases |s.local.pending|, 3
  {
    if r.id.host != h {
      ForwardCounts(s.local.pending, r.id.host);
      CountJoin([GrantTo(h, b, s, r).sent[0]], Forward(s.local.pending, r.id.host));
      CountOne(GrantTo(h, b, s, r).sent[0]);
    } else if r.id.serial in s.waiters && !(r.activate && Writing(b)) {
      ConferConserves(h, Activated(b, r.activate), s, r.id.serial);
    }
  }

  lemma ConferConserves(h: nat, b: Block, s: Host, serial: nat)
    requires !b.retiring && b.owner == h && serial in s.waiters
    ensures Conserves(h, Confer(h, b, s, serial))
    decreases |s.local.pending|, 2
  {
    if s.waiters[serial].abandoned {
      ReleaseConserves(h, b, TakeToken(s).(waiters := Discard(s.waiters, serial)), Lease(b.version, b.epoch), false);
    }
  }

  lemma ReleaseConserves(h: nat, b: Block, s: Host, lease: Lease, modified: bool)
    requires !b.retiring && b.owner == h && s.local.available
    ensures Conserves(h, Release(h, b, s, lease, modified))
    decreases |s.local.pending|, 1
  {
    if Accepts(h, b, s, lease, modified) { HandoffConserves(h, Committed(b, modified), s); }
  }

  lemma HandoffConserves(h: nat, b: Block, s: Host)
    requires !b.retiring && b.owner == h && s.local.available
    ensures Conserves(h, Handoff(h, b, s))
    decreases |s.local.pending|, 0
  {
    if s.local.pending != [] {
      GrantToConserves(h, b, s.(local := s.local.(pending := s.local.pending[1..])), s.local.pending[0]);
    }
  }

  /** A call that moves no token: owner and availability stay, and no grant is sent. */
  predicate Still(b: Block, s: Host, o: Outcome) {
    o.block.owner == b.owner && !o.block.retiring && o.host.local.available == s.local.available && GrantCount(o.sent) == 0
  }

  predicate Settled(h: nat, b: Block, s: Host, o: Outcome) {
    Still(b, s, o) || (b.owner == h && s.local.available && Conserves(h, o))
  }

  lemma NotGrant(m: Message)
    requires !m.Grant?
    ensures GrantCount([m]) == 0
  {
    CountOne(m);
    assert [m][1..] == [];
  }

  lemma SettledRelease(h: nat, b: Block, s: Host, lease: Lease, modified: bool)
    requires !b.retiring && (s.local.held ==> s.local.available)
    ensures Settled(h, b, s, Release(h, b, s, lease, modified))
  {
    if Accepts(h, b, s, lease, modified) { ReleaseConserves(h, b, s, lease, modified); }
  }

  lemma SettledCancel(h: nat, b: Block, s: Host, id: RequestId)
    requires !b.retiring
    ensures Still(b, s, HandleCancel(h, b, s, id))
  {
    NotGrant(Cancel(b.owner, id));
    NotGrant(CancelAck(id.host, id, false));
  }

  lemma SettledCancelRequest(h: nat, b: Block, s: Host, serial: nat)
    requires !b.retiring && (s.local.held ==> s.local.available)
    ensures Settled(h, b, s, CancelRequest(h, b, s, serial))
  {
    hide Release, HandleCancel;
    NotGrant(Cancel(b.owner, RequestId(h, serial)));
    if serial in s.waiters {
      var w := s.waiters[serial];
      match w.progress
      case Granted(lease) => SettledRelease(h, b, s.(waiters := s.waiters - {serial}), lease, false);
      case Active =>
        SettledCancel(h, b, s.(waiters := s.waiters[serial := w.(progress := Cancelling, abandoned := true)]), RequestId(h, serial));
      case Cancelling =>
        SettledCancel(h, b, s.(waiters := s.waiters[serial := w.(progress := Cancelling, abandoned := true)]), RequestId(h, serial));
      case _ =>
    }
  }

  /** Any packet but a grant. */
  lemma SettledHandle(h: nat, b: Block, s: Host, m: Message)
    requires !b.retiring && (s.local.held ==> s.local.available) && !m.Grant?
    ensures Settled(h, b, s, Handle(h, b, s, m))
  {
    hide GrantTo, HandleCancel;
    match m
    case Req(_, r) =>
      NotGrant(Reject(r.id.host, r.id));
      NotGrant(Req(b.owner, r));
      if r.observed <= b.version && b.owner == h && s.local.available && !s.local.held {
        GrantToConserves(h, b, s.(local := s.local.(held := true)), r);
      }
    case Cancel(_, id) => SettledCancel(h, b, s, id);
    case _ =>
  }

  /** All tokens of the system: with the owner, or travelling. */
  function Tokens(s: Sys): nat
    requires s.block.owner < |s.hosts|
  {
    Here(s.hosts[s.block.owner]) + GrantCount(s.net)
  }

  /** The step that loses the token: a grant arrives and its waiter is gone. */
  predicate Loses(s: Sys, a: Action) {
    && a.DoDeliver? && a.index < |s.net| && s.net[a.index].Grant? && !s.block.retiring
    && s.net[a.index].to < |s.hosts|
    && s.net[a.index].granted.serial !in s.hosts[s.net[a.index].to].waiters
  }

  /** A settled call of host `h` leaves the number of tokens as it was. */
  lemma SettledTokens(s: Sys, h: nat, o: Outcome, net: seq<Message>)
    requires Inv(s) && h < |s.hosts| && Settled(h, s.block, s.hosts[h], o) && GrantCount(net) == GrantCount(s.net)
    ensures s.block.owner < |s.hosts| && (o.block.owner < |s.hosts| ==>
      Tokens(Apply(s.(net := net), h, o)) == Tokens(s))
  {
    hide RequestsKept, TokenKept, PacketsOk, WaitersOk, ClaimsOk, UniquePlaces;
    CountJoin(net, o.sent);
    forall k | 0 <= k < |s.hosts| && k != s.block.owner ensures !s.hosts[k].local.available { assert LocalOk(s, k); }
  }

  lemma CountWithout(net: seq<Message>, i: nat)
    requires i < |net|
    ensures GrantCount(net) == GrantCount(net[..i] + net[i + 1..]) + (if net[i].Grant? then 1 else 0)
  {
    CountPick(net, i);
  }

  lemma HeldAvailable(s: Sys, h: nat)
    requires Inv(s) && h < |s.hosts|
    ensures s.hosts[h].local.held ==> s.hosts[h].local.available
    ensures s.block.owner < |s.hosts|
  {
    hide RequestsKept, TokenKept, PacketsOk, WaitersOk, ClaimsOk, UniquePlaces;
    assert LocalOk(s, h);
  }

  /** A delivered grant is the owner's, and takes effect unless its waiter is gone. */
  lemma GrantDelivery(s: Sys, i: nat)
    requires Inv(s) && Enabled(s, DoDeliver(i)) && s.net[i].Grant? && !s.block.retiring
    ensures var m := s.net[i]; var o := Handle(m.to, s.block, s.hosts[m.to], m);
      && m.to == s.block.owner && Tokens(s) == 1 && !s.hosts[m.to].local.available
      && (if Loses(s, DoDeliver(i)) then o == Unchanged(s.block, s.hosts[m.to], NotFound) else Conserves(m.to, o))
  {
    var m := s.net[i];
    assert PacketOk(s, m) && LocalOk(s, s.block.owner);
    CountWithout(s.net, i);
    hide Confer, RequestsKept, TokenKept, WaitersOk, ClaimsOk, UniquePlaces;
    if m.granted.serial in s.hosts[m.to].waiters {
      ConferConserves(m.to, Activated(s.block, m.activate), s.hosts[m.to], m.granted.serial);
    }
  }

  /** One step short of retirement changes the number of tokens only by losing one. */
  lemma StepTokens(s: Sys, a: Action, s': Sys)
    requires Inv(s) && Enabled(s, a) && s' == Next(s, a) && !s'.block.retiring
    ensures !s.block.retiring && s.block.owner < |s.hosts| && s'.block.owner < |s'.hosts|
    ensures Tokens(s) == Tokens(s') + (if Loses(s, a) then 1 else 0)
  {
    NotYetRetiring(s, a);
    StepKeeps(s, a);
    OwnerKnown(s);
    OwnerKnown(s');
    hide Inv, Settled;
    match a
    case DoRequest(h, activate) =>
      RequestSettled(s, h, activate);
      SettledTokens(s, h, RequestToken(h, s.block, s.hosts[h], s.next[h], activate), s.net);
    case DoDeliver(i) =>
      var m := s.net[i];
      CountWithout(s.net, i);
      if m.Grant? {
        GrantTokens(s, i);
      } else {
        HeldAvailable(s, m.to);
        SettledHandle(m.to, s.block, s.hosts[m.to], m);
        SettledTokens(s, m.to, Handle(m.to, s.block, s.hosts[m.to], m), s.net[..i] + s.net[i + 1..]);
      }
    case DoBegin(c) =>
      BeginSettled(s, c);
      SettledTokens(s, c.id.host, BeginWriteback(c.id.host, s.block, s.hosts[c.id.host], c.lease), s.net);
    case DoRelease(c, modified) =>
      HeldAvailable(s, c.id.host);
      SettledRelease(c.id.host, s.block, s.hosts[c.id.host], c.lease, modified);
      SettledTokens(s, c.id.host, Release(c.id.host, s.block, s.hosts[c.id.host], c.lease, modified), s.net);
    case DoCancel(h, serial) =>
      HeldAvailable(s, h);
      SettledCancelRequest(h, s.block, s.hosts[h], serial);
      SettledTokens(s, h, CancelRequest(h, s.block, s.hosts[h], serial), s.net);
    case _ => OtherTokens(s, a);
  }

  lemma NotYetRetiring(s: Sys, a: Action)
    requires Enabled(s, a) && !Next(s, a).block.retiring
    ensures !s.block.retiring
  {
    hide RequestToken, Release, CancelRequest, BeginWriteback;
    if s.block.retiring { RetiringStays(s, a); }
  }

  lemma RetiringStays(s: Sys, a: Action)
    requires Enabled(s, a) && s.block.retiring
    ensures Next(s, a).block.retiring
  {
    match a
    case DoRelease(c, modified) => RetiringRelease(c.id.host, s.block, s.hosts[c.id.host], c.lease, modified);
    case DoCancel(h, serial) => RetiringCancel(h, s.block, s.hosts[h], serial);
    case _ =>
  }

  lemma RetiringRelease(h: nat, b: Block, s: Host, lease: Lease, modified: bool)
    requires b.retiring
    ensures Release(h, b, s, lease, modified).block.retiring
  { }

  lemma RetiringCancel(h: nat, b: Block, s: Host, serial: nat)
    requires b.retiring
    ensures CancelRequest(h, b, s, serial).block.retiring
  {
    hide Release;
    if serial in s.waiters && s.waiters[serial].progress.Granted? {
      RetiringRelease(h, b, s.(waiters := s.waiters - {serial}), s.waiters[serial].progress.lease, false);
    }
  }

  lemma OwnerKnown(s: Sys)
    requires Inv(s)
    ensures s.block.owner < |s.hosts|
  { }

  lemma RequestSettled(s: Sys, h: nat, activate: bool)
    requires Enabled(s, DoRequest(h, activate)) && !s.block.retiring
    ensures Settled(h, s.block, s.hosts[h], RequestToken(h, s.block, s.hosts[h], s.next[h], activate))
  {
    NotGrant(Req(s.block.owner, TokenSpec.Request(RequestId(h, s.next[h]), s.block.version, activate)));
  }

  lemma BeginSettled(s: Sys, c: Claim)
    requires Enabled(s, DoBegin(c)) && !s.block.retiring
    ensures Settled(c.id.host, s.block, s.hosts[c.id.host], BeginWriteback(c.id.host, s.block, s.hosts[c.id.host], c.lease))
  { }

  lemma OtherTokens(s: Sys, a: Action)
    requires Enabled(s, a) && (a.DoClaim? || a.DoCollect? || a.DoRetain? || a.DoRetire? || a.DoClose?)
    requires !s.block.retiring && !Next(s, a).block.retiring && s.block.owner < |s.hosts|
    ensures Next(s, a).block.owner < |Next(s, a).hosts| && Tokens(Next(s, a)) == Tokens(s)
  { }

  lemma GrantTokens(s: Sys, i: nat)
    requires Inv(s) && Enabled(s, DoDeliver(i)) && s.net[i].Grant? && !s.block.retiring
    requires s.block.owner < |s.hosts| && Next(s, DoDeliver(i)).block.owner < |s.hosts|
    ensures Tokens(s) == Tokens(Next(s, DoDeliver(i))) + (if Loses(s, DoDeliver(i)) then 1 else 0)
  {
    var m := s.net[i];
    var rest := s.net[..i] + s.net[i + 1..];
    GrantDelivery(s, i);
    CountWithout(s.net, i);
    var o := Handle(m.to, s.block, s.hosts[m.to], m);
    CountJoin(rest, o.sent);
    NoOtherToken(s);
    hide Inv, Handle;
  }

  lemma NoOtherToken(s: Sys)
    requires Inv(s)
    ensures forall k :: 0 <= k < |s.hosts| && k != s.block.owner ==> !s.hosts[k].local.available
  {
    hide RequestsKept, TokenKept, PacketsOk, WaitersOk, ClaimsOk, UniquePlaces;
    forall k | 0 <= k < |s.hosts| && k != s.block.owner ensures !s.hosts[k].local.available { assert LocalOk(s, k); }
  }

  /** The token has been lost before step `i`. */
  ghost predicate LostBefore(run: seq<Sys>, actions: seq<Action>, i: nat)
    requires i <= |actions| < |run|
  {
    exists j :: 0 <= j < i && Loses(run[j], actions[j])
  }

  /**
   Until the block retires there is exactly one token if no grant has ever found its waiter gone,
   and none for ever after once that has happened. This covers every run, cancellations included.
   */
  lemma {:induction false} TokenLostExactly(run: seq<Sys>, actions: seq<Action>, n: nat, owner: nat, i: nat)
    requires owner < n && Run(run, actions) && run[0] == Init(n, owner) && i < |run| && !run[i].block.retiring
    ensures run[i].block.owner < |run[i].hosts|
    ensures Tokens(run[i]) == 1 <==> !LostBefore(run, actions, i)
    ensures Tokens(run[i]) == 0 <==> LostBefore(run, actions, i)
  {
    hide Inv, Next, Enabled, Loses;
    if i == 0 {
      assert Tokens(run[0]) == 1;
    } else {
      RunKeeps(run, actions, n, owner, i - 1);
      StepTokens(run[i - 1], actions[i - 1], run[i]);
      TokenLostExactly(run, actions, n, owner, i - 1);
    }
  }

  /** Only a cancellation that overtook its request leads there. */
  lemma LossNeedsOvertaking(run: seq<Sys>, actions: seq<Action>, n: nat, owner: nat, i: nat)
    requires owner < n && Run(run, actions) && run[0] == Init(n, owner) && i < |actions| && Loses(run[i], actions[i])
    ensures run[i].overtaken
  {
    assert Enabled(run[i], actions[i]);
    if !run[i].overtaken {
      HandlersSucceed(run, actions, n, owner, i);
      RunKeeps(run, actions, n, owner, i);
      GrantDelivery(run[i], actions[i].index);
    }
  }
}
