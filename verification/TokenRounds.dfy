/**
 Whole exchanges between hosts: a writeback from its opening to its publication with anything in
 between, a request until its lease, a hand-over with everybody's turn kept, and a cancellation
 until its acknowledgement. They succeed, which no bound on the bad cases says.
 */
module TokenRounds {
  import opened TokenSpec
  import opened TokenProtocol
  import opened TokenHealth
  import TokenLaws

  // ------------------------------------------------------------------ a writeback

  lemma ClaimHolds(s: Sys, c: Claim)
    requires Inv(s) && c in s.claims
    ensures c.id.host == s.block.owner < |s.hosts| && c.lease.epoch == s.block.epoch && s.hosts[s.block.owner].local.held
    ensures s.hosts[s.block.owner].local.available && s.claims == {c} && GrantCount(s.net) == 0
    ensures forall h, k :: 0 <= h < |s.hosts| && k in s.hosts[h].waiters ==> !s.hosts[h].waiters[k].progress.Granted?
  {
    hide RequestsKept, TokenKept, Places, UniquePlaces, PacketsOk, GrantCount;
    assert LocalOk(s, s.block.owner);
    forall h, k | 0 <= h < |s.hosts| && k in s.hosts[h].waiters ensures !s.hosts[h].waiters[k].progress.Granted? {
      assert WaiterOk(s, RequestId(h, k));
    }
  }

  /** Opening a writeback under a lease that is out succeeds unless it is open already; either way it is open then. */
  lemma BeginStep(s: Sys, c: Claim)
    requires Inv(s) && Enabled(s, DoBegin(c))
    ensures var o, s' := BeginWriteback(c.id.host, s.block, s.hosts[c.id.host], c.lease), Next(s, DoBegin(c));
      && o.status == (if Writing(s.block) then FailedPrecondition else Ok)
      && Writing(s'.block) && c in s'.claims
      && s'.block == (if Writing(s.block) then s.block else s.block.(writeback := s.block.writeback + 1))
  {
    hide Inv, BeginWriteback;
    ClaimHolds(s, c);
    TokenLaws.BeginOpens(c.id.host, s.block, s.hosts[c.id.host], c.lease);
  }

  /** While a lease is out and open, no step of anybody touches the block's record. */
  lemma OpenStep(s: Sys, a: Action, c: Claim)
    requires Inv(s) && Enabled(s, a) && c in s.claims && c in Next(s, a).claims && Writing(s.block)
    ensures var s' := Next(s, a); s'.block == s.block.(retiring := s'.block.retiring) && (s.block.retiring ==> s'.block.retiring)
  {
    ClaimHolds(s, c);
    hide Inv, Handle, RequestToken, CancelRequest, Release;
    match a
    case DoRequest(h, activate) => RequestOpen(h, s.block, s.hosts[h], s.next[h], activate);
    case DoDeliver(i) => DeliverOpen(s, i);
    case DoRelease(_, _) => assert false;
    case DoCancel(h, serial) => CancelOpen(h, s.block, s.hosts[h], serial);
    case _ =>
  }

  lemma RequestOpen(h: nat, b: Block, s: Host, serial: nat, activate: bool)
    requires b.owner == h ==> s.local.held
    ensures RequestToken(h, b, s, serial, activate).block == b
  { }

  lemma CancelOpen(h: nat, b: Block, s: Host, serial: nat)
    requires serial in s.waiters ==> !s.waiters[serial].progress.Granted?
    ensures CancelRequest(h, b, s, serial).block == b
  {
    hide Without, Queued, HandleCancelAck;
  }

  lemma DeliverOpen(s: Sys, i: nat)
    requires Enabled(s, DoDeliver(i)) && GrantCount(s.net) == 0 && s.block.owner < |s.hosts| && s.hosts[s.block.owner].local.held
    ensures Next(s, DoDeliver(i)).block == s.block
  {
    NoGrant(s.net);
    assert s.net[i] in s.net;
    hide Without, GrantTo, GrantCount, Confer;
  }

  lemma {:induction false} OpenStays(run: seq<Sys>, actions: seq<Action>, n: nat, owner: nat, i: nat, j: nat, c: Claim)
    requires owner < n && Run(run, actions) && run[0] == Init(n, owner) && i <= j < |run| && Writing(run[i].block)
    requires forall k :: i <= k <= j ==> c in run[k].claims
    ensures run[j].block == run[i].block.(retiring := run[j].block.retiring)
    decreases j
  {
    hide Inv, Next, Enabled, Init, Writing;
    if i < j {
      OpenStays(run, actions, n, owner, i, j - 1, c);
      RunKeeps(run, actions, n, owner, j - 1);
      SameWriting(run[i].block, run[j - 1].block);
      assert Enabled(run[j - 1], actions[j - 1]) && run[j - 1 + 1] == Next(run[j - 1], actions[j - 1]);
      OpenStep(run[j - 1], actions[j - 1], c);
    }
  }

  lemma SameWriting(a: Block, b: Block)
    requires b.writeback == a.writeback
    ensures Writing(a) == Writing(b)
  { }

  /**
   A buffered write is always published. Once the writeback has been opened under a lease, and
   whatever the hosts do meanwhile, its release raises the version by exactly one and gives the
   lease back; it reports an error only when the token cannot be passed on to the next waiter.
   */
  lemma WritebackPublishes(run: seq<Sys>, actions: seq<Action>, n: nat, owner: nat, i: nat, j: nat, c: Claim)
    requires owner < n && Run(run, actions) && run[0] == Init(n, owner) && i < j < |actions|
    requires actions[i] == DoBegin(c) && actions[j] == DoRelease(c, true) && forall k :: i <= k <= j ==> c in run[k].claims
    ensures c.id.host < |run[j].hosts| && Writing(run[i + 1].block) && Writing(run[j].block)
    ensures run[j].block.version == run[i].block.version && run[j + 1].block.version == run[i].block.version + 1
    ensures c !in run[j + 1].claims
    ensures Release(c.id.host, run[j].block, run[j].hosts[c.id.host], c.lease, true).status ==
      if Wedges(run[j], actions[j]) then NotFound else Ok
    ensures Closes(run[j], c) ==> !Writing(run[j + 1].block)
  {
    hide Inv, Next, Enabled, Init, Wedges, Release, Closes;
    RunKeeps(run, actions, n, owner, i);
    RunKeeps(run, actions, n, owner, j);
    assert Enabled(run[i], actions[i]) && run[i + 1] == Next(run[i], actions[i]);
    assert Enabled(run[j], actions[j]) && run[j + 1] == Next(run[j], actions[j]);
    BeginStep(run[i], c);
    OpenStays(run, actions, n, owner, i + 1, j, c);
    SameWriting(run[i + 1].block, run[j].block);
    ReleaseFailsExactly(run, actions, n, owner, j, c, true);
    ReleaseStep(run[j], c);
  }

  /** Nobody on this host can open the next writeback in the same step. */
  predicate Closes(s: Sys, c: Claim) {
    && c.id.host < |s.hosts|
    && var pending := s.hosts[c.id.host].local.pending;
    s.block.retiring || pending == [] || pending[0].id.host != c.id.host
  }

  lemma ReleaseStep(s: Sys, c: Claim)
    requires Inv(s) && Enabled(s, DoRelease(c, true)) && Writing(s.block)
    ensures var s' := Next(s, DoRelease(c, true));
      s'.block.version == s.block.version + 1 && c !in s'.claims && (Closes(s, c) ==> !Writing(s'.block))
  {
    ClaimHolds(s, c);
    var h, b, t := c.id.host, s.block, s.hosts[c.id.host];
    StepMetadata(s, DoRelease(c, true));
    if Closes(s, c) {
      if b.retiring { TokenLaws.ReleaseRetiring(h, b, t, c.lease, true); }
      else if t.local.pending == [] { TokenLaws.ReleaseAlone(h, b, t, c.lease, true); }
      else { TokenLaws.QueueSent(h, b, t, c.lease, true); }
      TokenLaws.OddNext(b.writeback);
    }
    hide Inv, Release, Handoff;
  }

  // ------------------------------------------------------------------ a request

  /** The waiter has the lease, its host owns and holds the block, and the writeback is open if asked for. */
  predicate Served(before: Block, s: Sys, r: Request, version: nat, pending: seq<Request>) {
    && r.id.host < |s.hosts| && s.block.owner == r.id.host
    && s.block.epoch == before.epoch + 1 && s.block.version == version && (r.activate <==> Writing(s.block))
    && s.hosts[r.id.host].local == Local(true, true, pending)
    && r.id.serial in s.hosts[r.id.host].waiters
    && s.hosts[r.id.host].waiters[r.id.serial].progress == Granted(Lease(version, before.epoch + 1))
  }

  predicate Wanted(s: Sys, id: RequestId) {
    id.host < |s.hosts| && id.serial in s.hosts[id.host].waiters && !s.hosts[id.host].waiters[id.serial].abandoned
  }

  /** A grant packet that matches the metadata gives its waiter the lease. */
  lemma GrantArrives(s: Sys, i: nat, g: Message)
    requires i < |s.net| && g == s.net[i] && g.Grant? && g.to == g.granted.host && Wanted(s, g.granted)
    requires !s.block.retiring && !Writing(s.block) && s.hosts[g.to].local == Idle
    requires s.block.owner == g.to && s.block.epoch == g.epoch > 0 && s.block.version == g.version
    ensures Enabled(s, DoDeliver(i))
    ensures var t := Next(s, DoDeliver(i));
      && Served(s.block.(epoch := s.block.epoch - 1), t, Request(g.granted, 0, g.activate), g.version, [])
      && t.net == s.net[..i] + s.net[i + 1..]
      && |t.hosts| == |s.hosts| && (forall k :: 0 <= k < |s.hosts| && k != g.to ==> t.hosts[k] == s.hosts[k])
      && t.block == s.block.(writeback := t.block.writeback) && t.claims == s.claims
  {
    TokenLaws.GrantedByPacket(g.to, s.block, s.hosts[g.to], g.granted.serial, g.version, g.epoch, g.activate);
    TokenLaws.Dispatched(g.to, s.block, s.hosts[g.to], g);
    hide Handle, HandleGrant;
    var o := Handle(g.to, s.block, s.hosts[g.to], g);
    assert s.net[..i] + s.net[i + 1..] + o.sent == s.net[..i] + s.net[i + 1..];
  }

  /** What an idle owner does with a request that reaches it. */
  lemma RequestArrives(s: Sys, i: nat, r: Request)
    requires Inv(s) && Arriving(s, i, r)
    ensures Enabled(s, DoDeliver(i)) && !Writing(s.block)
    ensures var t := Next(s, DoDeliver(i));
      && t.block == s.block.(owner := r.id.host, epoch := s.block.epoch + 1)
      && t.net == s.net[..i] + s.net[i + 1..] + [Grant(r.id.host, r.id, s.block.version, s.block.epoch + 1, r.activate)]
      && t.hosts == s.hosts[s.block.owner := s.hosts[s.block.owner].(local := Idle)]
  {
    var o := s.block.owner;
    assert PacketOk(s, s.net[i]);
    hide Inv;
    TokenLaws.TokenSent(o, s.block, s.hosts[o], r);
    TokenLaws.Dispatched(o, s.block, s.hosts[o], s.net[i]);
    hide Handle, HandleRequest;
  }

  lemma OthersIdleNow(s: Sys, g: nat)
    requires Inv(s) && g < |s.hosts| && g != s.block.owner
    ensures s.hosts[g].local == Idle
  {
    assert LocalOk(s, g);
  }

  /** A remote request at the owner's door, and the owner idle. */
  predicate Arriving(s: Sys, i: nat, r: Request) {
    && i < |s.net| && s.net[i] == Req(s.block.owner, r) && r.id.host != s.block.owner
    && s.block.owner < |s.hosts| && s.hosts[s.block.owner].local == Local(true, false, []) && !s.block.retiring
  }

  /**
   From every reachable state: a remote request that reaches the idle owner is served. The owner
   lets go of the block, one grant travels, and when it arrives the requester has a lease on the
   current version under a new epoch.
   */
  lemma RequestRound(s: Sys, i: nat, r: Request)
    requires Inv(s) && Arriving(s, i, r) && Wanted(s, r.id)
    ensures Enabled(s, DoDeliver(i))
    ensures var u := DeliverAt(Next(s, DoDeliver(i)), |s.net| - 1, 1);
      && Served(s.block, u, r, s.block.version, []) && u.net == s.net[..i] + s.net[i + 1..]
      && |u.hosts| == |s.hosts| && u.hosts[s.block.owner].local == Idle
  {
    RequestArrives(s, i, r);
    OthersIdleNow(s, r.id.host);
    hide Inv, Next, Enabled, Handle, DeliverAt;
    var t := Next(s, DoDeliver(i));
    var s' := s.(net := s.net[..i] + s.net[i + 1..]);
    var g := Grant(r.id.host, r.id, s.block.version, s.block.epoch + 1, r.activate);
    assert s'.net + [g] + Forward([], r.id.host) == t.net;
    DeliverGranted(s', t, s.block.owner, r, []);
  }

  // ------------------------------------------------------------------ a hand-over

  /** Delivers the packet at position `i`, `count` times over: what one channel holds, in its order. */
  ghost function DeliverAt(s: Sys, i: nat, count: nat): Sys
    decreases count
  {
    if count == 0 || i >= |s.net| || s.net[i].to >= |s.hosts| then s else DeliverAt(Next(s, DoDeliver(i)), i, count - 1)
  }

  /** Forwarded requests that reach their new holder queue up there in the order they were sent. */
  lemma {:induction false} TurnsArrive(s: Sys, before: seq<Message>, rs: seq<Request>, g: nat)
    requires s.net == before + Forward(rs, g) && g == s.block.owner < |s.hosts| && !s.block.retiring
    requires s.hosts[g].local.held && forall r :: r in rs ==> r.observed <= s.block.version
    ensures DeliverAt(s, |before|, |rs|) ==
      s.(net := before, hosts := s.hosts[g := s.hosts[g].(local := s.hosts[g].local.(pending := s.hosts[g].local.pending + rs))])
    decreases |rs|
  {
    var i := |before|;
    if rs == [] {
      assert s.hosts[g].local.pending + rs == s.hosts[g].local.pending && before + Forward(rs, g) == before;
      assert s.hosts[g := s.hosts[g]] == s.hosts;
    } else {
      var s', l := Next(s, DoDeliver(i)), s.hosts[g].local;
      assert s.net[i] == Req(g, rs[0]);
      TokenLaws.RequestRouted(g, s.block, s.hosts[g], rs[0]);
      TokenLaws.Dispatched(g, s.block, s.hosts[g], s.net[i]);
      assert s.net[..i] + s.net[i + 1..] + [] == before + Forward(rs[1..], g);
      hide Handle, HandleRequest;
      assert s' == s.(net := before + Forward(rs[1..], g), hosts := s.hosts[g := s.hosts[g].(local := l.(pending := l.pending + [rs[0]]))]);
      hide Next;
      TurnsArrive(s', before, rs[1..], g);
      assert l.pending + [rs[0]] + rs[1..] == l.pending + rs;
    }
  }

  lemma PendingSeen(s: Sys, h: nat)
    requires Inv(s) && h < |s.hosts|
    ensures forall r :: r in s.hosts[h].local.pending ==> r.observed <= s.block.version
  {
    assert LocalOk(s, h);
  }

  /** The state after a release whose queue begins with a request of another host. */
  lemma ReleasedTo(s: Sys, c: Claim, modified: bool, r: Request, rest: seq<Request>)
    requires Inv(s) && Holding(s, c, r, rest) && Enabled(s, DoRelease(c, modified)) && (modified ==> Writing(s.block))
    ensures var t, h := Next(s, DoRelease(c, modified)), c.id.host;
      && !Writing(t.block) && t.block.owner == r.id.host && !t.block.retiring && t.block.epoch == s.block.epoch + 1
      && t.block.version == s.block.version + (if modified then 1 else 0)
      && t.net == s.net + [Grant(r.id.host, r.id, t.block.version, t.block.epoch, r.activate)] + Forward(rest, r.id.host)
      && t.hosts == s.hosts[h := s.hosts[h].(local := Idle)] && t.claims == {}
  {
    hide Inv, Release, Accepts, Writing, Forward;
    ClaimHolds(s, c);
    ReleaseSends(c.id.host, s.block, s.hosts[c.id.host], c.lease, modified, r, rest);
    assert s.claims - {c} == {};
  }

  lemma ReleaseSends(h: nat, b: Block, s: Host, lease: Lease, modified: bool, r: Request, rest: seq<Request>)
    requires b.owner == h && b.epoch == lease.epoch && s.local.held && !b.retiring && (modified ==> Writing(b))
    requires s.local.pending == [r] + rest && r.id.host != h
    ensures var o := Release(h, b, s, lease, modified);
      && Accepts(h, b, s, lease, modified) && o.host == s.(local := Idle) && !Writing(o.block) && !o.block.retiring
      && o.block.owner == r.id.host && o.block.epoch == b.epoch + 1 && o.block.version == b.version + (if modified then 1 else 0)
      && o.sent == [Grant(r.id.host, r.id, o.block.version, o.block.epoch, r.activate)] + Forward(rest, r.id.host)
  {
    assert s.local.pending[0] == r && s.local.pending[1..] == rest;
    TokenLaws.QueueSent(h, b, s, lease, modified);
    TokenLaws.OddNext(b.writeback);
    ReleaseRetains(h, b, s, lease, modified);
    hide Release;
    var o := Release(h, b, s, lease, modified);
    assert o.sent == [Grant(r.id.host, r.id, o.block.version, o.block.epoch, r.activate)] + Forward(rest, r.id.host);
  }

  lemma ReleaseRetains(h: nat, b: Block, s: Host, lease: Lease, modified: bool)
    requires s.local.pending != [] && s.local.pending[0].id.host != h
    ensures Release(h, b, s, lease, modified).block.retiring == b.retiring
  {
    if Accepts(h, b, s, lease, modified) && !b.retiring {
      var t := s.(local := s.local.(pending := s.local.pending[1..]));
      assert Release(h, b, s, lease, modified) == GrantTo(h, Committed(b, modified), t, s.local.pending[0]);
    }
  }

  /** The holder has a queue that begins with a request of another host. */
  predicate Holding(s: Sys, c: Claim, r: Request, rest: seq<Request>) {
    && c in s.claims && c.id.host < |s.hosts| && !s.block.retiring
    && s.hosts[c.id.host].local.pending == [r] + rest && r.id.host != c.id.host
  }

  /**
   A hand-over loses nobody's turn. The holder releases while others wait; the first of them, on
   another host, gets the lease when its grant arrives, and when the forwarded requests arrive
   behind it they wait there exactly as they waited before.
   */
  lemma HandoverRound(s: Sys, c: Claim, modified: bool, r: Request, rest: seq<Request>)
    requires Inv(s) && Holding(s, c, r, rest) && (modified ==> Writing(s.block)) && Wanted(s, r.id)
    ensures Enabled(s, DoRelease(c, modified))
    ensures var u := DeliverAt(Next(s, DoRelease(c, modified)), |s.net|, 1 + |rest|);
      && Served(s.block, u, r, s.block.version + (if modified then 1 else 0), rest)
      && u.net == s.net && u.claims == {} && |u.hosts| == |s.hosts| && u.hosts[c.id.host].local == Idle
  {
    hide Inv, Next, DeliverAt, Writing, Served, Forward, Handle;
    assert Enabled(s, DoRelease(c, modified));
    PendingSeen(s, c.id.host);
    OwnerIs(s, c);
    OthersIdleNow(s, r.id.host);
    ReleasedTo(s, c, modified, r, rest);
    var t := Next(s, DoRelease(c, modified));
    DeliverGranted(s, t, c.id.host, r, rest);
  }

  lemma OwnerIs(s: Sys, c: Claim)
    requires Inv(s) && c in s.claims
    ensures c.id.host == s.block.owner
  {
    ClaimHolds(s, c);
  }

  /** The grant and the forwarded requests of a transfer, delivered in their order. */
  lemma DeliverGranted(s: Sys, t: Sys, h: nat, r: Request, rest: seq<Request>)
    requires h < |s.hosts| == |t.hosts| && Wanted(s, r.id) && s.hosts[r.id.host].local == Idle && r.id.host != h
    requires !Writing(t.block) && !t.block.retiring && t.block.owner == r.id.host && t.block.epoch == s.block.epoch + 1
    requires t.net == s.net + [Grant(r.id.host, r.id, t.block.version, t.block.epoch, r.activate)] + Forward(rest, r.id.host)
    requires t.hosts == s.hosts[h := s.hosts[h].(local := Idle)] && forall q :: q in rest ==> q.observed <= t.block.version
    ensures var u := DeliverAt(t, |s.net|, 1 + |rest|);
      && Served(s.block, u, r, t.block.version, rest) && u.net == s.net && u.claims == t.claims
      && |u.hosts| == |s.hosts| && u.hosts[h].local == Idle
    ensures Enabled(t, DoDeliver(|s.net|))
  {
    hide Next, Handle;
    var i, g := |s.net|, Grant(r.id.host, r.id, t.block.version, t.block.epoch, r.activate);
    assert t.net[i] == g;
    GrantArrives(t, i, g);
    var u := Next(t, DoDeliver(i));
    assert t.net[..i] + t.net[i + 1..] == s.net + Forward(rest, r.id.host);
    assert DeliverAt(t, i, 1 + |rest|) == DeliverAt(u, i, |rest|);
    hide DeliverAt;
    TurnsArrive(u, s.net, rest, r.id.host);
    assert [] + rest == rest;
  }

  // ------------------------------------------------------------------ a cancellation

  /** Delivers the last packet, whose handler sends `sent` and changes only its own host. */
  lemma DeliverLast(s: Sys, before: seq<Message>, m: Message, host: Host, sent: seq<Message>)
    requires s.net == before + [m] && m.to < |s.hosts| && (m.Cancel? ==> Queued(s.hosts[m.to].local.pending, m.cancelled))
    requires Handle(m.to, s.block, s.hosts[m.to], m) == Outcome(s.block, host, sent, Ok)
    ensures Enabled(s, DoDeliver(|before|))
    ensures Next(s, DoDeliver(|before|)) == s.(hosts := s.hosts[m.to := host], net := before + sent)
  {
    hide Handle, Queued;
    assert s.net[|before|] == m && s.net[..|before|] + s.net[|before| + 1..] == before;
  }

  /** A request of another host waits at place `k` of the owner's queue. */
  predicate WaitsAt(s: Sys, id: RequestId, k: nat) {
    && s.block.owner < |s.hosts| && id.host < |s.hosts| && id.host != s.block.owner && !s.block.retiring
    && id.serial in s.hosts[id.host].waiters && s.hosts[id.host].waiters[id.serial].progress.Active?
    && k < |s.hosts[s.block.owner].local.pending| && s.hosts[s.block.owner].local.pending[k].id == id
    && forall i :: 0 <= i < k ==> s.hosts[s.block.owner].local.pending[i].id != id
  }

  /** Its waiter once the cancellation has been called, and once it has been acknowledged. */
  function Calling(s: Sys, id: RequestId): Host
    requires id.host < |s.hosts| && id.serial in s.hosts[id.host].waiters
  {
    var w := s.hosts[id.host].waiters;
    s.hosts[id.host].(waiters := w[id.serial := Waiter(Cancelling, true, w[id.serial].retain)])
  }

  /**
   Cancelling a request that waits at another host: the cancellation goes there, takes exactly
   that request out of the queue, and its acknowledgement settles the waiter. Everybody else's
   requests, packets and waiters are as they were.
   */
  lemma CancelRound(s: Sys, id: RequestId, k: nat)
    requires WaitsAt(s, id, k)
    ensures Enabled(s, DoCancel(id.host, id.serial))
    ensures var u := DeliverAt(Next(s, DoCancel(id.host, id.serial)), |s.net|, 2);
      && u.net == s.net && u.block == s.block && u.claims == s.claims && u.overtaken == s.overtaken && |u.hosts| == |s.hosts|
      && (forall g :: 0 <= g < |s.hosts| && g != id.host && g != s.block.owner ==> u.hosts[g] == s.hosts[g])
      && u.hosts[s.block.owner] == s.hosts[s.block.owner].(local := Cut(s.hosts[s.block.owner].local, k))
      && u.hosts[id.host].local == s.hosts[id.host].local
      && u.hosts[id.host].waiters - {id.serial} == s.hosts[id.host].waiters - {id.serial}
      && (id.serial in u.hosts[id.host].waiters <==> s.hosts[id.host].waiters[id.serial].retain)
      && (id.serial in u.hosts[id.host].waiters ==> u.hosts[id.host].waiters[id.serial].progress.Cancelled?)
  {
    hide Next, Handle;
    var o, h, i := s.block.owner, id.host, |s.net|;
    assert Enabled(s, DoCancel(h, id.serial));
    var t, r := Called(s, id), Removed(s, id, k);
    var settled := HandleCancelAck(r.hosts[h], id.serial, false);
    CallStep(s, id, k);
    RemoveStep(s, id, k);
    TokenLaws.AckCancels(r.hosts[h], id.serial, false);
    TokenLaws.Dispatched(h, r.block, r.hosts[h], CancelAck(h, id, false));
    AckStep(r, s.net, id);
    hide HandleCancelAck;
    var u := r.(hosts := r.hosts[h := settled], net := s.net);
    assert DeliverAt(u, i, 0) == u;
    assert DeliverAt(r, i, 1) == u;
    assert DeliverAt(t, i, 2) == u;
    SettledWaiter(r.hosts[h], settled, id.serial);
  }

  function Called(s: Sys, id: RequestId): Sys
    requires id.host < |s.hosts| && id.serial in s.hosts[id.host].waiters
  {
    s.(hosts := s.hosts[id.host := Calling(s, id)], net := s.net + [Cancel(s.block.owner, id)])
  }

  function Removed(s: Sys, id: RequestId, k: nat): Sys
    requires WaitsAt(s, id, k)
  {
    var o := s.block.owner;
    var t := Called(s, id);
    t.(hosts := t.hosts[o := s.hosts[o].(local := Cut(s.hosts[o].local, k))], net := s.net + [CancelAck(id.host, id, false)])
  }

  lemma CallStep(s: Sys, id: RequestId, k: nat)
    requires WaitsAt(s, id, k) && Enabled(s, DoCancel(id.host, id.serial))
    ensures Next(s, DoCancel(id.host, id.serial)) == Called(s, id)
  {
    TokenLaws.CancelStarts(id.host, s.block, s.hosts[id.host], id.serial);
    hide CancelRequest;
  }

  lemma RemoveStep(s: Sys, id: RequestId, k: nat)
    requires WaitsAt(s, id, k)
    ensures Enabled(Called(s, id), DoDeliver(|s.net|)) && Next(Called(s, id), DoDeliver(|s.net|)) == Removed(s, id, k)
  {
    hide Handle, Next, Queued;
    var o, t, m := s.block.owner, Called(s, id), Cancel(s.block.owner, id);
    assert t.hosts[o] == s.hosts[o];
    var j := TokenLaws.Removes(s.hosts[o].local.pending, id);
    assert j == k;
    var j' := TokenLaws.CancelAtOwner(o, s.block, t.hosts[o], id);
    assert j' == k;
    TokenLaws.Dispatched(o, s.block, t.hosts[o], m);
    DeliverLast(t, s.net, m, s.hosts[o].(local := Cut(s.hosts[o].local, k)), [CancelAck(id.host, id, false)]);
  }

  lemma AckStep(r: Sys, before: seq<Message>, id: RequestId)
    requires r.net == before + [CancelAck(id.host, id, false)] && id.host < |r.hosts| && !r.block.retiring
    ensures Enabled(r, DoDeliver(|before|))
    ensures Next(r, DoDeliver(|before|)) == r.(hosts := r.hosts[id.host := HandleCancelAck(r.hosts[id.host], id.serial, false)], net := before)
  {
    hide Next, HandleCancelAck, Queued;
    DeliverLast(r, before, CancelAck(id.host, id, false), HandleCancelAck(r.hosts[id.host], id.serial, false), []);
    assert before + [] == before;
  }

  lemma SettledWaiter(s: Host, s': Host, serial: nat)
    requires TokenLaws.Cancels(s, s', serial) && serial in s.waiters && s.waiters[serial].abandoned
    ensures serial in s'.waiters <==> s.waiters[serial].retain
    ensures serial in s'.waiters ==> s'.waiters[serial].progress.Cancelled?
  { }

  /** A queue without its request at place `k`. */
  function Cut(l: Local, k: nat): Local
    requires k < |l.pending|
  {
    l.(pending := l.pending[..k] + l.pending[k + 1..])
  }
}
