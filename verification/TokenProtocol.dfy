/**
 The token protocol of one block over all hosts: every call and handler of `TokenSpec` as an
 atomic step, with in-flight packets in an unordered bag (any delivery order, so in particular
 the FIFO order of deferred queues and shared rings).
 */
module TokenProtocol {
  import opened TokenSpec

  /** A lease a client has taken out of its waiter and not yet given back. */
  datatype Claim = Claim(id: RequestId, lease: Lease)

  /**
   `overtaken` records the one event that breaks request conservation: an owner acknowledged
   a cancellation as complete although the request was still travelling.
   */
  datatype Sys = Sys(
    block: Block,
    hosts: seq<Host>,
    next: seq<nat>,
    net: seq<Message>,
    claims: set<Claim>,
    overtaken: bool)

  function Identity(m: Message): RequestId {
    match m
    case Req(_, r) => r.id
    case Grant(_, id, _, _, _) => id
    case Reject(_, id) => id
    case Cancel(_, id) => id
    case CancelAck(_, id, _) => id
  }

  /** The request identities travelling in requests and grants, with multiplicity. */
  function Travelling(net: seq<Message>): multiset<RequestId> {
    if net == [] then multiset{}
    else (if net[0].Req? || net[0].Grant? then multiset{Identity(net[0])} else multiset{}) + Travelling(net[1..])
  }

  /** The identities whose cancellation an owner has acknowledged as complete. */
  function Acknowledged(net: seq<Message>): multiset<RequestId> {
    if net == [] then multiset{}
    else (if net[0].CancelAck? && !net[0].tooLate then multiset{net[0].acked} else multiset{}) + Acknowledged(net[1..])
  }

  function GrantCount(net: seq<Message>): nat {
    if net == [] then 0 else (if net[0].Grant? then 1 else 0) + GrantCount(net[1..])
  }

  /** Every place a request can be in before it is granted: a packet, or the owner's queue. */
  function Places(s: Sys): multiset<RequestId> {
    Travelling(s.net) + (if s.block.owner < |s.hosts| then Waiting(s.hosts[s.block.owner].local.pending) else multiset{})
  }

  predicate GrantedWaiter(s: Sys, id: RequestId) {
    && id.host < |s.hosts|
    && id.serial in s.hosts[id.host].waiters
    && s.hosts[id.host].waiters[id.serial].progress.Granted?
  }

  ghost predicate Claimed(s: Sys, id: RequestId) {
    exists c :: c in s.claims && c.id == id
  }

  ghost predicate Ticket(s: Sys, id: RequestId) {
    GrantedWaiter(s, id) || Claimed(s, id)
  }

  // ------------------------------------------------------------------ steps

  datatype Action =
    | DoRequest(host: nat, activate: bool)
    | DoDeliver(index: nat)
    | DoClaim(host: nat, serial: nat)
    | DoCollect(host: nat, serial: nat)
    | DoBegin(claim: Claim)
    | DoRelease(claim: Claim, modified: bool)
    | DoRetain(host: nat, serial: nat)
    | DoCancel(host: nat, serial: nat)
    | DoRetire
    | DoClose(host: nat)

  function Apply(s: Sys, h: nat, o: Outcome): Sys
    requires h < |s.hosts|
  {
    s.(block := o.block, hosts := s.hosts[h := o.host], net := s.net + o.sent)
  }

  predicate Enabled(s: Sys, a: Action) {
    match a
    case DoRequest(h, _) => h < |s.hosts| == |s.next|
    case DoDeliver(i) => i < |s.net| && s.net[i].to < |s.hosts|
    case DoClaim(h, serial) => GrantedWaiter(s, RequestId(h, serial))
    case DoCollect(h, serial) =>
      && h < |s.hosts| && serial in s.hosts[h].waiters
      && (s.hosts[h].waiters[serial].progress.Rejected? || s.hosts[h].waiters[serial].progress.Cancelled?)
    case DoBegin(c) => c in s.claims && c.id.host < |s.hosts|
    case DoRelease(c, _) => c in s.claims && c.id.host < |s.hosts|
    case DoRetain(h, serial) => h < |s.hosts| && serial in s.hosts[h].waiters
    case DoCancel(h, serial) => h < |s.hosts|
    case DoRetire => true
    case DoClose(h) => h < |s.hosts| && s.block.retiring
  }

  /** Local closure: every waiter goes, and a granted lease nobody claimed is released. */
  ghost function Closed(b: Block, s: Host): (Block, Host) {
    if exists k :: k in s.waiters && s.waiters[k].progress.Granted? then
      (Committed(b, false), Host(s.local.(held := false, pending := []), map[]))
    else
      (b, Host(s.local.(pending := []), map[]))
  }

  /** Handling a cancellation at the owner when the request is neither queued there nor finished. */
  ghost predicate Overtakes(s: Sys, h: nat, id: RequestId)
    requires h < |s.hosts|
  {
    && !s.block.retiring
    && s.block.owner == h && id.host != h
    && !Queued(s.hosts[h].local.pending, id)
    && id in Travelling(s.net)
  }

  ghost function Next(s: Sys, a: Action): Sys
    requires Enabled(s, a)
  {
    match a
    case DoRequest(h, activate) =>
      var o := RequestToken(h, s.block, s.hosts[h], s.next[h], activate);
      if s.block.retiring then s
      else Apply(s, h, o).(next := s.next[h := s.next[h] + 1])
    case DoDeliver(i) =>
      var m := s.net[i];
      var o := Handle(m.to, s.block, s.hosts[m.to], m);
      Apply(s.(net := s.net[..i] + s.net[i + 1..]), m.to, o)
        .(overtaken := s.overtaken || (m.Cancel? && Overtakes(s, m.to, m.cancelled)))
    case DoClaim(h, serial) =>
      var w := s.hosts[h].waiters;
      s.(hosts := s.hosts[h := s.hosts[h].(waiters := w - {serial})],
         claims := s.claims + {Claim(RequestId(h, serial), w[serial].progress.lease)})
    case DoCollect(h, serial) =>
      s.(hosts := s.hosts[h := s.hosts[h].(waiters := s.hosts[h].waiters - {serial})])
    case DoBegin(c) =>
      Apply(s, c.id.host, BeginWriteback(c.id.host, s.block, s.hosts[c.id.host], c.lease))
    case DoRelease(c, modified) =>
      var h := c.id.host;
      var o := Release(h, s.block, s.hosts[h], c.lease, modified);
      Apply(s, h, o)
        .(claims := if Accepts(h, s.block, s.hosts[h], c.lease, modified) then s.claims - {c} else s.claims)
    case DoRetain(h, serial) =>
      var w := s.hosts[h].waiters;
      s.(hosts := s.hosts[h := s.hosts[h].(waiters := w[serial := w[serial].(retain := true)])])
    case DoCancel(h, serial) =>
      Apply(s, h, CancelRequest(h, s.block, s.hosts[h], serial))
    case DoRetire => s.(block := s.block.(retiring := true))
    case DoClose(h) =>
      var (b, host) := Closed(s.block, s.hosts[h]);
      s.(block := b, hosts := s.hosts[h := host])
  }

  /** State left by allocation and registration on host `owner` (version 0, epoch 1). */
  function Init(n: nat, owner: nat): Sys
    requires owner < n
  {
    Sys(Block(owner, 1, 0, 0, false),
        seq(n, i => Host(Local(i == owner, false, []), map[])),
        seq(n, _ => 1), [], {}, false)
  }

  // ------------------------------------------------------------------ counting packets

  lemma {:induction false} CountJoin(a: seq<Message>, b: seq<Message>)
    ensures Travelling(a + b) == Travelling(a) + Travelling(b)
    ensures Acknowledged(a + b) == Acknowledged(a) + Acknowledged(b)
    ensures GrantCount(a + b) == GrantCount(a) + GrantCount(b)
  {
    if a == [] {
      assert a + b == b;
    } else {
      assert (a + b)[1..] == a[1..] + b;
      CountJoin(a[1..], b);
    }
  }

  lemma CountOne(m: Message)
    ensures Travelling([m]) == if m.Req? || m.Grant? then multiset{Identity(m)} else multiset{}
    ensures Acknowledged([m]) == if m.CancelAck? && !m.tooLate then multiset{m.acked} else multiset{}
    ensures GrantCount([m]) == if m.Grant? then 1 else 0
  {
  }

  lemma CountPick(net: seq<Message>, i: nat)
    requires i < |net|
    ensures var rest := net[..i] + net[i + 1..];
      && Travelling(net) == Travelling(rest) + Travelling([net[i]])
      && Acknowledged(net) == Acknowledged(rest) + Acknowledged([net[i]])
      && GrantCount(net) == GrantCount(rest) + GrantCount([net[i]])
  {
    var m := [net[i]];
    assert net == net[..i] + (m + net[i + 1..]);
    CountJoin(net[..i], m + net[i + 1..]);
    CountJoin(m, net[i + 1..]);
    CountJoin(net[..i], net[i + 1..]);
  }

  lemma {:induction false} ForwardCounts(pending: seq<Request>, to: nat)
    ensures Travelling(Forward(pending, to)) == Waiting(pending)
    ensures Acknowledged(Forward(pending, to)) == multiset{}
    ensures GrantCount(Forward(pending, to)) == 0
  {
    if pending != [] {
      assert Forward(pending, to)[1..] == Forward(pending[1..], to);
      ForwardCounts(pending[1..], to);
    }
  }

  lemma {:induction false} WaitingAppend(pending: seq<Request>, r: Request)
    ensures Waiting(pending + [r]) == Waiting(pending) + multiset{r.id}
  {
    if pending == [] {
      assert pending + [r] == [r];
    } else {
      assert (pending + [r])[1..] == pending[1..] + [r];
      WaitingAppend(pending[1..], r);
    }
  }

  lemma {:induction false} WaitingWithout(pending: seq<Request>, id: RequestId)
    ensures Waiting(Without(pending, id)) == Waiting(pending) - multiset{id}
    ensures forall r :: r in Without(pending, id) ==> r in pending
  {
    if pending != [] && pending[0].id != id {
      WaitingWithout(pending[1..], id);
      assert ([pending[0]] + Without(pending[1..], id))[1..] == Without(pending[1..], id);
    }
  }

  // ------------------------------------------------------------------ invariant

  /** Identities are in range and were issued. */
  predicate Issued(s: Sys, id: RequestId) {
    id.host < |s.next| && id.serial < s.next[id.host]
  }

  /** What holds of every packet in flight. */
  predicate PacketOk(s: Sys, m: Message) {
    && m.to < |s.hosts| && Issued(s, Identity(m)) && !m.Reject?
    && (m.CancelAck? ==> m.to == Identity(m).host)
    && (m.Req? ==> m.request.observed <= s.block.version)
    && (m.Grant? ==>
          && m.to == s.block.owner == m.granted.host
          && m.epoch == s.block.epoch && m.version == s.block.version)
    && (m.Cancel? || m.CancelAck? ==>
          && Identity(m).host < |s.hosts|
          && (Identity(m).serial in s.hosts[Identity(m).host].waiters ==>
                s.hosts[Identity(m).host].waiters[Identity(m).serial].abandoned))
  }

  ghost predicate PacketsOk(s: Sys) {
    forall m :: m in s.net ==> PacketOk(s, m)
  }

  /** Token state is local to the owner named by the metadata. */
  predicate LocalOk(s: Sys, h: nat)
    requires h < |s.hosts|
  {
    var l := s.hosts[h].local;
    && (h != s.block.owner ==> l == Idle)
    && (l.held ==> l.available)
    && (l.available && !l.held ==> l.pending == [])
    && (forall r :: r in l.pending ==> Issued(s, r.id) && r.observed <= s.block.version)
  }

  ghost predicate LocalsOk(s: Sys) {
    && |s.hosts| == |s.next| && s.block.owner < |s.hosts|
    && (forall h :: 0 <= h < |s.hosts| ==> LocalOk(s, h))
    && (Writing(s.block) ==> s.hosts[s.block.owner].local.held)
  }

  /** The token is in one place: with the owner, or in the only grant packet. */
  ghost predicate OneToken(s: Sys) {
    && s.block.owner < |s.hosts|
    && GrantCount(s.net) <= 1
    && (GrantCount(s.net) == 1 ==> !s.hosts[s.block.owner].local.available)
  }

  ghost predicate WaiterOk(s: Sys, id: RequestId)
    requires id.host < |s.hosts| && id.serial in s.hosts[id.host].waiters
  {
    var w := s.hosts[id.host].waiters[id.serial];
    && Issued(s, id)
    && !Claimed(s, id)
    && (w.progress.Granted? ==>
          && w.progress.lease == Lease(s.block.version, s.block.epoch) && !w.abandoned
          && id.host == s.block.owner && s.hosts[id.host].local.held
          && s.claims == {}
          && id !in Places(s))
  }

  ghost predicate WaitersOk(s: Sys) {
    && (forall h, k :: 0 <= h < |s.hosts| && k in s.hosts[h].waiters ==> WaiterOk(s, RequestId(h, k)))
    && (forall id, id' :: GrantedWaiter(s, id) && GrantedWaiter(s, id') ==> id == id')
  }

  /** Claimed leases are current, belong to the owner, and there is at most one. */
  ghost predicate ClaimsOk(s: Sys) {
    && s.block.owner < |s.hosts|
    && (forall c :: c in s.claims ==>
          && Issued(s, c.id) && c.id !in Places(s)
          && c.id.host == s.block.owner && s.hosts[s.block.owner].local.held
          && c.lease == Lease(s.block.version, s.block.epoch))
    && (forall c, c' :: c in s.claims && c' in s.claims ==> c == c')
  }

  /** A request identity is in at most one place. */
  ghost predicate UniquePlaces(s: Sys) {
    forall id :: Places(s)[id] <= 1
  }

  /** The waiter a travelling or queued request will find when it is granted. */
  predicate WaiterReady(hosts: seq<Host>, id: RequestId) {
    && id.host < |hosts| && id.serial in hosts[id.host].waiters
    && (hosts[id.host].waiters[id.serial].progress.Active? || hosts[id.host].waiters[id.serial].progress.Cancelling?)
  }

  predicate WaiterKept(w: Waiter, id: RequestId, out: multiset<RequestId>, acks: multiset<RequestId>) {
    && (w.progress.Active? ==> id in out && !w.abandoned)
    && (w.progress.Cancelling? ==> id in out + acks && w.abandoned)
    && !w.progress.Rejected?
  }

  /** `out` are the outstanding requests: every one has its waiter, every waiter its request. */
  ghost predicate RequestsKept(hosts: seq<Host>, out: multiset<RequestId>, acks: multiset<RequestId>) {
    && (forall id :: id in out ==> WaiterReady(hosts, id))
    && (forall id :: id in acks ==> id !in out)
    && (forall h, k :: 0 <= h < |hosts| && k in hosts[h].waiters ==>
          WaiterKept(hosts[h].waiters[k], RequestId(h, k), out, acks))
  }

  ghost predicate TokenKept(s: Sys) {
    && s.block.owner < |s.hosts|
    && (!s.hosts[s.block.owner].local.available ==> GrantCount(s.net) == 1)
    && (s.hosts[s.block.owner].local.held ==> exists id :: Ticket(s, id))
  }

  ghost predicate Base(s: Sys) {
    && LocalsOk(s) && PacketsOk(s) && OneToken(s) && WaitersOk(s) && ClaimsOk(s) && UniquePlaces(s)
  }

  /** Conservation is claimed for runs in which no acknowledgement overtook its request. */
  ghost predicate Inv(s: Sys) {
    && Base(s)
    && (!s.overtaken && !s.block.retiring ==> RequestsKept(s.hosts, Places(s), Acknowledged(s.net)) && TokenKept(s))
  }

  // ------------------------------------------------------------------ a grant in progress

  /** The owner holds a token that nobody has a lease on. */
  ghost predicate Unleased(s: Sys, h: nat) {
    && Base(s) && h == s.block.owner < |s.hosts| && !Writing(s.block)
    && s.hosts[h].local.available && s.hosts[h].local.held
    && s.claims == {} && (forall id :: !GrantedWaiter(s, id))
  }

  ghost predicate Mid(s: Sys, h: nat) {
    Unleased(s, h) && !s.block.retiring
  }

  ghost predicate InHand(s: Sys, r: Request) {
    Issued(s, r.id) && r.id !in Places(s) && r.observed <= s.block.version
  }

  lemma {:induction false} NoGrant(net: seq<Message>)
    requires GrantCount(net) == 0
    ensures forall m :: m in net ==> !m.Grant?
  {
    if net != [] { NoGrant(net[1..]); }
  }

  /** A transfer spelled out: new metadata, an idle old owner, and the packets it sends. */
  ghost predicate Transferred(s: Sys, s': Sys, h: nat, r: Request) {
    && h < |s.hosts| && r.id.host < |s.hosts|
    && s'.block == s.block.(owner := r.id.host, epoch := s.block.epoch + 1)
    && s'.hosts == s.hosts[h := s.hosts[h].(local := Idle)]
    && s'.next == s.next && s'.claims == s.claims && s'.overtaken == s.overtaken
    && s'.net == s.net + ([Grant(r.id.host, r.id, s.block.version, s.block.epoch + 1, r.activate)]
                          + Forward(s.hosts[h].local.pending, r.id.host))
    && Places(s') == Places(s) + multiset{r.id}
    && Acknowledged(s'.net) == Acknowledged(s.net)
    && GrantCount(s'.net) == GrantCount(s.net) + 1
  }

  lemma TransferCounts(net: seq<Message>, pending: seq<Request>, to: nat, g: Message)
    requires g.Grant?
    ensures var net' := net + ([g] + Forward(pending, to));
      && Travelling(net') == Travelling(net) + Waiting(pending) + multiset{g.granted}
      && Acknowledged(net') == Acknowledged(net)
      && GrantCount(net') == GrantCount(net) + 1
  {
    CountJoin(net, [g] + Forward(pending, to));
    CountJoin([g], Forward(pending, to));
    ForwardCounts(pending, to);
  }

  lemma TransferPlaces(s: Sys, s': Sys, h: nat, r: Request)
    requires h == s.block.owner < |s.hosts| && r.id.host != h && r.id.host < |s.hosts|
    requires s.hosts[r.id.host].local == Idle
    requires s'.hosts == s.hosts[h := s.hosts[h].(local := Idle)] && s'.block.owner == r.id.host
    requires Travelling(s'.net) == Travelling(s.net) + Waiting(s.hosts[h].local.pending) + multiset{r.id}
    ensures Places(s') == Places(s) + multiset{r.id}
  {
  }

  lemma TransferEffect(s: Sys, s': Sys, h: nat, r: Request)
    requires h == s.block.owner < |s.hosts| && !s.block.retiring && r.id.host != h && r.id.host < |s.hosts|
    requires s.hosts[r.id.host].local == Idle
    requires s' == Apply(s, h, GrantTo(h, s.block, s.hosts[h], r))
    ensures Transferred(s, s', h, r)
  {
    var g := Grant(r.id.host, r.id, s.block.version, s.block.epoch + 1, r.activate);
    assert s'.net == s.net + ([g] + Forward(s.hosts[h].local.pending, r.id.host));
    TransferCounts(s.net, s.hosts[h].local.pending, r.id.host, g);
    TransferPlaces(s, s', h, r);
  }

  lemma TransferPackets(s: Sys, s': Sys, h: nat, r: Request)
    requires Transferred(s, s', h, r) && LocalOk(s, h) && PacketsOk(s) && InHand(s, r) && GrantCount(s.net) == 0
    ensures PacketsOk(s')
  {
    NoGrant(s.net);
    forall m | m in s'.net ensures PacketOk(s', m) {
      if m in Forward(s.hosts[h].local.pending, r.id.host) { assert m.request in s.hosts[h].local.pending; }
      else if m in s.net { assert PacketOk(s, m); }
    }
  }

  lemma TransferLocals(s: Sys, s': Sys, h: nat, r: Request)
    requires Transferred(s, s', h, r) && LocalsOk(s) && h == s.block.owner && !Writing(s.block)
    ensures LocalsOk(s')
  {
    forall k | 0 <= k < |s'.hosts| ensures LocalOk(s', k) { assert LocalOk(s, k); }
  }

  lemma TransferWaiters(s: Sys, s': Sys, h: nat, r: Request)
    requires Transferred(s, s', h, r) && WaitersOk(s) && s.claims == {} && (forall id :: !GrantedWaiter(s, id))
    ensures WaitersOk(s')
  {
    forall k, j | 0 <= k < |s'.hosts| && j in s'.hosts[k].waiters ensures WaiterOk(s', RequestId(k, j)) {
      assert WaiterOk(s, RequestId(k, j)) && !GrantedWaiter(s, RequestId(k, j));
    }
    assert forall id :: GrantedWaiter(s', id) ==> GrantedWaiter(s, id);
  }

  lemma KeptFrame(hosts: seq<Host>, hosts': seq<Host>, out: multiset<RequestId>, acks: multiset<RequestId>)
    requires RequestsKept(hosts, out, acks)
    requires |hosts| == |hosts'| && forall h :: 0 <= h < |hosts| ==> hosts'[h].waiters == hosts[h].waiters
    ensures RequestsKept(hosts', out, acks)
  {
    forall id | id in out ensures WaiterReady(hosts', id) { assert WaiterReady(hosts, id); }
  }

  lemma TransferToken(s: Sys, s': Sys, h: nat, r: Request)
    requires Transferred(s, s', h, r) && InHand(s, r) && UniquePlaces(s) && s.claims == {}
    requires GrantCount(s.net) == 0 && s.hosts[r.id.host].local == Idle && r.id.host != h
    ensures OneToken(s') && ClaimsOk(s') && UniquePlaces(s') && TokenKept(s')
  {
  }

  /** A grant to a remote requester hands over the token and the whole queue. */
  lemma TransferKeeps(s: Sys, h: nat, r: Request)
    requires Mid(s, h) && InHand(s, r) && r.id.host != h
    requires !s.overtaken ==> RequestsKept(s.hosts, Places(s) + multiset{r.id}, Acknowledged(s.net))
    ensures Inv(Apply(s, h, GrantTo(h, s.block, s.hosts[h], r)))
  {
    hide GrantTo, RequestsKept, PacketsOk, WaitersOk, ClaimsOk;
    var s' := Apply(s, h, GrantTo(h, s.block, s.hosts[h], r));
    assert LocalOk(s, r.id.host);
    TransferEffect(s, s', h, r);
    TransferPackets(s, s', h, r);
    TransferLocals(s, s', h, r);
    TransferWaiters(s, s', h, r);
    TransferToken(s, s', h, r);
    if !s.overtaken { KeptFrame(s.hosts, s'.hosts, Places(s'), Acknowledged(s.net)); }
  }

  // ------------------------------------------------------------------ a grant on the owner itself

  function WithHost(s: Sys, h: nat, b: Block, host: Host): Sys
    requires h < |s.hosts|
  {
    s.(block := b, hosts := s.hosts[h := host])
  }

  /** Taking one request out of the outstanding ones when its waiter ends or gets its lease. */
  lemma KeptFinish(hosts: seq<Host>, host: Host, id: RequestId, out: multiset<RequestId>, acks: multiset<RequestId>)
    requires id.host < |hosts| && RequestsKept(hosts, out + multiset{id}, acks) && id !in out
    requires forall k :: k in host.waiters && k != id.serial ==> k in hosts[id.host].waiters && host.waiters[k] == hosts[id.host].waiters[k]
    requires forall k :: k in hosts[id.host].waiters && k != id.serial ==> k in host.waiters
    requires id.serial in host.waiters ==>
      host.waiters[id.serial].progress.Granted? || host.waiters[id.serial].progress.Cancelled?
    ensures RequestsKept(hosts[id.host := host], out, acks)
  {
    var hosts' := hosts[id.host := host];
    forall i | i in out ensures WaiterReady(hosts', i) {
      assert i in out + multiset{id} && WaiterReady(hosts, i);
      assert i != id;
    }
    forall i | i in acks ensures i !in out { assert i !in out + multiset{id}; }
    forall h, k | 0 <= h < |hosts'| && k in hosts'[h].waiters
      ensures WaiterKept(hosts'[h].waiters[k], RequestId(h, k), out, acks)
    {
      if RequestId(h, k) != id {
        assert WaiterKept(hosts[h].waiters[k], RequestId(h, k), out + multiset{id}, acks);
      }
    }
  }

  /** Replacing one host's waiters and the block, with nothing sent and no local token change. */
  ghost predicate WaitersChanged(s: Sys, s': Sys, h: nat) {
    && h < |s.hosts| == |s'.hosts|
    && s' == WithHost(s, h, s'.block, s.hosts[h].(waiters := s'.hosts[h].waiters))
    && s'.block == s.block.(writeback := s'.block.writeback)
  }

  lemma SamePlaces(s: Sys, s': Sys)
    requires s'.net == s.net && s'.block.owner == s.block.owner && |s'.hosts| == |s.hosts|
    requires s.block.owner < |s.hosts| ==> s'.hosts[s.block.owner].local.pending == s.hosts[s.block.owner].local.pending
    ensures Places(s') == Places(s)
  {
  }

  lemma ChangedLocals(s: Sys, s': Sys, h: nat)
    requires WaitersChanged(s, s', h) && LocalsOk(s)
    requires Writing(s'.block) ==> s.hosts[s.block.owner].local.held
    ensures LocalsOk(s')
  {
    forall k | 0 <= k < |s'.hosts| ensures LocalOk(s', k) { assert LocalOk(s, k); }
  }

  /** No other request is touched, and no waiter is un-abandoned. */
  predicate OnlyEnds(before: map<nat, Waiter>, after: map<nat, Waiter>, serial: nat) {
    && (forall k :: k in after && k != serial ==> k in before && after[k] == before[k])
    && (forall k :: k in before && k != serial ==> k in after)
    && (serial in after ==> serial in before && (before[serial].abandoned ==> after[serial].abandoned))
  }

  lemma ChangedPackets(s: Sys, s': Sys, h: nat, serial: nat)
    requires WaitersChanged(s, s', h) && PacketsOk(s)
    requires OnlyEnds(s.hosts[h].waiters, s'.hosts[h].waiters, serial)
    ensures PacketsOk(s')
  {
    forall m | m in s'.net ensures PacketOk(s', m) { assert PacketOk(s, m); }
  }

  /** The waiter of a request in hand ends or gets the lease, while the owner holds the token. */
  lemma ConferBase(s: Sys, s': Sys, h: nat, serial: nat)
    requires Mid(s, h) && WaitersChanged(s, s', h) && serial in s.hosts[h].waiters
    requires RequestId(h, serial) !in Places(s)
    requires OnlyEnds(s.hosts[h].waiters, s'.hosts[h].waiters, serial)
    requires serial in s'.hosts[h].waiters && s'.hosts[h].waiters[serial].progress.Granted? ==>
      && s'.hosts[h].waiters[serial].progress.lease == Lease(s.block.version, s.block.epoch)
      && !s'.hosts[h].waiters[serial].abandoned
    ensures Base(s') && Places(s') == Places(s)
  {
    SamePlaces(s, s');
    ChangedLocals(s, s', h);
    ChangedPackets(s, s', h, serial);
    forall k, j | 0 <= k < |s'.hosts| && j in s'.hosts[k].waiters ensures WaiterOk(s', RequestId(k, j)) {
      assert WaiterOk(s, RequestId(k, j)) && !GrantedWaiter(s, RequestId(k, j));
    }
    forall id | GrantedWaiter(s', id) ensures id == RequestId(h, serial) {
      assert !GrantedWaiter(s, id);
    }
  }

  lemma GrantedInv(s: Sys, s': Sys, h: nat, serial: nat)
    requires Mid(s, h) && WaitersChanged(s, s', h) && serial in s.hosts[h].waiters
    requires RequestId(h, serial) !in Places(s)
    requires !s.hosts[h].waiters[serial].abandoned
    requires s'.hosts[h].waiters ==
      s.hosts[h].waiters[serial := s.hosts[h].waiters[serial].(progress := Granted(Lease(s.block.version, s.block.epoch)))]
    requires !s.overtaken ==>
      RequestsKept(s.hosts, Places(s) + multiset{RequestId(h, serial)}, Acknowledged(s.net))
    ensures Inv(s')
  {
    ConferBase(s, s', h, serial);
    if !s.overtaken {
      KeptFinish(s.hosts, s'.hosts[h], RequestId(h, serial), Places(s), Acknowledged(s.net));
      assert GrantedWaiter(s', RequestId(h, serial));
      assert Ticket(s', RequestId(h, serial));
    }
  }

  /** The request in hand meets its waiter on the owner: it gets the lease, or is passed over. */
  lemma ConferKeeps(s: Sys, h: nat, serial: nat, activate: bool)
    requires Mid(s, h) && serial in s.hosts[h].waiters
    requires RequestId(h, serial) !in Places(s)
    requires !s.overtaken ==>
      RequestsKept(s.hosts, Places(s) + multiset{RequestId(h, serial)}, Acknowledged(s.net))
    ensures Inv(Apply(s, h, Confer(h, Activated(s.block, activate), s.hosts[h], serial)))
    ensures !s.overtaken ==> Confer(h, Activated(s.block, activate), s.hosts[h], serial).status.Ok?
    decreases |s.hosts[h].local.pending|, 2
  {
    hide Inv, RequestsKept, Places, LocalsOk, PacketsOk, OneToken, WaitersOk, ClaimsOk, UniquePlaces, GrantTo, Handoff;
    var b := Activated(s.block, activate);
    var host := s.hosts[h];
    var o := Confer(h, b, host, serial);
    var s' := Apply(s, h, o);
    assert TakeToken(host) == host;
    if host.waiters[serial].abandoned {
      var rest := host.(waiters := Discard(host.waiters, serial));
      var s1 := WithHost(s, h, Committed(b, false), rest);
      assert o == Release(h, b, rest, Lease(b.version, b.epoch), false);
      assert Accepts(h, b, rest, Lease(b.version, b.epoch), false);
      assert o == Handoff(h, s1.block, rest);
      assert s' == Apply(s1, h, o);
      ConferBase(s, s1, h, serial);
      assert forall id :: GrantedWaiter(s1, id) ==> GrantedWaiter(s, id);
      if !s.overtaken {
        KeptFinish(s.hosts, rest, RequestId(h, serial), Places(s), Acknowledged(s.net));
      }
      HandoffKeeps(s1, h);
    } else {
      assert s'.net == s.net;
      GrantedInv(s, s', h, serial);
    }
  }

  lemma GrantKeeps(s: Sys, h: nat, r: Request)
    requires Mid(s, h) && InHand(s, r)
    requires !s.overtaken ==> RequestsKept(s.hosts, Places(s) + multiset{r.id}, Acknowledged(s.net))
    ensures Inv(Apply(s, h, GrantTo(h, s.block, s.hosts[h], r)))
    ensures !s.overtaken ==> GrantTo(h, s.block, s.hosts[h], r).status.Ok?
    decreases |s.hosts[h].local.pending|, 3
  {
    if r.id.host != h {
      TransferKeeps(s, h, r);
    } else if r.id.serial in s.hosts[h].waiters {
      ConferKeeps(s, h, r.id.serial, r.activate);
    } else {
      assert Apply(s, h, GrantTo(h, s.block, s.hosts[h], r)) == s;
      assert r.id in Places(s) + multiset{r.id};
    }
  }

  /** Popping the head of the queue puts that request in hand. */
  lemma PopMid(s: Sys, s': Sys, h: nat)
    requires Mid(s, h) && s.hosts[h].local.pending != []
    requires s' == WithHost(s, h, s.block, s.hosts[h].(local := s.hosts[h].local.(pending := s.hosts[h].local.pending[1..])))
    ensures Mid(s', h) && InHand(s', s.hosts[h].local.pending[0])
    ensures Places(s) == Places(s') + multiset{s.hosts[h].local.pending[0].id}
  {
    var r := s.hosts[h].local.pending[0];
    assert LocalOk(s, h);
    assert Places(s) == Places(s') + multiset{r.id};
    assert Places(s)[r.id] <= 1;
    forall k | 0 <= k < |s'.hosts| ensures LocalOk(s', k) { assert LocalOk(s, k); }
    forall m | m in s'.net ensures PacketOk(s', m) { assert PacketOk(s, m); }
    forall k, j | 0 <= k < |s'.hosts| && j in s'.hosts[k].waiters ensures WaiterOk(s', RequestId(k, j)) {
      assert WaiterOk(s, RequestId(k, j));
    }
    assert forall id :: GrantedWaiter(s', id) ==> GrantedWaiter(s, id);
    forall id ensures Places(s')[id] <= 1 { assert Places(s)[id] <= 1; }
  }

  lemma HandoffKeeps(s: Sys, h: nat)
    requires Mid(s, h)
    requires !s.overtaken ==> RequestsKept(s.hosts, Places(s), Acknowledged(s.net))
    ensures Inv(Apply(s, h, Handoff(h, s.block, s.hosts[h])))
    ensures !s.overtaken ==> Handoff(h, s.block, s.hosts[h]).status.Ok?
    decreases |s.hosts[h].local.pending|, 0
  {
    hide Inv, RequestsKept, Places, GrantTo, LocalsOk, PacketsOk, OneToken, WaitersOk, ClaimsOk, UniquePlaces;
    var local := s.hosts[h].local;
    if local.pending != [] {
      var host' := s.hosts[h].(local := local.(pending := local.pending[1..]));
      var s' := WithHost(s, h, s.block, host');
      PopMid(s, s', h);
      if !s.overtaken { KeptFrame(s.hosts, s'.hosts, Places(s), Acknowledged(s.net)); }
      GrantKeeps(s', h, local.pending[0]);
      assert Apply(s, h, Handoff(h, s.block, s.hosts[h])) == Apply(s', h, GrantTo(h, s.block, host', local.pending[0]));
    } else {
      FreeKeeps(s, h);
    }
  }

  lemma FreeKeeps(s: Sys, h: nat)
    requires Mid(s, h) && s.hosts[h].local.pending == []
    requires !s.overtaken ==> RequestsKept(s.hosts, Places(s), Acknowledged(s.net))
    ensures Inv(Apply(s, h, Handoff(h, s.block, s.hosts[h])))
  {
    hide RequestsKept, GrantTo, Travelling, Acknowledged, GrantCount;
    var s' := Apply(s, h, Handoff(h, s.block, s.hosts[h]));
    assert s' == WithHost(s, h, s.block, s.hosts[h].(local := s.hosts[h].local.(held := false)));
    SamePlaces(s, s');
    forall k | 0 <= k < |s'.hosts| ensures LocalOk(s', k) { assert LocalOk(s, k); }
    forall m | m in s'.net ensures PacketOk(s', m) { assert PacketOk(s, m); }
    forall k, j | 0 <= k < |s'.hosts| && j in s'.hosts[k].waiters ensures WaiterOk(s', RequestId(k, j)) {
      assert WaiterOk(s, RequestId(k, j)) && !GrantedWaiter(s, RequestId(k, j));
    }
    assert forall id :: GrantedWaiter(s', id) ==> GrantedWaiter(s, id);
    if !s.overtaken { KeptFrame(s.hosts, s'.hosts, Places(s), Acknowledged(s.net)); }
  }

  // ------------------------------------------------------------------ frames for the steps

  lemma {:induction false} TravellingIssued(s: Sys, net: seq<Message>)
    requires forall m :: m in net ==> Issued(s, Identity(m))
    ensures forall id :: id in Travelling(net) || id in Acknowledged(net) ==> Issued(s, id)
  {
    if net != [] {
      assert net[0] in net;
      TravellingIssued(s, net[1..]);
    }
  }

  lemma {:induction false} WaitingIssued(s: Sys, pending: seq<Request>)
    requires forall r :: r in pending ==> Issued(s, r.id)
    ensures forall id :: id in Waiting(pending) ==> Issued(s, id)
  {
    if pending != [] {
      assert pending[0] in pending;
      WaitingIssued(s, pending[1..]);
    }
  }

  lemma PlacesIssued(s: Sys)
    requires LocalsOk(s) && PacketsOk(s)
    ensures forall id :: id in Places(s) || id in Acknowledged(s.net) ==> Issued(s, id)
  {
    forall m | m in s.net ensures Issued(s, Identity(m)) { assert PacketOk(s, m); }
    TravellingIssued(s, s.net);
    assert LocalOk(s, s.block.owner);
    WaitingIssued(s, s.hosts[s.block.owner].local.pending);
  }

  /** Leases are unaffected by where other requests are. */
  lemma TicketsFrame(s: Sys, s': Sys)
    requires WaitersOk(s) && ClaimsOk(s)
    requires |s'.hosts| == |s.hosts| && s'.next == s.next && s'.claims == s.claims
    requires s'.block.owner == s.block.owner && s'.block.epoch == s.block.epoch && s'.block.version == s.block.version
    requires forall h :: 0 <= h < |s.hosts| ==>
      s'.hosts[h].waiters == s.hosts[h].waiters && s'.hosts[h].local.held == s.hosts[h].local.held
    requires forall id :: id in Places(s') && id !in Places(s) ==> !GrantedWaiter(s, id) && !Claimed(s, id)
    ensures WaitersOk(s') && ClaimsOk(s')
  {
    forall k, j | 0 <= k < |s'.hosts| && j in s'.hosts[k].waiters ensures WaiterOk(s', RequestId(k, j)) {
      assert WaiterOk(s, RequestId(k, j));
      assert GrantedWaiter(s', RequestId(k, j)) ==> GrantedWaiter(s, RequestId(k, j));
    }
    assert forall id :: GrantedWaiter(s', id) ==> GrantedWaiter(s, id);
    forall c | c in s'.claims ensures c.id !in Places(s') { assert Claimed(s, c.id); }
  }

  function Taken(s: Sys, i: nat): Sys
    requires i < |s.net|
  {
    s.(net := s.net[..i] + s.net[i + 1..])
  }

  /** Consuming a packet only empties its place. */
  lemma TakeKeeps(s: Sys, i: nat)
    requires Base(s) && i < |s.net|
    ensures Base(Taken(s, i)) && PacketOk(s, s.net[i])
    ensures Places(s) == Places(Taken(s, i)) + Travelling([s.net[i]])
    ensures Acknowledged(s.net) == Acknowledged(Taken(s, i).net) + Acknowledged([s.net[i]])
    ensures GrantCount(s.net) == GrantCount(Taken(s, i).net) + GrantCount([s.net[i]])
  {
    hide WaitersOk, ClaimsOk, Travelling, Acknowledged, GrantCount, Waiting;
    var s' := Taken(s, i);
    CountPick(s.net, i);
    assert Places(s) == Places(s') + Travelling([s.net[i]]);
    forall k | 0 <= k < |s'.hosts| ensures LocalOk(s', k) { assert LocalOk(s, k); }
    forall m | m in s'.net ensures PacketOk(s', m) { assert PacketOk(s, m); }
    assert PacketOk(s, s.net[i]);
    TicketsFrame(s, s');
    forall id ensures Places(s')[id] <= 1 { assert Places(s)[id] <= 1; }
  }

  function Sent(s: Sys, sent: seq<Message>): Sys {
    s.(net := s.net + sent)
  }

  /** Sending one packet that carries neither the token nor an identity already placed. */
  lemma SendKeeps(s: Sys, m: Message)
    requires Base(s) && PacketOk(s, m) && !m.Grant?
    requires m.Req? ==> m.request.id !in Places(s) && !GrantedWaiter(s, m.request.id) && !Claimed(s, m.request.id)
    ensures Base(Sent(s, [m]))
    ensures Places(Sent(s, [m])) == Places(s) + Travelling([m])
    ensures Acknowledged(Sent(s, [m]).net) == Acknowledged(s.net) + Acknowledged([m])
    ensures GrantCount(Sent(s, [m]).net) == GrantCount(s.net)
  {
    hide WaitersOk, ClaimsOk, Travelling, Acknowledged, GrantCount, Waiting;
    var s' := Sent(s, [m]);
    CountJoin(s.net, [m]);
    CountOne(m);
    assert Places(s') == Places(s) + Travelling([m]);
    forall k | 0 <= k < |s'.hosts| ensures LocalOk(s', k) { assert LocalOk(s, k); }
    forall p | p in s'.net ensures PacketOk(s', p) { if p in s.net { assert PacketOk(s, p); } }
    TicketsFrame(s, s');
    forall id ensures Places(s')[id] <= 1 { assert Places(s)[id] <= 1; }
  }

  function Queue(s: Sys, h: nat, r: Request): Sys
    requires h < |s.hosts|
  {
    WithHost(s, h, s.block, s.hosts[h].(local := s.hosts[h].local.(pending := s.hosts[h].local.pending + [r])))
  }

  /** Queueing a request at an owner that cannot grant it now. */
  lemma QueueKeeps(s: Sys, h: nat, r: Request)
    requires Base(s) && h == s.block.owner < |s.hosts| && InHand(s, r)
    requires !s.hosts[h].local.available || s.hosts[h].local.held
    requires !GrantedWaiter(s, r.id) && !Claimed(s, r.id)
    ensures Base(Queue(s, h, r)) && Places(Queue(s, h, r)) == Places(s) + multiset{r.id}
  {
    hide WaitersOk, ClaimsOk, Travelling, Acknowledged, GrantCount, Waiting;
    var s' := Queue(s, h, r);
    WaitingAppend(s.hosts[h].local.pending, r);
    assert Places(s') == Places(s) + multiset{r.id};
    forall k | 0 <= k < |s'.hosts| ensures LocalOk(s', k) { assert LocalOk(s, k); }
    forall p | p in s'.net ensures PacketOk(s', p) { assert PacketOk(s, p); }
    TicketsFrame(s, s');
    forall id ensures Places(s')[id] <= 1 { assert Places(s)[id] <= 1; }
  }

  lemma TokenFrame(s: Sys, s': Sys)
    requires TokenKept(s) && GrantCount(s'.net) == GrantCount(s.net)
    requires s'.block.owner == s.block.owner && |s'.hosts| == |s.hosts| && s'.claims == s.claims
    requires forall h :: 0 <= h < |s.hosts| ==>
      s'.hosts[h].local.held == s.hosts[h].local.held && s'.hosts[h].local.available == s.hosts[h].local.available
    requires forall id :: GrantedWaiter(s, id) ==> GrantedWaiter(s', id)
    ensures TokenKept(s')
  {
    hide GrantCount;
    if s'.hosts[s'.block.owner].local.held {
      var id :| Ticket(s, id);
      assert Ticket(s', id);
    }
  }

  /** An idle owner, or one whose grant packet was just consumed, takes the token in hand. */
  lemma TakeMid(s: Sys, h: nat)
    requires Base(s) && h == s.block.owner < |s.hosts| && !s.block.retiring
    requires !s.hosts[h].local.held && GrantCount(s.net) == 0
    ensures Mid(WithHost(s, h, s.block, TakeToken(s.hosts[h])), h)
    ensures Places(WithHost(s, h, s.block, TakeToken(s.hosts[h]))) == Places(s)
  {
    hide Travelling, Acknowledged, GrantCount, Waiting;
    var s' := WithHost(s, h, s.block, TakeToken(s.hosts[h]));
    SamePlaces(s, s');
    forall k | 0 <= k < |s'.hosts| ensures LocalOk(s', k) { assert LocalOk(s, k); }
    forall p | p in s'.net ensures PacketOk(s', p) { assert PacketOk(s, p); }
    forall k, j | 0 <= k < |s'.hosts| && j in s'.hosts[k].waiters
      ensures WaiterOk(s', RequestId(k, j)) && !GrantedWaiter(s', RequestId(k, j))
    {
      assert WaiterOk(s, RequestId(k, j));
    }
  }

  lemma ConferTaken(h: nat, b: Block, s: Host, serial: nat)
    requires serial in s.waiters
    ensures Confer(h, b, s, serial) == Confer(h, b, TakeToken(s), serial)
  {
    hide Release;
    assert TakeToken(TakeToken(s)) == TakeToken(s);
  }

  /** What a step in progress knows about the outstanding requests. */
  ghost predicate Kept(s: Sys, out: multiset<RequestId>) {
    !s.overtaken && !s.block.retiring ==> RequestsKept(s.hosts, out, Acknowledged(s.net))
  }

  lemma HandleRequestKeeps(s: Sys, h: nat, r: Request)
    requires Base(s) && h < |s.hosts| && !s.block.retiring
    requires InHand(s, r) && !GrantedWaiter(s, r.id) && !Claimed(s, r.id)
    requires Kept(s, Places(s) + multiset{r.id}) && (!s.overtaken ==> TokenKept(s))
    ensures Inv(Apply(s, h, HandleRequest(h, s.block, s.hosts[h], r)))
    ensures !s.overtaken ==> HandleRequest(h, s.block, s.hosts[h], r).status.Ok?
  {
    hide RequestsKept, Places, PacketsOk, WaitersOk, ClaimsOk, UniquePlaces, GrantTo, GrantCount, Travelling, Acknowledged, TokenKept;
    var o := HandleRequest(h, s.block, s.hosts[h], r);
    var s' := Apply(s, h, o);
    var local := s.hosts[h].local;
    if s.block.owner != h {
      var m := Req(s.block.owner, r);
      CountOne(m);
      assert s' == Sent(s, [m]);
      SendKeeps(s, m);
      assert Acknowledged(s'.net) == Acknowledged(s.net);
      if !s.overtaken { TokenFrame(s, s'); }
    } else if !local.available || local.held {
      assert s' == Queue(s, h, r);
      QueueKeeps(s, h, r);
      if !s.overtaken {
        KeptFrame(s.hosts, s'.hosts, Places(s'), Acknowledged(s.net));
        TokenFrame(s, s');
      }
    } else {
      var s1 := WithHost(s, h, s.block, TakeToken(s.hosts[h]));
      TakeMid(s, h);
      if !s.overtaken { KeptFrame(s.hosts, s1.hosts, Places(s) + multiset{r.id}, Acknowledged(s.net)); }
      GrantKeeps(s1, h, r);
      assert s1.hosts[h] == s.hosts[h].(local := local.(held := true));
      assert s' == Apply(s1, h, GrantTo(h, s1.block, s1.hosts[h], r));
    }
  }

  lemma HandleGrantKeeps(s: Sys, h: nat, m: Message)
    requires Base(s) && !s.block.retiring && m.Grant? && PacketOk(s, m) && h == m.to
    requires GrantCount(s.net) == 0 && !s.hosts[h].local.held
    requires m.granted !in Places(s) && Kept(s, Places(s) + multiset{m.granted})
    ensures var o := HandleGrant(h, s.block, s.hosts[h], m.granted.serial, m.version, m.epoch, m.activate);
      && Inv(Apply(s, h, o))
      && (!s.overtaken ==> o.status.Ok? && m.granted.serial in s.hosts[h].waiters)
  {
    hide RequestsKept, Places, PacketsOk, WaitersOk, ClaimsOk, UniquePlaces, Release, GrantCount, Travelling, Acknowledged;
    var serial := m.granted.serial;
    var o := HandleGrant(h, s.block, s.hosts[h], serial, m.version, m.epoch, m.activate);
    var s' := Apply(s, h, o);
    if serial in s.hosts[h].waiters {
      var s1 := WithHost(s, h, s.block, TakeToken(s.hosts[h]));
      TakeMid(s, h);
      if !s.overtaken { KeptFrame(s.hosts, s1.hosts, Places(s) + multiset{m.granted}, Acknowledged(s.net)); }
      ConferKeeps(s1, h, serial, m.activate);
      ConferTaken(h, Activated(s.block, m.activate), s.hosts[h], serial);
      assert s' == Apply(s1, h, Confer(h, Activated(s.block, m.activate), s1.hosts[h], serial));
    } else {
      assert s' == s;
      if !s.overtaken { GrantFindsWaiter(s, m.granted); }
    }
  }

  lemma GrantFindsWaiter(s: Sys, id: RequestId)
    requires RequestsKept(s.hosts, Places(s) + multiset{id}, Acknowledged(s.net))
    ensures WaiterReady(s.hosts, id)
  {
    assert id in Places(s) + multiset{id};
  }

  // ------------------------------------------------------------------ waiters that end

  /** A waiter without a lease is dropped, marked or finished. */
  lemma EndBase(s: Sys, s': Sys, h: nat, serial: nat)
    requires Base(s) && WaitersChanged(s, s', h) && s'.block == s.block
    requires OnlyEnds(s.hosts[h].waiters, s'.hosts[h].waiters, serial)
    requires !GrantedWaiter(s, RequestId(h, serial)) && !GrantedWaiter(s', RequestId(h, serial))
    ensures Base(s') && Places(s') == Places(s)
    ensures forall id :: GrantedWaiter(s', id) <==> GrantedWaiter(s, id)
  {
    hide Travelling, Acknowledged, GrantCount, Waiting;
    SamePlaces(s, s');
    ChangedLocals(s, s', h);
    ChangedPackets(s, s', h, serial);
    forall id ensures GrantedWaiter(s', id) <==> GrantedWaiter(s, id) {}
    forall k, j | 0 <= k < |s'.hosts| && j in s'.hosts[k].waiters ensures WaiterOk(s', RequestId(k, j)) {
      assert WaiterOk(s, RequestId(k, j));
    }
  }

  lemma EndToken(s: Sys, s': Sys, h: nat)
    requires TokenKept(s) && WaitersChanged(s, s', h)
    requires forall id :: GrantedWaiter(s', id) <==> GrantedWaiter(s, id)
    ensures TokenKept(s')
  {
    TokenFrame(s, s');
  }

  /** An owner's acknowledgement travels instead of the request it removed. */
  lemma KeptAck(hosts: seq<Host>, id: RequestId, out: multiset<RequestId>, acks: multiset<RequestId>)
    requires RequestsKept(hosts, out, acks) && out[id] <= 1
    requires id.host < |hosts| && (id.serial in hosts[id.host].waiters ==> hosts[id.host].waiters[id.serial].abandoned)
    ensures RequestsKept(hosts, out - multiset{id}, acks + multiset{id})
  {
    forall i | i in out - multiset{id} ensures WaiterReady(hosts, i) {
      assert i in out;
    }
    forall h, k | 0 <= h < |hosts| && k in hosts[h].waiters
      ensures WaiterKept(hosts[h].waiters[k], RequestId(h, k), out - multiset{id}, acks + multiset{id})
    {
      assert WaiterKept(hosts[h].waiters[k], RequestId(h, k), out, acks);
      assert RequestId(h, k) != id ==> (RequestId(h, k) in out - multiset{id} <==> RequestId(h, k) in out);
    }
    forall i | i in acks + multiset{id} ensures i !in out - multiset{id} {
      if i != id { assert i in acks; }
    }
  }

  /** The acknowledgement arrives: its waiter is no longer outstanding. */
  lemma KeptAcked(hosts: seq<Host>, host: Host, id: RequestId, out: multiset<RequestId>, acks: multiset<RequestId>)
    requires id.host < |hosts| && RequestsKept(hosts, out, acks + multiset{id})
    requires OnlyEnds(hosts[id.host].waiters, host.waiters, id.serial)
    requires id.serial in host.waiters ==> host.waiters[id.serial].progress.Cancelled?
    ensures RequestsKept(hosts[id.host := host], out, acks)
  {
    var hosts' := hosts[id.host := host];
    assert id in acks + multiset{id};
    forall i | i in out ensures WaiterReady(hosts', i) {
      assert WaiterReady(hosts, i) && i != id;
    }
    forall i | i in acks ensures i !in out { assert i in acks + multiset{id}; }
    forall h, k | 0 <= h < |hosts'| && k in hosts'[h].waiters
      ensures WaiterKept(hosts'[h].waiters[k], RequestId(h, k), out, acks)
    {
      if RequestId(h, k) != id {
        assert WaiterKept(hosts[h].waiters[k], RequestId(h, k), out, acks + multiset{id});
      }
    }
  }

  lemma CancelAckKeeps(s: Sys, h: nat, serial: nat)
    requires Base(s) && h < |s.hosts| && !s.block.retiring
    requires serial in s.hosts[h].waiters ==> s.hosts[h].waiters[serial].abandoned
    requires !s.overtaken ==> RequestsKept(s.hosts, Places(s), Acknowledged(s.net) + multiset{RequestId(h, serial)})
    requires !s.overtaken ==> TokenKept(s)
    ensures Inv(WithHost(s, h, s.block, HandleCancelAck(s.hosts[h], serial, false)))
  {
    hide RequestsKept, Places, LocalsOk, PacketsOk, ClaimsOk, UniquePlaces, OneToken, TokenKept, Acknowledged;
    var s' := WithHost(s, h, s.block, HandleCancelAck(s.hosts[h], serial, false));
    if serial in s.hosts[h].waiters { assert WaiterOk(s, RequestId(h, serial)); }
    EndBase(s, s', h, serial);
    if !s.overtaken {
      KeptAcked(s.hosts, s'.hosts[h], RequestId(h, serial), Places(s), Acknowledged(s.net));
      EndToken(s, s', h);
    }
  }

  /** Removing a queued request (or none) from the owner's queue. */
  function Unqueued(s: Sys, h: nat, id: RequestId): Sys
    requires h < |s.hosts|
  {
    WithHost(s, h, s.block, s.hosts[h].(local := s.hosts[h].local.(pending := Without(s.hosts[h].local.pending, id))))
  }

  lemma {:induction false} WithoutAbsent(pending: seq<Request>, id: RequestId)
    requires id !in Waiting(pending)
    ensures Without(pending, id) == pending
  {
    if pending != [] { WithoutAbsent(pending[1..], id); }
  }

  lemma UnqueueKeeps(s: Sys, h: nat, id: RequestId)
    requires Base(s) && h == s.block.owner < |s.hosts| && Queued(s.hosts[h].local.pending, id)
    ensures Base(Unqueued(s, h, id))
    ensures Places(s) == Places(Unqueued(s, h, id)) + multiset{id} && id !in Places(Unqueued(s, h, id))
  {
    hide Travelling, Acknowledged, GrantCount, Waiting, Without, WaitersOk, ClaimsOk;
    var s' := Unqueued(s, h, id);
    WaitingWithout(s.hosts[h].local.pending, id);
    assert Places(s) == Places(s') + multiset{id};
    assert Places(s)[id] <= 1;
    WithoutEmpty(s.hosts[h].local.pending, id);
    forall k | 0 <= k < |s'.hosts| ensures LocalOk(s', k) { assert LocalOk(s, k); }
    forall p | p in s'.net ensures PacketOk(s', p) { assert PacketOk(s, p); }
    TicketsFrame(s, s');
    forall i ensures Places(s')[i] <= 1 { assert Places(s)[i] <= 1; }
  }

  lemma WithoutEmpty(pending: seq<Request>, id: RequestId)
    ensures pending == [] ==> Without(pending, id) == []
  {
  }

  /** The owner's queue after a cancellation, and what is then still outstanding. */
  lemma UnqueueAcked(s: Sys, h: nat, id: RequestId)
    requires Base(s) && h == s.block.owner < |s.hosts| && !s.block.retiring
    requires id.host < |s.hosts| && (id.serial in s.hosts[id.host].waiters ==> s.hosts[id.host].waiters[id.serial].abandoned)
    requires Kept(s, Places(s)) && (!s.overtaken ==> TokenKept(s))
    requires !s.overtaken ==> Queued(s.hosts[h].local.pending, id) || id !in Travelling(s.net)
    ensures var s' := Unqueued(s, h, id);
      && Base(s') && s'.hosts[id.host].waiters == s.hosts[id.host].waiters
      && (!s.overtaken ==> TokenKept(s') && RequestsKept(s'.hosts, Places(s'), Acknowledged(s'.net) + multiset{id}))
  {
    hide RequestsKept, LocalsOk, PacketsOk, WaitersOk, ClaimsOk, OneToken, TokenKept, GrantCount, Travelling, Acknowledged, Waiting, Without;
    var s' := Unqueued(s, h, id);
    if Queued(s.hosts[h].local.pending, id) {
      UnqueueKeeps(s, h, id);
    } else {
      WithoutAbsent(s.hosts[h].local.pending, id);
      assert s' == s;
    }
    if !s.overtaken {
      KeptAck(s.hosts, id, Places(s), Acknowledged(s.net));
      assert Places(s) - multiset{id} == Places(s');
      KeptFrame(s.hosts, s'.hosts, Places(s'), Acknowledged(s.net) + multiset{id});
      TokenFrame(s, s');
    }
  }

  lemma HandleCancelKeeps(s: Sys, h: nat, id: RequestId)
    requires Base(s) && h < |s.hosts| && s.block.owner < |s.hosts| && !s.block.retiring && Issued(s, id)
    requires id.host < |s.hosts| && (id.serial in s.hosts[id.host].waiters ==> s.hosts[id.host].waiters[id.serial].abandoned)
    requires Kept(s, Places(s)) && (!s.overtaken ==> TokenKept(s))
    requires !s.overtaken && s.block.owner == h && id.host != h ==>
      Queued(s.hosts[h].local.pending, id) || id !in Travelling(s.net)
    ensures Inv(Apply(s, h, HandleCancel(h, s.block, s.hosts[h], id)))
    ensures HandleCancel(h, s.block, s.hosts[h], id).status.Ok?
  {
    hide RequestsKept, Places, LocalsOk, PacketsOk, WaitersOk, ClaimsOk, UniquePlaces, OneToken, TokenKept, GrantCount, Travelling, Acknowledged, Waiting, Without;
    var o := HandleCancel(h, s.block, s.hosts[h], id);
    var s' := Apply(s, h, o);
    if s.block.owner != h {
      var m := Cancel(s.block.owner, id);
      CountOne(m);
      SendCancelKeeps(s, s', m);
    } else if id.host == h && !Queued(s.hosts[h].local.pending, id) {
      WithoutAbsent(s.hosts[h].local.pending, id);
      assert s' == s;
    } else {
      var s1 := Unqueued(s, h, id);
      UnqueueAcked(s, h, id);
      if id.host == h {
        CancelAckKeeps(s1, h, id.serial);
        assert s' == WithHost(s1, h, s.block, HandleCancelAck(s1.hosts[h], id.serial, false));
      } else {
        SendAckKeeps(s1, s', CancelAck(id.host, id, false));
      }
    }
  }

  lemma SendCancelKeeps(s: Sys, s': Sys, m: Message)
    requires Base(s) && m.Cancel? && s' == Sent(s, [m])
    requires m.to < |s.hosts| && Issued(s, m.cancelled)
    requires m.cancelled.host < |s.hosts| && (m.cancelled.serial in s.hosts[m.cancelled.host].waiters ==> s.hosts[m.cancelled.host].waiters[m.cancelled.serial].abandoned)
    requires Kept(s, Places(s)) && (!s.overtaken && !s.block.retiring ==> TokenKept(s))
    ensures Inv(s')
  {
    hide RequestsKept, LocalsOk, PacketsOk, WaitersOk, ClaimsOk, UniquePlaces, OneToken, TokenKept, GrantCount, Travelling, Acknowledged, Places;
    CountOne(m);
    SendKeeps(s, m);
    assert Places(s') == Places(s);
    assert Acknowledged(s'.net) == Acknowledged(s.net);
    if !s.overtaken && !s.block.retiring { TokenFrame(s, s'); }
  }

  lemma SendAckKeeps(s: Sys, s': Sys, m: Message)
    requires Base(s) && m.CancelAck? && !m.tooLate && s' == Sent(s, [m])
    requires m.to == m.acked.host < |s.hosts| && Issued(s, m.acked)
    requires m.acked.serial in s.hosts[m.acked.host].waiters ==> s.hosts[m.acked.host].waiters[m.acked.serial].abandoned
    requires !s.overtaken ==> TokenKept(s) && RequestsKept(s.hosts, Places(s), Acknowledged(s.net) + multiset{m.acked})
    ensures Inv(s')
  {
    hide RequestsKept, LocalsOk, PacketsOk, WaitersOk, ClaimsOk, UniquePlaces, OneToken, TokenKept, GrantCount, Travelling, Acknowledged, Places;
    CountOne(m);
    SendKeeps(s, m);
    assert Places(s') == Places(s);
    if !s.overtaken { TokenFrame(s, s'); }
  }

  // ------------------------------------------------------------------ steps keep the invariant

  lemma DeliverRequest(s: Sys, i: nat)
    requires Inv(s) && Enabled(s, DoDeliver(i)) && s.net[i].Req? && !s.block.retiring
    ensures Inv(Next(s, DoDeliver(i)))
    ensures !s.overtaken ==> Handle(s.net[i].to, s.block, s.hosts[s.net[i].to], s.net[i]).status.Ok?
  {
    hide RequestsKept, Places, LocalsOk, PacketsOk, WaitersOk, ClaimsOk, UniquePlaces, GrantCount, Travelling, Acknowledged,
         TokenKept, HandleRequest, HandleGrant, HandleCancel;
    var s0 := Taken(s, i);
    TakeKeeps(s, i);
    CountOne(s.net[i]);
    NotTicket(s, s0, s.net[i].request.id);
    assert Acknowledged(s0.net) == Acknowledged(s.net);
    if !s.overtaken { TokenFrame(s, s0); }
    HandleRequestKeeps(s0, s.net[i].to, s.net[i].request);
    assert Next(s, DoDeliver(i)) == Apply(s0, s.net[i].to, HandleRequest(s.net[i].to, s.block, s.hosts[s.net[i].to], s.net[i].request));
  }

  lemma DeliverGrant(s: Sys, i: nat)
    requires Inv(s) && Enabled(s, DoDeliver(i)) && s.net[i].Grant? && !s.block.retiring
    ensures Inv(Next(s, DoDeliver(i)))
    ensures !s.overtaken ==>
      && Handle(s.net[i].to, s.block, s.hosts[s.net[i].to], s.net[i]).status.Ok?
      && s.net[i].granted.serial in s.hosts[s.net[i].to].waiters
  {
    hide RequestsKept, Places, LocalsOk, PacketsOk, WaitersOk, ClaimsOk, UniquePlaces, GrantCount, Travelling, Acknowledged,
         TokenKept, HandleRequest, HandleGrant, HandleCancel;
    var m := s.net[i];
    var s0 := Taken(s, i);
    TakeKeeps(s, i);
    CountOne(m);
    NotTicket(s, s0, m.granted);
    assert Acknowledged(s0.net) == Acknowledged(s.net);
    GrantMeansUnheld(s, m.to);
    HandleGrantKeeps(s0, m.to, m);
    assert Next(s, DoDeliver(i))
        == Apply(s0, m.to, HandleGrant(m.to, s.block, s.hosts[m.to], m.granted.serial, m.version, m.epoch, m.activate));
  }

  lemma DeliverCancel(s: Sys, i: nat)
    requires Inv(s) && Enabled(s, DoDeliver(i)) && s.net[i].Cancel? && !s.block.retiring
    ensures Inv(Next(s, DoDeliver(i)))
    ensures Handle(s.net[i].to, s.block, s.hosts[s.net[i].to], s.net[i]).status.Ok?
  {
    hide RequestsKept, Places, PacketsOk, WaitersOk, ClaimsOk, UniquePlaces, GrantCount, Travelling, Acknowledged,
         TokenKept, HandleRequest, HandleGrant, HandleCancel;
    var m := s.net[i];
    var s' := Next(s, DoDeliver(i));
    var s0 := Taken(s, i);
    var s1 := s0.(overtaken := s'.overtaken);
    TakeKeeps(s, i);
    CountOne(m);
    assert Places(s0) == Places(s);
    assert Acknowledged(s0.net) == Acknowledged(s.net);
    OvertakenFrame(s0, s'.overtaken);
    CancelTravelling(s, i);
    if !s1.overtaken { TokenFrame(s, s1); }
    HandleCancelKeeps(s1, m.to, m.cancelled);
    assert s' == Apply(s1, m.to, HandleCancel(m.to, s.block, s.hosts[m.to], m.cancelled));
  }

  lemma DeliverAck(s: Sys, i: nat)
    requires Inv(s) && Enabled(s, DoDeliver(i)) && s.net[i].CancelAck? && !s.block.retiring
    ensures Inv(Next(s, DoDeliver(i)))
  {
    hide RequestsKept, Places, LocalsOk, PacketsOk, WaitersOk, ClaimsOk, UniquePlaces, GrantCount, Travelling, Acknowledged,
         TokenKept, HandleRequest, HandleGrant, HandleCancel;
    var m := s.net[i];
    var s0 := Taken(s, i);
    TakeKeeps(s, i);
    CountOne(m);
    assert Places(s0) == Places(s);
    if !s.overtaken { TokenFrame(s, s0); }
    if m.tooLate {
      assert Next(s, DoDeliver(i)) == s0;
      assert Acknowledged(s0.net) == Acknowledged(s.net);
    } else {
      CancelAckKeeps(s0, m.to, m.acked.serial);
      assert Next(s, DoDeliver(i)) == WithHost(s0, m.to, s.block, HandleCancelAck(s.hosts[m.to], m.acked.serial, false));
    }
  }

  /** Delivering any packet; short of an overtaken cancellation its handler never fails. */
  lemma DeliverKeeps(s: Sys, i: nat)
    requires Inv(s) && Enabled(s, DoDeliver(i))
    ensures Inv(Next(s, DoDeliver(i)))
    ensures !s.overtaken ==> Handle(s.net[i].to, s.block, s.hosts[s.net[i].to], s.net[i]).status.Ok?
  {
    hide RequestsKept, Places, LocalsOk, WaitersOk, ClaimsOk, UniquePlaces, OneToken, TokenKept, GrantTo, HandleRequest, HandleGrant,
         HandleCancel, HandleCancelAck, HandleReject;
    if s.block.retiring {
      var s' := Next(s, DoDeliver(i));
      TakeKeeps(s, i);
      OvertakenFrame(Taken(s, i), s'.overtaken);
      assert s'.net == Taken(s, i).net && s'.hosts == s.hosts;
      assert s' == Taken(s, i).(overtaken := s'.overtaken);
    } else {
      assert PacketOk(s, s.net[i]);
      match s.net[i]
      case Req(_, _) => DeliverRequest(s, i);
      case Grant(_, _, _, _, _) => DeliverGrant(s, i);
      case Cancel(_, _) => DeliverCancel(s, i);
      case CancelAck(_, _, _) => DeliverAck(s, i);
    }
  }

  lemma OvertakenFrame(s: Sys, overtaken: bool)
    requires Base(s)
    ensures Base(s.(overtaken := overtaken)) && Places(s.(overtaken := overtaken)) == Places(s)
  {
    hide GrantCount, Travelling, Acknowledged, Waiting;
    var s' := s.(overtaken := overtaken);
    SamePlaces(s, s');
    TicketsFrame(s, s');
    forall k | 0 <= k < |s'.hosts| ensures LocalOk(s', k) { assert LocalOk(s, k); }
    forall p | p in s'.net ensures PacketOk(s', p) { assert PacketOk(s, p); }
  }

  lemma NotTicket(s: Sys, s': Sys, id: RequestId)
    requires Base(s) && Places(s) == Places(s') + multiset{id}
    ensures id !in Places(s') && !GrantedWaiter(s, id) && !Claimed(s, id)
  {
    hide GrantCount, Travelling, Acknowledged, Waiting;
    assert Places(s)[id] <= 1 && id in Places(s);
    if id.host < |s.hosts| && id.serial in s.hosts[id.host].waiters { assert WaiterOk(s, RequestId(id.host, id.serial)); }
  }

  lemma GrantMeansUnheld(s: Sys, h: nat)
    requires LocalsOk(s) && OneToken(s) && GrantCount(s.net) >= 1 && h == s.block.owner
    ensures !s.hosts[h].local.held
  {
    assert LocalOk(s, h);
  }

  lemma CancelTravelling(s: Sys, i: nat)
    requires i < |s.net| && s.net[i].Cancel?
    ensures Travelling(Taken(s, i).net) == Travelling(s.net)
  {
    CountPick(s.net, i);
    CountOne(s.net[i]);
  }

  function Issue(s: Sys, h: nat): Sys
    requires h < |s.hosts| == |s.next|
  {
    s.(next := s.next[h := s.next[h] + 1],
       hosts := s.hosts[h := s.hosts[h].(waiters := s.hosts[h].waiters[s.next[h] := Waiter(Active, false, false)])])
  }

  lemma FreshSerial(s: Sys, h: nat)
    requires LocalsOk(s) && PacketsOk(s) && WaitersOk(s) && ClaimsOk(s) && h < |s.hosts|
    ensures var id := RequestId(h, s.next[h]);
      id !in Places(s) && id !in Acknowledged(s.net) && !Claimed(s, id) && s.next[h] !in s.hosts[h].waiters
  {
    hide Travelling, Acknowledged, GrantCount, Waiting, Places;
    PlacesIssued(s);
    forall c | c in s.claims ensures c.id != RequestId(h, s.next[h]) { assert Issued(s, c.id); }
    forall k | k in s.hosts[h].waiters ensures k != s.next[h] { assert WaiterOk(s, RequestId(h, k)); }
  }

  /** A fresh serial with its waiter, before the request has a place. */
  lemma IssueBase(s: Sys, h: nat)
    requires Base(s) && h < |s.hosts| && |s.hosts| == |s.next|
    ensures Base(Issue(s, h)) && Places(Issue(s, h)) == Places(s)
    ensures forall id :: GrantedWaiter(Issue(s, h), id) <==> GrantedWaiter(s, id)
  {
    hide Travelling, Acknowledged, GrantCount, Waiting;
    var s' := Issue(s, h);
    SamePlaces(s, s');
    FreshSerial(s, h);
    hide Places;
    assert forall id :: Issued(s, id) ==> Issued(s', id);
    assert forall id :: GrantedWaiter(s', id) <==> GrantedWaiter(s, id);
    forall k | 0 <= k < |s'.hosts| ensures LocalOk(s', k) { assert LocalOk(s, k); }
    forall p | p in s'.net ensures PacketOk(s', p) { assert PacketOk(s, p); }
    forall k, j | 0 <= k < |s'.hosts| && j in s'.hosts[k].waiters ensures WaiterOk(s', RequestId(k, j)) {
      if RequestId(k, j) != RequestId(h, s.next[h]) { assert WaiterOk(s, RequestId(k, j)); }
    }
  }

  lemma KeptIssue(hosts: seq<Host>, h: nat, k: nat, out: multiset<RequestId>, acks: multiset<RequestId>)
    requires RequestsKept(hosts, out, acks) && h < |hosts| && k !in hosts[h].waiters
    requires RequestId(h, k) !in out && RequestId(h, k) !in acks
    ensures RequestsKept(hosts[h := hosts[h].(waiters := hosts[h].waiters[k := Waiter(Active, false, false)])],
                         out + multiset{RequestId(h, k)}, acks)
  {
    var hosts' := hosts[h := hosts[h].(waiters := hosts[h].waiters[k := Waiter(Active, false, false)])];
    forall i | i in out + multiset{RequestId(h, k)} ensures WaiterReady(hosts', i) {
      if i != RequestId(h, k) { assert i in out && WaiterReady(hosts, i); }
    }
    forall g, j | 0 <= g < |hosts'| && j in hosts'[g].waiters
      ensures WaiterKept(hosts'[g].waiters[j], RequestId(g, j), out + multiset{RequestId(h, k)}, acks)
    {
      if RequestId(g, j) != RequestId(h, k) {
        assert WaiterKept(hosts[g].waiters[j], RequestId(g, j), out, acks);
      }
    }
  }

  /** A call of Request is the arrival of that request at its own host. */
  lemma RequestIsArrival(h: nat, b: Block, s: Host, serial: nat, activate: bool)
    requires !b.retiring && (Writing(b) && b.owner == h ==> s.local.held)
    ensures RequestToken(h, b, s, serial, activate)
         == HandleRequest(h, b, s.(waiters := s.waiters[serial := Waiter(Active, false, false)]),
                          Request(RequestId(h, serial), b.version, activate))
  {
    var s' := s.(waiters := s.waiters[serial := Waiter(Active, false, false)]);
    var r := Request(RequestId(h, serial), b.version, activate);
    if b.owner == h && s.local.available && !s.local.held {
      var b' := Activated(b, activate);
      var w := Waiter(Granted(Lease(b'.version, b'.epoch)), false, false);
      assert s'.waiters[serial := w] == s.waiters[serial := w];
      var s1 := s'.(local := s'.local.(held := true));
      assert HandleRequest(h, b, s', r) == GrantTo(h, b, s1, r);
      assert GrantTo(h, b, s1, r) == Confer(h, b', s1, serial);
    }
  }

  lemma RequestKeeps(s: Sys, h: nat, activate: bool)
    requires Inv(s) && Enabled(s, DoRequest(h, activate))
    ensures Inv(Next(s, DoRequest(h, activate)))
  {
    if !s.block.retiring {
      hide RequestsKept, Places, LocalsOk, PacketsOk, WaitersOk, ClaimsOk, UniquePlaces, OneToken, TokenKept, HandleRequest,
           RequestToken, GrantCount, Acknowledged, Travelling, LocalOk;
      var s1 := Issue(s, h);
      var id := RequestId(h, s.next[h]);
      var r := Request(id, s.block.version, activate);
      IssueBase(s, h);
      FreshSerial(s, h);
      assert !GrantedWaiter(s1, id) && !Claimed(s1, id) && InHand(s1, r);
      if !s.overtaken {
        KeptIssue(s.hosts, h, s.next[h], Places(s), Acknowledged(s.net));
        TokenFrame(s, s1);
      }
      HandleRequestKeeps(s1, h, r);
      WritingHeld(s);
      NextRequest(s, h, activate);
    }
  }

  lemma NextRequest(s: Sys, h: nat, activate: bool)
    requires Enabled(s, DoRequest(h, activate)) && !s.block.retiring
    requires s.block.owner < |s.hosts| && (Writing(s.block) ==> s.hosts[s.block.owner].local.held)
    ensures Next(s, DoRequest(h, activate))
         == Apply(Issue(s, h), h,
                  HandleRequest(h, s.block, Issue(s, h).hosts[h], Request(RequestId(h, s.next[h]), s.block.version, activate)))
  {
    hide HandleRequest, RequestToken;
    RequestIsArrival(h, s.block, s.hosts[h], s.next[h], activate);
  }

  lemma WritingHeld(s: Sys)
    requires LocalsOk(s)
    ensures s.block.owner < |s.hosts| && (Writing(s.block) ==> s.hosts[s.block.owner].local.held)
  {
  }

  lemma ClaimKeeps(s: Sys, h: nat, serial: nat)
    requires Inv(s) && Enabled(s, DoClaim(h, serial))
    ensures Inv(Next(s, DoClaim(h, serial)))
  {
    hide Travelling, Acknowledged, GrantCount, Waiting;
    var s' := Next(s, DoClaim(h, serial));
    var id := RequestId(h, serial);
    var c := Claim(id, s.hosts[h].waiters[serial].progress.lease);
    SamePlaces(s, s');
    assert WaiterOk(s, id);
    ClaimBase(s, s', c);
    if !s.overtaken && !s.block.retiring {
      ClaimKept(s.hosts, s'.hosts, h, serial, Places(s), Acknowledged(s.net));
      assert c in s'.claims && Claimed(s', id) && Ticket(s', id);
    }
  }

  lemma ClaimBase(s: Sys, s': Sys, c: Claim)
    requires Base(s) && GrantedWaiter(s, c.id) && c.lease == s.hosts[c.id.host].waiters[c.id.serial].progress.lease
    requires s' == s.(hosts := s.hosts[c.id.host := s.hosts[c.id.host].(waiters := s.hosts[c.id.host].waiters - {c.id.serial})],
                      claims := s.claims + {c})
    ensures Base(s')
  {
    hide Travelling, Acknowledged, GrantCount, Waiting;
    assert WaiterOk(s, RequestId(c.id.host, c.id.serial));
    SamePlaces(s, s');
    forall k | 0 <= k < |s'.hosts| ensures LocalOk(s', k) { assert LocalOk(s, k); }
    forall p | p in s'.net ensures PacketOk(s', p) { assert PacketOk(s, p); }
    assert forall id :: GrantedWaiter(s, id) ==> id == c.id;
    assert forall id :: GrantedWaiter(s', id) ==> GrantedWaiter(s, id) && id != c.id;
    forall k, j | 0 <= k < |s'.hosts| && j in s'.hosts[k].waiters ensures WaiterOk(s', RequestId(k, j)) {
      assert WaiterOk(s, RequestId(k, j)) && !GrantedWaiter(s', RequestId(k, j));
    }
  }

  lemma ClaimKept(hosts: seq<Host>, hosts': seq<Host>, h: nat, k: nat, out: multiset<RequestId>, acks: multiset<RequestId>)
    requires RequestsKept(hosts, out, acks) && h < |hosts| && k in hosts[h].waiters
    requires !hosts[h].waiters[k].progress.Active? && !hosts[h].waiters[k].progress.Cancelling?
    requires hosts' == hosts[h := hosts[h].(waiters := hosts[h].waiters - {k})]
    ensures RequestsKept(hosts', out, acks)
  {
    forall i | i in out ensures WaiterReady(hosts', i) { assert WaiterReady(hosts, i); }
    forall g, j | 0 <= g < |hosts'| && j in hosts'[g].waiters
      ensures WaiterKept(hosts'[g].waiters[j], RequestId(g, j), out, acks)
    {
      assert WaiterKept(hosts[g].waiters[j], RequestId(g, j), out, acks);
    }
  }

  lemma CollectKeeps(s: Sys, h: nat, serial: nat)
    requires Inv(s) && Enabled(s, DoCollect(h, serial))
    ensures Inv(Next(s, DoCollect(h, serial)))
  {
    hide RequestsKept, Places, LocalsOk, PacketsOk, WaitersOk, ClaimsOk, UniquePlaces, OneToken, TokenKept, Acknowledged;
    var s' := Next(s, DoCollect(h, serial));
    EndBase(s, s', h, serial);
    if !s.overtaken && !s.block.retiring {
      ClaimKept(s.hosts, s'.hosts, h, serial, Places(s), Acknowledged(s.net));
      EndToken(s, s', h);
    }
  }

  lemma RetainBase(s: Sys, s': Sys, h: nat, serial: nat)
    requires Base(s) && h < |s.hosts| && serial in s.hosts[h].waiters
    requires s' == s.(hosts := s.hosts[h := s.hosts[h].(waiters := s.hosts[h].waiters[serial := s.hosts[h].waiters[serial].(retain := true)])])
    ensures Base(s') && Places(s') == Places(s)
    ensures forall id :: GrantedWaiter(s', id) <==> GrantedWaiter(s, id)
  {
    hide Travelling, Acknowledged, GrantCount, Waiting;
    SamePlaces(s, s');
    ChangedLocals(s, s', h);
    ChangedPackets(s, s', h, serial);
    hide Places, LocalsOk, PacketsOk;
    assert forall id :: GrantedWaiter(s', id) <==> GrantedWaiter(s, id);
    forall k, j | 0 <= k < |s'.hosts| && j in s'.hosts[k].waiters ensures WaiterOk(s', RequestId(k, j)) {
      assert WaiterOk(s, RequestId(k, j));
    }
  }

  lemma RetainKeeps(s: Sys, h: nat, serial: nat)
    requires Inv(s) && Enabled(s, DoRetain(h, serial))
    ensures Inv(Next(s, DoRetain(h, serial)))
  {
    hide RequestsKept, Places, LocalsOk, PacketsOk, WaitersOk, ClaimsOk, UniquePlaces, OneToken, TokenKept, Acknowledged;
    var s' := Next(s, DoRetain(h, serial));
    RetainBase(s, s', h, serial);
    if !s.overtaken && !s.block.retiring {
      EndToken(s, s', h);
      RetainKept(s.hosts, s'.hosts, h, serial, Places(s), Acknowledged(s.net));
    }
  }

  lemma RetainKept(hosts: seq<Host>, hosts': seq<Host>, h: nat, k: nat, out: multiset<RequestId>, acks: multiset<RequestId>)
    requires RequestsKept(hosts, out, acks) && h < |hosts| && k in hosts[h].waiters
    requires hosts' == hosts[h := hosts[h].(waiters := hosts[h].waiters[k := hosts[h].waiters[k].(retain := true)])]
    ensures RequestsKept(hosts', out, acks)
  {
    forall i | i in out ensures WaiterReady(hosts', i) { assert WaiterReady(hosts, i); }
    forall g, j | 0 <= g < |hosts'| && j in hosts'[g].waiters
      ensures WaiterKept(hosts'[g].waiters[j], RequestId(g, j), out, acks)
    {
      assert WaiterKept(hosts[g].waiters[j], RequestId(g, j), out, acks);
    }
  }

  lemma BeginKeeps(s: Sys, c: Claim)
    requires Inv(s) && Enabled(s, DoBegin(c))
    ensures Inv(Next(s, DoBegin(c)))
  {
    hide Travelling, Acknowledged, GrantCount, Waiting, RequestsKept;
    var s' := Next(s, DoBegin(c));
    assert s'.hosts == s.hosts && s'.net == s.net;
    SamePlaces(s, s');
    hide Places;
    forall k | 0 <= k < |s'.hosts| ensures LocalOk(s', k) { assert LocalOk(s, k); }
    forall p | p in s'.net ensures PacketOk(s', p) { assert PacketOk(s, p); }
    TicketsFrame(s, s');
    if !s.overtaken && !s.block.retiring { TokenFrame(s, s'); }
  }

  /** Publishing a release leaves every packet and queue consistent with the new metadata. */
  lemma CommitFrame(s: Sys, s': Sys, modified: bool)
    requires LocalsOk(s) && PacketsOk(s) && OneToken(s) && s.hosts[s.block.owner].local.held
    requires s'.block == Committed(s.block, modified) && s'.next == s.next && s'.net == s.net && |s'.hosts| == |s.hosts|
    requires forall h :: 0 <= h < |s.hosts| ==> s'.hosts[h].local == s.hosts[h].local
    requires forall h, k :: 0 <= h < |s.hosts| && k in s'.hosts[h].waiters ==>
      k in s.hosts[h].waiters && s'.hosts[h].waiters[k] == s.hosts[h].waiters[k]
    ensures LocalsOk(s') && PacketsOk(s') && OneToken(s') && !Writing(s'.block)
  {
    assert LocalOk(s, s.block.owner);
    NoGrant(s.net);
    hide GrantCount;
    forall k | 0 <= k < |s'.hosts| ensures LocalOk(s', k) { assert LocalOk(s, k); }
    forall p | p in s'.net ensures PacketOk(s', p) { assert PacketOk(s, p); }
  }

  lemma ReleasedClaim(s: Sys, s': Sys, c: Claim, modified: bool)
    requires Base(s) && c in s.claims
    requires s' == s.(block := Committed(s.block, modified), claims := s.claims - {c})
    ensures Unleased(s', c.id.host) && Places(s') == Places(s)
  {
    hide Travelling, Acknowledged, GrantCount, Waiting;
    assert LocalOk(s, s.block.owner);
    SamePlaces(s, s');
    CommitFrame(s, s', modified);
    hide Places, LocalsOk, PacketsOk;
    forall k, j | 0 <= k < |s'.hosts| && j in s'.hosts[k].waiters
      ensures WaiterOk(s', RequestId(k, j)) && !s'.hosts[k].waiters[j].progress.Granted?
    {
      assert WaiterOk(s, RequestId(k, j));
    }
    assert s'.claims == {};
  }

  lemma ReleasedWaiter(s: Sys, s': Sys, h: nat, serial: nat)
    requires Base(s) && GrantedWaiter(s, RequestId(h, serial))
    requires s' == WithHost(s, h, Committed(s.block, false), s.hosts[h].(waiters := s.hosts[h].waiters - {serial}))
    ensures Unleased(s', h) && Places(s') == Places(s)
    ensures s.hosts[h].waiters[serial].progress.lease == Lease(s.block.version, s.block.epoch)
  {
    hide Travelling, Acknowledged, GrantCount, Waiting;
    assert WaiterOk(s, RequestId(h, serial)) && LocalOk(s, h);
    SamePlaces(s, s');
    CommitFrame(s, s', false);
    hide Places, LocalsOk, PacketsOk;
    assert forall id :: GrantedWaiter(s, id) ==> id == RequestId(h, serial);
    assert forall id :: GrantedWaiter(s', id) ==> GrantedWaiter(s, id) && id != RequestId(h, serial);
    forall k, j | 0 <= k < |s'.hosts| && j in s'.hosts[k].waiters ensures WaiterOk(s', RequestId(k, j)) {
      assert WaiterOk(s, RequestId(k, j)) && !GrantedWaiter(s', RequestId(k, j));
    }
  }

  /** A release while the object is retiring frees the block and drops its queue. */
  lemma RetiringHandoff(s: Sys, h: nat)
    requires Unleased(s, h) && s.block.retiring
    ensures Inv(Apply(s, h, Handoff(h, s.block, s.hosts[h])))
  {
    hide Travelling, Acknowledged, GrantCount, GrantTo;
    var s' := Apply(s, h, Handoff(h, s.block, s.hosts[h]));
    assert s' == WithHost(s, h, s.block, s.hosts[h].(local := s.hosts[h].local.(held := false, pending := [])));
    assert Places(s) == Places(s') + Waiting(s.hosts[h].local.pending);
    hide Waiting;
    forall id ensures Places(s')[id] <= 1 { assert Places(s)[id] <= 1; }
    hide Places;
    forall k | 0 <= k < |s'.hosts| ensures LocalOk(s', k) { assert LocalOk(s, k); }
    forall m | m in s'.net ensures PacketOk(s', m) { assert PacketOk(s, m); }
    forall k, j | 0 <= k < |s'.hosts| && j in s'.hosts[k].waiters ensures WaiterOk(s', RequestId(k, j)) {
      assert WaiterOk(s, RequestId(k, j)) && !GrantedWaiter(s, RequestId(k, j));
    }
    assert forall id :: GrantedWaiter(s', id) ==> GrantedWaiter(s, id);
  }

  lemma UnleasedHandoff(s: Sys, h: nat)
    requires Unleased(s, h) && Kept(s, Places(s))
    ensures Inv(Apply(s, h, Handoff(h, s.block, s.hosts[h])))
  {
    hide RequestsKept, Places, Base, Handoff, Acknowledged;
    if s.block.retiring { RetiringHandoff(s, h); } else { HandoffKeeps(s, h); }
  }

  lemma ReleaseKeeps(s: Sys, c: Claim, modified: bool)
    requires Inv(s) && Enabled(s, DoRelease(c, modified))
    ensures Inv(Next(s, DoRelease(c, modified)))
    ensures Accepts(c.id.host, s.block, s.hosts[c.id.host], c.lease, modified) <==> (modified ==> Writing(s.block))
  {
    var h := c.id.host;
    if modified ==> Writing(s.block) {
      hide RequestsKept, Places, LocalsOk, PacketsOk, WaitersOk, UniquePlaces, OneToken, TokenKept, Handoff, Acknowledged;
      var s1 := s.(block := Committed(s.block, modified), claims := s.claims - {c});
      ReleasedClaim(s, s1, c, modified);
      UnleasedHandoff(s1, h);
      assert Next(s, DoRelease(c, modified)) == Apply(s1, h, Handoff(h, s1.block, s1.hosts[h]));
    } else {
      assert Next(s, DoRelease(c, modified)) == s;
    }
  }

  lemma CancelGrantedKeeps(s: Sys, h: nat, serial: nat)
    requires Inv(s) && GrantedWaiter(s, RequestId(h, serial))
    ensures Inv(Apply(s, h, CancelRequest(h, s.block, s.hosts[h], serial)))
  {
    hide RequestsKept, Places, LocalsOk, PacketsOk, ClaimsOk, UniquePlaces, OneToken, TokenKept, Handoff, Acknowledged;
    var gone := s.hosts[h].(waiters := s.hosts[h].waiters - {serial});
    var s1 := WithHost(s, h, Committed(s.block, false), gone);
    assert WaiterOk(s, RequestId(h, serial));
    ReleasedWaiter(s, s1, h, serial);
    if !s.overtaken && !s.block.retiring {
      ClaimKept(s.hosts, s1.hosts, h, serial, Places(s), Acknowledged(s.net));
    }
    UnleasedHandoff(s1, h);
    var o := CancelRequest(h, s.block, s.hosts[h], serial);
    assert o == Handoff(h, s1.block, gone);
    assert Apply(s, h, o) == Apply(s1, h, o);
  }

  lemma KeptMark(hosts: seq<Host>, hosts': seq<Host>, h: nat, k: nat, out: multiset<RequestId>, acks: multiset<RequestId>)
    requires RequestsKept(hosts, out, acks) && h < |hosts| && k in hosts[h].waiters
    requires hosts[h].waiters[k].progress.Active? || hosts[h].waiters[k].progress.Cancelling?
    requires hosts' == hosts[h := hosts[h].(waiters :=
      hosts[h].waiters[k := hosts[h].waiters[k].(progress := Cancelling, abandoned := true)])]
    ensures RequestsKept(hosts', out, acks)
  {
    forall i | i in out ensures WaiterReady(hosts', i) { assert WaiterReady(hosts, i); }
    forall g, j | 0 <= g < |hosts'| && j in hosts'[g].waiters
      ensures WaiterKept(hosts'[g].waiters[j], RequestId(g, j), out, acks)
    {
      assert WaiterKept(hosts[g].waiters[j], RequestId(g, j), out, acks);
    }
  }

  lemma CancelKeeps(s: Sys, h: nat, serial: nat)
    requires Inv(s) && Enabled(s, DoCancel(h, serial))
    ensures Inv(Next(s, DoCancel(h, serial)))
  {
    hide RequestsKept, Places, LocalsOk, PacketsOk, ClaimsOk, UniquePlaces, OneToken, TokenKept, Acknowledged, HandleCancel, Release;
    if serial !in s.hosts[h].waiters {
      assert Next(s, DoCancel(h, serial)) == s;
    } else if s.hosts[h].waiters[serial].progress.Granted? {
      CancelGrantedKeeps(s, h, serial);
    } else if s.block.retiring || s.hosts[h].waiters[serial].progress.Rejected? || s.hosts[h].waiters[serial].progress.Cancelled? {
      var s' := WithHost(s, h, s.block, s.hosts[h].(waiters := s.hosts[h].waiters - {serial}));
      assert Next(s, DoCancel(h, serial)) == s';
      EndBase(s, s', h, serial);
      if !s.overtaken && !s.block.retiring {
        ClaimKept(s.hosts, s'.hosts, h, serial, Places(s), Acknowledged(s.net));
        EndToken(s, s', h);
      }
    } else {
      var marked := s.hosts[h].(waiters :=
        s.hosts[h].waiters[serial := s.hosts[h].waiters[serial].(progress := Cancelling, abandoned := true)]);
      var s1 := WithHost(s, h, s.block, marked);
      assert WaiterOk(s, RequestId(h, serial));
      EndBase(s, s1, h, serial);
      if !s.overtaken {
        KeptMark(s.hosts, s1.hosts, h, serial, Places(s), Acknowledged(s.net));
        EndToken(s, s1, h);
      }
      WritingHeld(s);
      if s.block.owner != h {
        SendCancelKeeps(s1, Next(s, DoCancel(h, serial)), Cancel(s.block.owner, RequestId(h, serial)));
      } else {
        HandleCancelKeeps(s1, h, RequestId(h, serial));
        assert Next(s, DoCancel(h, serial)) == Apply(s1, h, HandleCancel(h, s.block, marked, RequestId(h, serial)));
      }
    }
  }

  lemma RetireKeeps(s: Sys)
    requires Inv(s)
    ensures Inv(s.(block := s.block.(retiring := true)))
  {
    hide Travelling, Acknowledged, GrantCount, Waiting, WaitersOk, ClaimsOk;
    var s' := s.(block := s.block.(retiring := true));
    SamePlaces(s, s');
    TicketsFrame(s, s');
    forall k | 0 <= k < |s'.hosts| ensures LocalOk(s', k) { assert LocalOk(s, k); }
    forall p | p in s'.net ensures PacketOk(s', p) { assert PacketOk(s, p); }
  }

  lemma ClosePlaces(s: Sys, s': Sys, h: nat)
    requires h < |s.hosts| && s' == WithHost(s, h, s.block, Host(s.hosts[h].local.(pending := []), map[]))
    ensures forall id :: Places(s')[id] <= Places(s)[id]
  {
    hide Travelling;
  }

  /** Local closure without an unclaimed lease: the waiters and the queue go. */
  lemma CloseQuiet(s: Sys, s': Sys, h: nat)
    requires Base(s) && h < |s.hosts| && s.block.retiring
    requires forall k :: k in s.hosts[h].waiters ==> !s.hosts[h].waiters[k].progress.Granted?
    requires s' == WithHost(s, h, s.block, Host(s.hosts[h].local.(pending := []), map[]))
    ensures Inv(s')
  {
    hide Travelling, Acknowledged, GrantCount, Places, RequestsKept, TokenKept;
    ClosePlaces(s, s', h);
    forall id ensures Places(s')[id] <= 1 { assert Places(s')[id] <= Places(s)[id] <= 1; }
    assert forall id :: id in Places(s') ==> id in Places(s);
    forall k | 0 <= k < |s'.hosts| ensures LocalOk(s', k) { assert LocalOk(s, k); }
    forall p | p in s'.net ensures PacketOk(s', p) { assert PacketOk(s, p); }
    assert forall id :: GrantedWaiter(s', id) ==> GrantedWaiter(s, id);
    forall k, j | 0 <= k < |s'.hosts| && j in s'.hosts[k].waiters ensures WaiterOk(s', RequestId(k, j)) {
      assert WaiterOk(s, RequestId(k, j));
    }
  }

  lemma CloseKeeps(s: Sys, h: nat)
    requires Inv(s) && Enabled(s, DoClose(h))
    ensures Inv(Next(s, DoClose(h)))
  {
    hide RequestsKept, Places, LocalsOk, PacketsOk, WaitersOk, ClaimsOk, UniquePlaces, OneToken, TokenKept, GrantTo;
    var s' := Next(s, DoClose(h));
    if exists k :: k in s.hosts[h].waiters && s.hosts[h].waiters[k].progress.Granted? {
      var k :| k in s.hosts[h].waiters && s.hosts[h].waiters[k].progress.Granted?;
      var s1 := WithHost(s, h, Committed(s.block, false), s.hosts[h].(waiters := s.hosts[h].waiters - {k}));
      ReleasedWaiter(s, s1, h, k);
      RetiringHandoff(s1, h);
      var s2 := Apply(s1, h, Handoff(h, s1.block, s1.hosts[h]));
      assert s2.hosts[h].local == s.hosts[h].local.(held := false, pending := []);
      forall j | j in s2.hosts[h].waiters ensures !s2.hosts[h].waiters[j].progress.Granted? {
        assert !GrantedWaiter(s1, RequestId(h, j));
      }
      CloseQuiet(s2, s', h);
    } else {
      CloseQuiet(s, s', h);
    }
  }

  // ------------------------------------------------------------------ theorems

  lemma InitInv(n: nat, owner: nat)
    requires owner < n
    ensures Inv(Init(n, owner))
  {
    var s := Init(n, owner);
    assert forall id :: !GrantedWaiter(s, id);
    assert Places(s) == multiset{};
    forall h | 0 <= h < |s.hosts| ensures LocalOk(s, h) {}
  }

  lemma StepKeeps(s: Sys, a: Action)
    requires Inv(s) && Enabled(s, a)
    ensures Inv(Next(s, a))
  {
    hide Inv, Handle, RequestToken, Release, CancelRequest, BeginWriteback, Closed;
    match a
    case DoRequest(h, activate) => RequestKeeps(s, h, activate);
    case DoDeliver(i) => DeliverKeeps(s, i);
    case DoClaim(h, serial) => ClaimKeeps(s, h, serial);
    case DoCollect(h, serial) => CollectKeeps(s, h, serial);
    case DoBegin(c) => BeginKeeps(s, c);
    case DoRelease(c, modified) => ReleaseKeeps(s, c, modified);
    case DoRetain(h, serial) => RetainKeeps(s, h, serial);
    case DoCancel(h, serial) => CancelKeeps(s, h, serial);
    case DoRetire => RetireKeeps(s);
    case DoClose(h) => CloseKeeps(s, h);
  }

  /** A run: the state after each action, every action enabled where it is taken. */
  ghost predicate Run(run: seq<Sys>, actions: seq<Action>) {
    && |run| == |actions| + 1
    && (forall i :: 0 <= i < |actions| ==> Enabled(run[i], actions[i]) && run[i + 1] == Next(run[i], actions[i]))
  }

  lemma {:induction false} RunKeeps(run: seq<Sys>, actions: seq<Action>, n: nat, owner: nat, i: nat)
    requires owner < n && Run(run, actions) && run[0] == Init(n, owner) && i < |run|
    ensures Inv(run[i])
  {
    hide Inv, Next, Enabled, Init;
    if i == 0 {
      InitInv(n, owner);
    } else {
      RunKeeps(run, actions, n, owner, i - 1);
      StepKeeps(run[i - 1], actions[i - 1]);
    }
  }

  /** In every reachable state one host at most holds the block, and one lease at most is out. */
  lemma SingleWriter(run: seq<Sys>, actions: seq<Action>, n: nat, owner: nat, i: nat)
    requires owner < n && Run(run, actions) && run[0] == Init(n, owner) && i < |run|
    ensures var s := run[i];
      && |s.hosts| == n && s.block.owner < n
      && (forall h :: 0 <= h < n && s.hosts[h].local.held ==> h == s.block.owner)
      && (forall id, id' :: Ticket(s, id) && Ticket(s, id') ==> id == id')
      && (forall id :: Ticket(s, id) ==> id.host == s.block.owner && s.hosts[id.host].local.held)
      && (forall c :: c in s.claims ==> c.lease == Lease(s.block.version, s.block.epoch))
      && (Writing(s.block) ==> s.hosts[s.block.owner].local.held)
  {
    RunKeeps(run, actions, n, owner, i);
    HostCount(run, actions, i);
    InvSingleWriter(run[i]);
  }

  lemma {:induction false} HostCount(run: seq<Sys>, actions: seq<Action>, i: nat)
    requires Run(run, actions) && i < |run|
    ensures |run[i].hosts| == |run[0].hosts|
  {
    if i > 0 {
      HostCount(run, actions, i - 1);
      StepHosts(run[i - 1], actions[i - 1]);
    }
  }

  lemma StepHosts(s: Sys, a: Action)
    requires Enabled(s, a)
    ensures |Next(s, a).hosts| == |s.hosts|
  {
    hide Handle, RequestToken, Release, CancelRequest, BeginWriteback, Closed;
  }

  lemma InvSingleWriter(s: Sys)
    requires Inv(s)
    ensures forall h :: 0 <= h < |s.hosts| && s.hosts[h].local.held ==> h == s.block.owner
    ensures forall id, id' :: Ticket(s, id) && Ticket(s, id') ==> id == id'
    ensures forall id :: Ticket(s, id) ==> id.host == s.block.owner && s.hosts[id.host].local.held
    ensures forall c :: c in s.claims ==> c.lease == Lease(s.block.version, s.block.epoch)
    ensures s.block.owner < |s.hosts| && (Writing(s.block) ==> s.hosts[s.block.owner].local.held)
  {
    hide Places, GrantCount, RequestsKept, TokenKept;
    forall h | 0 <= h < |s.hosts| ensures s.hosts[h].local.held ==> h == s.block.owner { assert LocalOk(s, h); }
    forall id | GrantedWaiter(s, id) ensures WaiterOk(s, RequestId(id.host, id.serial)) {}
  }

  /** Short of an overtaken cancellation, the token is with the owner or in one matching grant. */
  lemma ExactlyOneToken(run: seq<Sys>, actions: seq<Action>, n: nat, owner: nat, i: nat)
    requires owner < n && Run(run, actions) && run[0] == Init(n, owner) && i < |run|
    requires !run[i].overtaken && !run[i].block.retiring
    ensures var s := run[i];
      && s.block.owner < |s.hosts|
      && (s.hosts[s.block.owner].local.available <==> GrantCount(s.net) == 0)
      && (!s.hosts[s.block.owner].local.available <==> GrantCount(s.net) == 1)
      && (forall m :: m in s.net && m.Grant? ==>
            m.to == s.block.owner == m.granted.host && m.epoch == s.block.epoch && m.version == s.block.version)
      && (s.hosts[s.block.owner].local.held <==> exists id :: Ticket(s, id))
  {
    RunKeeps(run, actions, n, owner, i);
    InvSingleWriter(run[i]);
    forall m | m in run[i].net ensures PacketOk(run[i], m) {}
  }

  /** Every waiting request is in exactly one place, and nothing is queued without a reason. */
  lemma RequestConservation(run: seq<Sys>, actions: seq<Action>, n: nat, owner: nat, i: nat)
    requires owner < n && Run(run, actions) && run[0] == Init(n, owner) && i < |run|
    requires !run[i].overtaken && !run[i].block.retiring
    ensures var s := run[i];
      && (forall h, k :: 0 <= h < |s.hosts| && k in s.hosts[h].waiters && s.hosts[h].waiters[k].progress.Active? ==>
            Places(s)[RequestId(h, k)] == 1)
      && (forall id :: id in Places(s) ==> Places(s)[id] == 1 && WaiterReady(s.hosts, id) && !Ticket(s, id))
      && (forall h :: 0 <= h < |s.hosts| && s.hosts[h].local.pending != [] ==>
            h == s.block.owner && (s.hosts[h].local.held || GrantCount(s.net) == 1))
  {
    hide Places, GrantCount;
    RunKeeps(run, actions, n, owner, i);
    var s := run[i];
    forall h, k | 0 <= h < |s.hosts| && k in s.hosts[h].waiters && s.hosts[h].waiters[k].progress.Active?
      ensures Places(s)[RequestId(h, k)] == 1
    {
      assert WaiterKept(s.hosts[h].waiters[k], RequestId(h, k), Places(s), Acknowledged(s.net));
    }
    forall id | id in Places(s) ensures !Ticket(s, id) {
      if id.host < |s.hosts| && id.serial in s.hosts[id.host].waiters { assert WaiterOk(s, RequestId(id.host, id.serial)); }
    }
    forall h | 0 <= h < |s.hosts| && s.hosts[h].local.pending != []
      ensures h == s.block.owner && (s.hosts[h].local.held || GrantCount(s.net) == 1)
    {
      assert LocalOk(s, h);
    }
  }

  /** No handler of such a run reports an error: every grant finds its waiter and matches. */
  lemma HandlersSucceed(run: seq<Sys>, actions: seq<Action>, n: nat, owner: nat, i: nat)
    requires owner < n && Run(run, actions) && run[0] == Init(n, owner)
    requires i < |actions| && actions[i].DoDeliver? && !run[i].overtaken
    ensures var m := run[i].net[actions[i].index];
      Handle(m.to, run[i].block, run[i].hosts[m.to], m).status.Ok?
  {
    hide Inv, Next, Init, Handle;
    RunKeeps(run, actions, n, owner, i);
    assert actions[i] == DoDeliver(actions[i].index);
    DeliverKeeps(run[i], actions[i].index);
  }

  /** Metadata only moves forward: an owner change takes a new epoch. */
  predicate Ahead(b: Block, b': Block, versions: nat) {
    && b'.epoch >= b.epoch && (b'.owner != b.owner ==> b'.epoch > b.epoch)
    && b'.version == b.version + versions
  }

  lemma GrantAhead(h: nat, b: Block, s: Host, r: Request)
    ensures Ahead(b, GrantTo(h, b, s, r).block, 0)
    decreases |s.local.pending|, 3
  {
    if !b.retiring && r.id.host == h && r.id.serial in s.waiters && !(r.activate && Writing(b)) {
      ConferAhead(h, Activated(b, r.activate), s, r.id.serial);
    }
  }

  lemma ConferAhead(h: nat, b: Block, s: Host, serial: nat)
    requires serial in s.waiters
    ensures Ahead(b, Confer(h, b, s, serial).block, 0)
    decreases |s.local.pending|, 2
  {
    if s.waiters[serial].abandoned {
      ReleaseAhead(h, b, TakeToken(s).(waiters := Discard(s.waiters, serial)), Lease(b.version, b.epoch), false);
    }
  }

  lemma ReleaseAhead(h: nat, b: Block, s: Host, lease: Lease, modified: bool)
    ensures Ahead(b, Release(h, b, s, lease, modified).block, if modified && Accepts(h, b, s, lease, modified) then 1 else 0)
    decreases |s.local.pending|, 1
  {
    if Accepts(h, b, s, lease, modified) { HandoffAhead(h, Committed(b, modified), s); }
  }

  lemma HandoffAhead(h: nat, b: Block, s: Host)
    ensures Ahead(b, Handoff(h, b, s).block, 0)
    decreases |s.local.pending|, 0
  {
    if !b.retiring && s.local.pending != [] {
      GrantAhead(h, b, s.(local := s.local.(pending := s.local.pending[1..])), s.local.pending[0]);
    }
  }

  lemma HandleAhead(h: nat, b: Block, s: Host, m: Message)
    ensures Ahead(b, Handle(h, b, s, m).block, 0)
  {
    hide GrantTo, Confer;
    match m
    case Req(_, r) => GrantAhead(h, b, s.(local := s.local.(held := true)), r);
    case Grant(_, id, _, _, activate) =>
      if id.serial in s.waiters { ConferAhead(h, Activated(b, activate), s, id.serial); }
    case _ =>
  }

  lemma CancelAhead(h: nat, b: Block, s: Host, serial: nat)
    ensures Ahead(b, CancelRequest(h, b, s, serial).block, 0)
  {
    hide Release;
    if serial in s.waiters && s.waiters[serial].progress.Granted? {
      ReleaseAhead(h, b, s.(waiters := s.waiters - {serial}), s.waiters[serial].progress.lease, false);
    }
  }

  /** One step: the version rises by one exactly on a modified release, owners change with the epoch. */
  lemma StepMetadata(s: Sys, a: Action)
    requires Inv(s) && Enabled(s, a)
    ensures Ahead(s.block, Next(s, a).block, if a.DoRelease? && a.modified && Writing(s.block) then 1 else 0)
  {
    hide Inv, Release, Handle, CancelRequest;
    match a
    case DoDeliver(i) => HandleAhead(s.net[i].to, s.block, s.hosts[s.net[i].to], s.net[i]);
    case DoRelease(c, modified) =>
      ReleaseAhead(c.id.host, s.block, s.hosts[c.id.host], c.lease, modified);
      ReleaseKeeps(s, c, modified);
    case DoCancel(h, serial) => CancelAhead(h, s.block, s.hosts[h], serial);
    case _ =>
  }

  lemma {:induction false} EpochsGrow(run: seq<Sys>, actions: seq<Action>, n: nat, owner: nat, i: nat, j: nat)
    requires owner < n && Run(run, actions) && run[0] == Init(n, owner) && i <= j < |run|
    ensures run[i].block.epoch <= run[j].block.epoch && run[i].block.version <= run[j].block.version
    ensures run[i].block.owner != run[j].block.owner ==> run[i].block.epoch < run[j].block.epoch
    decreases j
  {
    hide Inv, Next, Enabled, Init;
    if i < j {
      EpochsGrow(run, actions, n, owner, i, j - 1);
      RunKeeps(run, actions, n, owner, j - 1);
      StepMetadata(run[j - 1], actions[j - 1]);
    }
  }

  /** A lease from before any transfer is rejected for good, on every host and without effect. */
  lemma StaleLeaseRejected(run: seq<Sys>, actions: seq<Action>, n: nat, owner: nat, i: nat, t: nat, j: nat, c: Claim, h: nat, modified: bool)
    requires owner < n && Run(run, actions) && run[0] == Init(n, owner)
    requires i <= t < j < |run| && c in run[i].claims
    requires run[t].block.owner != run[t + 1].block.owner
    requires h < |run[j].hosts|
    ensures Release(h, run[j].block, run[j].hosts[h], c.lease, modified)
         == Unchanged(run[j].block, run[j].hosts[h], FailedPrecondition)
    ensures BeginWriteback(h, run[j].block, run[j].hosts[h], c.lease)
         == Unchanged(run[j].block, run[j].hosts[h], FailedPrecondition)
  {
    hide Inv, Next, Enabled, Init, Handoff;
    EpochsGrow(run, actions, n, owner, i, t);
    EpochsGrow(run, actions, n, owner, t, t + 1);
    EpochsGrow(run, actions, n, owner, t + 1, j);
    SingleWriter(run, actions, n, owner, i);
  }
}
