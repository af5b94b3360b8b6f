/**
 What one call of the token service gives its caller: when it succeeds, what a lease is good for,
 where a request goes next, and what a refusal leaves alone. Every law speaks of fields and
 messages only.
 */
module TokenLaws {
  import opened TokenSpec

  // ------------------------------------------------------------------ writing

  /** A writeback is opened for a current, held lease with no open writeback, and leaves an odd epoch. */
  lemma BeginOpens(h: nat, b: Block, s: Host, lease: Lease)
    ensures var o := BeginWriteback(h, b, s, lease);
      && o.host == s && o.sent == []
      && o.status == (if b.owner == h && b.epoch == lease.epoch && s.local.held && b.writeback % 2 == 0 then Ok else FailedPrecondition)
      && o.block == (if o.status == Ok then b.(writeback := b.writeback + 1) else b)
      && (o.status == Ok ==> o.block.writeback % 2 == 1)
  { }

  /** An owner that holds the block and has nobody waiting: what its release publishes. */
  lemma ReleaseAlone(h: nat, b: Block, s: Host, lease: Lease, modified: bool)
    requires b.owner == h && b.epoch == lease.epoch && s.local.held && s.local.pending == []
    ensures var o := Release(h, b, s, lease, modified);
      if modified && b.writeback % 2 == 0 then o == Outcome(b, s, [], FailedPrecondition)
      else
        && o.status == Ok && o.sent == [] && o.host == s.(local := Local(s.local.available, false, []))
        && o.block.version == b.version + (if modified then 1 else 0)
        && o.block.writeback == b.writeback + b.writeback % 2 && o.block.writeback % 2 == 0
        && o.block.owner == h && o.block.epoch == b.epoch && o.block.retiring == b.retiring
  {
    OddNext(b.writeback);
  }

  lemma OddNext(n: nat)
    ensures (n + n % 2) % 2 == 0 && (n % 2 == 0 || n % 2 == 1)
    ensures n % 2 == 0 ==> (n + 1) % 2 == 1
  { }

  /** A release by anybody else, or under an old lease, does nothing. */
  lemma ReleaseRefused(h: nat, b: Block, s: Host, lease: Lease, modified: bool)
    requires b.owner != h || b.epoch != lease.epoch || !s.local.held
    ensures Release(h, b, s, lease, modified) == Outcome(b, s, [], FailedPrecondition)
  { }

  /** A whole writeback by an owner nobody waits for: both calls succeed, the version rises by one. */
  lemma WritebackRound(h: nat, b: Block, s: Host, lease: Lease)
    requires b.owner == h && b.epoch == lease.epoch && s.local.held && s.local.pending == [] && b.writeback % 2 == 0
    ensures var begun := BeginWriteback(h, b, s, lease);
      var o := Release(h, begun.block, begun.host, lease, true);
      && begun.status == Ok && begun.block.writeback % 2 == 1 && o.status == Ok
      && o.block == b.(version := b.version + 1, writeback := b.writeback + 2)
      && o.host == s.(local := s.local.(held := false))
  {
    BeginOpens(h, b, s, lease);
    ReleaseAlone(h, b.(writeback := b.writeback + 1), s, lease, true);
  }

  // ------------------------------------------------------------------ granting

  /** The waiter has a current lease, its host holds the block, and the writeback is open exactly if asked for. */
  predicate Leased(h: nat, b: Block, s: Host, serial: nat, activate: bool, o: Outcome) {
    && o.status == Ok && o.sent == []
    && o.block == (if activate then b.(writeback := b.writeback + 1) else b)
    && (activate ==> o.block.writeback % 2 == 1)
    && o.host.local == s.local.(available := true, held := true)
    && serial in o.host.waiters && o.host.waiters[serial].progress == Granted(Lease(b.version, b.epoch))
    && (serial in s.waiters ==> o.host.waiters[serial].abandoned == s.waiters[serial].abandoned && o.host.waiters[serial].retain == s.waiters[serial].retain)
    && o.host.waiters - {serial} == s.waiters - {serial}
  }

  /** A request to the idle owner itself is granted on the spot. */
  lemma GrantedOnTheSpot(h: nat, b: Block, s: Host, serial: nat, activate: bool)
    requires !b.retiring && b.owner == h && s.local.available && !s.local.held && (activate ==> b.writeback % 2 == 0)
    ensures Leased(h, b, s.(waiters := s.waiters - {serial}), serial, activate, RequestToken(h, b, s, serial, activate))
    ensures var w := RequestToken(h, b, s, serial, activate).host.waiters[serial]; !w.abandoned && !w.retain
  { }

  /** So is a local waiter picked from the queue or from a late request. */
  lemma GrantedLocally(h: nat, b: Block, s: Host, r: Request)
    requires !b.retiring && r.id.host == h && r.id.serial in s.waiters && !s.waiters[r.id.serial].abandoned
    requires r.activate ==> b.writeback % 2 == 0
    ensures Leased(h, b, s, r.id.serial, r.activate, GrantTo(h, b, s, r))
  { }

  /** And a waiter whose grant arrives in a packet that matches the metadata. */
  lemma GrantedByPacket(h: nat, b: Block, s: Host, serial: nat, version: nat, epoch: nat, activate: bool)
    requires b.owner == h && b.epoch == epoch && b.version == version && (activate ==> b.writeback % 2 == 0)
    requires serial in s.waiters && !s.waiters[serial].abandoned
    ensures Leased(h, b, s, serial, activate, HandleGrant(h, b, s, serial, version, epoch, activate))
  { }

  /** An abandoned waiter with nobody behind it: it is decided, and the token stays free. */
  lemma GrantedTooLate(h: nat, b: Block, s: Host, serial: nat, activate: bool)
    requires !b.retiring && b.owner == h && b.writeback % 2 == 0 && s.local.pending == []
    requires serial in s.waiters && s.waiters[serial].abandoned
    ensures var o := HandleGrant(h, b, s, serial, b.version, b.epoch, activate);
      && o.status == Ok && o.sent == [] && o.host.local == Local(true, false, [])
      && o.block == (if activate then b.(writeback := b.writeback + 2) else b)
      && o.host.waiters - {serial} == s.waiters - {serial}
      && (serial in o.host.waiters <==> s.waiters[serial].retain)
      && (serial in o.host.waiters ==> o.host.waiters[serial].progress.Cancelled?)
  {
    var b' := if activate then b.(writeback := b.writeback + 1) else b;
    var lease := Lease(b'.version, b'.epoch);
    var t := s.(local := s.local.(available := true, held := true));
    var gone := if s.waiters[serial].retain then s.waiters[serial := s.waiters[serial].(progress := Cancelled)] else s.waiters - {serial};
    assert HandleGrant(h, b, s, serial, b.version, b.epoch, activate) == Release(h, b', t.(waiters := gone), lease, false);
    ReleaseAlone(h, b', t.(waiters := gone), lease, false);
  }

  /** Nobody is granted a block of a retiring object, and the token is set free; a local request without a waiter gets nothing. */
  lemma GrantWithheld(h: nat, b: Block, s: Host, r: Request)
    ensures b.retiring ==> GrantTo(h, b, s, r) == Outcome(b, s.(local := Local(s.local.available, false, s.local.pending)), [], Ok)
    ensures !b.retiring && r.id.host == h && r.id.serial !in s.waiters ==> GrantTo(h, b, s, r) == Outcome(b, s, [], NotFound)
    ensures !b.retiring && r.id.host == h && r.id.serial in s.waiters && r.activate && b.writeback % 2 == 1 ==>
      GrantTo(h, b, s, r) == Outcome(b, s, [], FailedPrecondition)
  { }

  /** A grant that does not match, or finds no waiter or an open writeback, changes nothing. */
  lemma GrantRefused(h: nat, b: Block, s: Host, serial: nat, version: nat, epoch: nat, activate: bool)
    ensures var o := HandleGrant(h, b, s, serial, version, epoch, activate);
      var matches := b.owner == h && b.epoch == epoch && b.version == version;
      && (!matches ==> o == Outcome(b, s, [], FailedPrecondition))
      && (matches && serial !in s.waiters ==> o == Outcome(b, s, [], NotFound))
      && (matches && serial in s.waiters && activate && b.writeback % 2 == 1 ==> o == Outcome(b, s, [], FailedPrecondition))
  { }

  // ------------------------------------------------------------------ asking and queueing

  /** The request and the new waiter of a caller that does not get the token at once. */
  lemma Asked(h: nat, b: Block, s: Host, serial: nat, activate: bool)
    ensures var o := RequestToken(h, b, s, serial, activate);
      var r := Request(RequestId(h, serial), b.version, activate);
      && (b.retiring ==> o == Outcome(b, s, [], FailedPrecondition))
      && (!b.retiring && (b.owner != h || !s.local.available || s.local.held) ==>
            && o.status == Ok && o.block == b
            && o.host.waiters == s.waiters[serial := Waiter(Active, false, false)]
            && o.sent == (if b.owner != h then [Req(b.owner, r)] else [])
            && o.host.local == (if b.owner != h then s.local else s.local.(pending := s.local.pending + [r])))
      && (!b.retiring && b.owner == h && s.local.available && !s.local.held && activate && b.writeback % 2 == 1 ==>
            o == Outcome(b, s.(waiters := s.waiters - {serial}), [], FailedPrecondition))
  { }

  /** A host that is not the owner passes a request on; an owner in use queues it last. */
  lemma RequestRouted(h: nat, b: Block, s: Host, r: Request)
    requires r.observed <= b.version
    ensures var o := HandleRequest(h, b, s, r);
      && (b.owner != h ==> o == Outcome(b, s, [Req(b.owner, r)], Ok))
      && (b.owner == h && (!s.local.available || s.local.held) ==>
            o == Outcome(b, s.(local := s.local.(pending := s.local.pending + [r])), [], Ok))
  { }

  /** An idle owner gives the token to a remote requester with a new epoch and keeps nothing. */
  lemma TokenSent(h: nat, b: Block, s: Host, r: Request)
    requires !b.retiring && b.owner == h && r.observed <= b.version && s.local == Local(true, false, []) && r.id.host != h
    ensures var o := HandleRequest(h, b, s, r);
      && o.status == Ok && o.host == s.(local := Local(false, false, []))
      && o.block == b.(owner := r.id.host, epoch := b.epoch + 1)
      && o.sent == [Grant(r.id.host, r.id, b.version, b.epoch + 1, r.activate)]
  { }

  /** A request by somebody who has seen a newer version than the block has is refused. */
  lemma RequestRefused(h: nat, b: Block, s: Host, r: Request)
    requires r.observed > b.version
    ensures var o := HandleRequest(h, b, s, r);
      && o.block == b && o.status == Ok && o.host.local == s.local
      && (r.id.host != h ==> o.host == s && o.sent == [Reject(r.id.host, r.id)])
      && (r.id.host == h ==> o.sent == [] && Decided(s, o.host, r.id.serial, Rejected))
  { }

  /** The waiter, if it was undecided, is decided as given, or gone when nobody will collect it. */
  predicate Decided(s: Host, s': Host, serial: nat, how: Progress) {
    && s'.local == s.local && s'.waiters - {serial} == s.waiters - {serial}
    && (serial !in s.waiters ==> serial !in s'.waiters)
    && (serial in s.waiters ==>
          var w := s.waiters[serial];
          if w.progress.Granted? then serial in s'.waiters && s'.waiters[serial] == w
          else if w.abandoned && !w.retain then serial !in s'.waiters
          else
            && serial in s'.waiters
            && s'.waiters[serial] == Waiter(if w.progress.Cancelling? then Cancelled else how, w.abandoned, w.retain))
  }

  lemma RejectDecides(s: Host, serial: nat)
    ensures Decided(s, HandleReject(s, serial), serial, Rejected)
  {
    assert HandleReject(s, serial).waiters - {serial} == s.waiters - {serial};
  }

  // ------------------------------------------------------------------ serving the queue in order

  /** A release with a remote request at the head of the queue: the grant goes first, then the rest, in their order. */
  lemma QueueSent(h: nat, b: Block, s: Host, lease: Lease, modified: bool)
    requires b.owner == h && b.epoch == lease.epoch && s.local.held && !b.retiring && (modified ==> b.writeback % 2 == 1)
    requires s.local.pending != [] && s.local.pending[0].id.host != h
    ensures var o := Release(h, b, s, lease, modified);
      var r, rest, to := s.local.pending[0], s.local.pending[1..], s.local.pending[0].id.host;
      && o.status == Ok && o.host == s.(local := Local(false, false, []))
      && o.block.owner == to && o.block.epoch == b.epoch + 1 && o.block.writeback == b.writeback + b.writeback % 2
      && o.block.version == b.version + (if modified then 1 else 0)
      && |o.sent| == 1 + |rest| && o.sent[0] == Grant(to, r.id, o.block.version, b.epoch + 1, r.activate)
      && forall i :: 0 <= i < |rest| ==> o.sent[i + 1] == Req(to, rest[i])
  {
    OddNext(b.writeback);
    var c := b.(version := b.version + (if modified then 1 else 0), writeback := b.writeback + b.writeback % 2);
    var t := s.(local := s.local.(pending := s.local.pending[1..]));
    assert Release(h, b, s, lease, modified) == GrantTo(h, c, t, s.local.pending[0]);
  }

  /** With a local request at the head, it gets the lease and the others wait on, in their order. */
  lemma QueueServed(h: nat, b: Block, s: Host, lease: Lease, modified: bool)
    requires b.owner == h && b.epoch == lease.epoch && s.local.held && !b.retiring && (modified ==> b.writeback % 2 == 1)
    requires s.local.pending != [] && s.local.pending[0].id.host == h
    requires s.local.pending[0].id.serial in s.waiters && !s.waiters[s.local.pending[0].id.serial].abandoned
    ensures var o := Release(h, b, s, lease, modified);
      var r := s.local.pending[0];
      && o.status == Ok && o.sent == [] && o.host.local == Local(true, true, s.local.pending[1..])
      && o.block.owner == h && o.block.epoch == b.epoch && o.block.version == b.version + (if modified then 1 else 0)
      && o.block.writeback == b.writeback + b.writeback % 2 + (if r.activate then 1 else 0)
      && (r.activate <==> o.block.writeback % 2 == 1)
      && r.id.serial in o.host.waiters && o.host.waiters[r.id.serial].progress == Granted(Lease(o.block.version, b.epoch))
  {
    OddNext(b.writeback);
    var c := b.(version := b.version + (if modified then 1 else 0), writeback := b.writeback + b.writeback % 2);
    var t := s.(local := s.local.(pending := s.local.pending[1..]));
    assert Release(h, b, s, lease, modified) == GrantTo(h, c, t, s.local.pending[0]);
    GrantedLocally(h, c, t, s.local.pending[0]);
  }

  /** A host that handles a run of requests while it holds the block. */
  ghost function Receive(h: nat, b: Block, s: Host, rs: seq<Request>): Host {
    if rs == [] then s else HandleRequest(h, b, Receive(h, b, s, rs[..|rs| - 1]), rs[|rs| - 1]).host
  }

  /** The new owner queues them in the order they are sent, so nobody loses its turn by a transfer. */
  lemma {:induction false} TurnsKept(h: nat, b: Block, s: Host, rs: seq<Request>)
    requires b.owner == h && s.local.held && forall r :: r in rs ==> r.observed <= b.version
    ensures Receive(h, b, s, rs) == s.(local := s.local.(pending := s.local.pending + rs))
  {
    if rs == [] {
      assert s.local.pending + rs == s.local.pending;
    } else {
      var n := |rs| - 1;
      TurnsKept(h, b, s, rs[..n]);
      assert s.local.pending + rs[..n] + [rs[n]] == s.local.pending + rs;
    }
  }

  /** On a retiring object nobody is served: the queue is dropped and the token set free. */
  lemma ReleaseRetiring(h: nat, b: Block, s: Host, lease: Lease, modified: bool)
    requires b.owner == h && b.epoch == lease.epoch && s.local.held && b.retiring && (modified ==> b.writeback % 2 == 1)
    ensures var o := Release(h, b, s, lease, modified);
      && o.status == Ok && o.sent == [] && o.host == s.(local := Local(s.local.available, false, []))
      && o.block == b.(version := b.version + (if modified then 1 else 0), writeback := b.writeback + b.writeback % 2)
  { }

  // ------------------------------------------------------------------ cancelling

  /** Where the first request of that identity waits. */
  lemma {:induction false} Removes(pending: seq<Request>, id: RequestId) returns (i: nat)
    ensures i <= |pending| && (forall k :: 0 <= k < i ==> pending[k].id != id)
    ensures i < |pending| ==> pending[i].id == id && Queued(pending, id) && Without(pending, id) == pending[..i] + pending[i + 1..]
    ensures i == |pending| ==> !Queued(pending, id) && Without(pending, id) == pending
  {
    if pending == [] {
      i := 0;
    } else if pending[0].id == id {
      i := 0;
      assert pending[..0] + pending[1..] == pending[1..];
    } else {
      var rest := pending[1..];
      var k := Removes(rest, id);
      i := k + 1;
      assert forall j :: 0 <= j < |rest| ==> rest[j] == pending[j + 1];
      Shifted(pending, k);
      hide Waiting;
    }
  }

  lemma Shifted(p: seq<Request>, k: nat)
    requires p != []
    ensures k < |p| - 1 ==> [p[0]] + (p[1..][..k] + p[1..][k + 1..]) == p[..k + 1] + p[k + 2..]
    ensures [p[0]] + p[1..] == p
  { }

  /** The owner takes a request out of its queue and keeps the others in their order. */
  lemma CancelAtOwner(h: nat, b: Block, s: Host, id: RequestId) returns (i: nat)
    requires b.owner == h
    ensures i <= |s.local.pending| && (forall k :: 0 <= k < i ==> s.local.pending[k].id != id)
    ensures i < |s.local.pending| ==> s.local.pending[i].id == id
    ensures var o := HandleCancel(h, b, s, id);
      && o.status == Ok && o.block == b
      && o.host.local == (if i < |s.local.pending| then s.local.(pending := s.local.pending[..i] + s.local.pending[i + 1..]) else s.local)
      && (id.host != h ==> o.host.waiters == s.waiters && o.sent == [CancelAck(id.host, id, false)])
      && (id.host == h ==> o.sent == [])
      && (id.host == h && i < |s.local.pending| ==> Cancels(s, o.host, id.serial))
      && (id.host == h && i == |s.local.pending| ==> o.host.waiters == s.waiters)
  {
    i := Removes(s.local.pending, id);
    hide Without, Queued;
  }

  /** The waiter is cancelled, or gone when nobody will collect it; no other waiter changes. */
  predicate Cancels(s: Host, s': Host, serial: nat) {
    && s'.waiters - {serial} == s.waiters - {serial}
    && (serial !in s.waiters ==> serial !in s'.waiters)
    && (serial in s.waiters ==>
          var w := s.waiters[serial];
          if w.abandoned && !w.retain then serial !in s'.waiters
          else serial in s'.waiters && s'.waiters[serial] == Waiter(Cancelled, w.abandoned, w.retain))
  }

  /** Anybody else sends the cancellation on to the owner. */
  lemma CancelRouted(h: nat, b: Block, s: Host, id: RequestId)
    requires b.owner != h
    ensures HandleCancel(h, b, s, id) == Outcome(b, s, [Cancel(b.owner, id)], Ok)
  { }

  /** An acknowledgement cancels the waiter unless it came too late, and then changes nothing. */
  lemma AckCancels(s: Host, serial: nat, tooLate: bool)
    ensures var s' := HandleCancelAck(s, serial, tooLate);
      s'.local == s.local && if tooLate then s' == s else Cancels(s, s', serial)
  { }

  /** Cancelling a request: refused, reported, dropped, or on its way to the owner. */
  lemma CancelStarts(h: nat, b: Block, s: Host, serial: nat)
    ensures var o := CancelRequest(h, b, s, serial);
      var gone := s.(waiters := s.waiters - {serial});
      && (serial !in s.waiters ==> o == Outcome(b, s, [], NotFound))
      && (serial in s.waiters ==>
            var w := s.waiters[serial];
            && (w.progress.Rejected? || w.progress.Cancelled? ==> o == Outcome(b, gone, [], FailedPrecondition))
            && (w.progress.Active? || w.progress.Cancelling? ==>
                  && (b.retiring ==> o == Outcome(b, gone, [], Ok))
                  && (!b.retiring && b.owner != h ==>
                        o == Outcome(b, s.(waiters := s.waiters[serial := Waiter(Cancelling, true, w.retain)]),
                                     [Cancel(b.owner, RequestId(h, serial))], Ok))))
  { }

  /** A granted request nobody waits behind: its cancellation frees the token. */
  lemma CancelGranted(h: nat, b: Block, s: Host, serial: nat)
    requires serial in s.waiters && s.waiters[serial].progress.Granted? && s.local.pending == []
    requires b.owner == h && b.epoch == s.waiters[serial].progress.lease.epoch && s.local.held
    ensures var o := CancelRequest(h, b, s, serial);
      && o.status == Ok && o.sent == []
      && o.host == Host(Local(s.local.available, false, []), s.waiters - {serial})
      && o.block == b.(writeback := b.writeback + b.writeback % 2)
  {
    ReleaseAlone(h, b, s.(waiters := s.waiters - {serial}), s.waiters[serial].progress.lease, false);
  }

  /** An owner's own waiting request leaves its queue and is decided in one call. */
  lemma CancelOwn(h: nat, b: Block, s: Host, serial: nat) returns (i: nat)
    requires serial in s.waiters && (s.waiters[serial].progress.Active? || s.waiters[serial].progress.Cancelling?)
    requires !b.retiring && b.owner == h
    ensures i <= |s.local.pending| && (forall k :: 0 <= k < i ==> s.local.pending[k].id != RequestId(h, serial))
    ensures i < |s.local.pending| ==> s.local.pending[i].id == RequestId(h, serial)
    ensures var o := CancelRequest(h, b, s, serial);
      && o.status == Ok && o.block == b && o.sent == [] && o.host.waiters - {serial} == s.waiters - {serial}
      && if i < |s.local.pending| then
           && o.host.local.pending == s.local.pending[..i] + s.local.pending[i + 1..]
           && (serial in o.host.waiters <==> s.waiters[serial].retain)
           && (serial in o.host.waiters ==> o.host.waiters[serial] == Waiter(Cancelled, true, true))
         else
           && o.host.local == s.local && serial in o.host.waiters
           && o.host.waiters[serial] == Waiter(Cancelling, true, s.waiters[serial].retain)
  {
    var w := s.waiters[serial];
    i := CancelAtOwner(h, b, s.(waiters := s.waiters[serial := Waiter(Cancelling, true, w.retain)]), RequestId(h, serial));
    hide HandleCancel;
  }

  // ------------------------------------------------------------------ dispatch

  /** Packets for a retiring object do nothing; every other packet does what its kind says. */
  lemma Dispatched(h: nat, b: Block, s: Host, m: Message)
    ensures var o := Handle(h, b, s, m);
      && (b.retiring ==> o == Outcome(b, s, [], Ok))
      && (!b.retiring && m.Req? ==> o == HandleRequest(h, b, s, m.request))
      && (!b.retiring && m.Grant? ==> o == HandleGrant(h, b, s, m.granted.serial, m.version, m.epoch, m.activate))
      && (!b.retiring && m.Reject? ==> o.block == b && o.sent == [] && o.status == Ok && Decided(s, o.host, m.rejected.serial, Rejected))
      && (!b.retiring && m.Cancel? ==> o == HandleCancel(h, b, s, m.cancelled))
      && (!b.retiring && m.CancelAck? ==> o.block == b && o.sent == [] && o.status == Ok && o.host.local == s.local)
      && (!b.retiring && m.CancelAck? && m.tooLate ==> o.host == s)
      && (!b.retiring && m.CancelAck? && !m.tooLate ==> Cancels(s, o.host, m.acked.serial))
  { }
}
