/**
 The write-token service of one host: per-block local state, waiters and outbound queues,
 updated in place. Every call is proved to have the effect `TokenSpec` gives for its block and
 to leave every other block's state alone.
 */
module WriteTokens {
  import opened TokenSpec
  import TokenLaws

  datatype Key = Key(base: nat, block: nat)

  datatype Packet = Packet(key: Key, message: Message)

  /** What a call may change: shared records, local entries, waiters, and the FIFO channel to every host. */
  datatype Snapshot = Snapshot(
    blocks: map<Key, Block>, locals: map<Key, Local>, waiters: map<nat, Waiter>, channels: seq<seq<Packet>>)

  function LocalIn(locals: map<Key, Local>, k: Key): Local {
    if k in locals then locals[k] else Idle
  }

  function HostIn(s: Snapshot, k: Key): Host {
    Host(LocalIn(s.locals, k), s.waiters)
  }

  /** `messages` about block `k` appended, in order, to the channels of their destinations. */
  function Sent(channels: seq<seq<Packet>>, k: Key, messages: seq<Message>): (r: seq<seq<Packet>>)
    ensures |r| == |channels|
  {
    if messages == [] then channels
    else
      var m := messages[|messages| - 1];
      Append(Sent(channels, k, messages[..|messages| - 1]), m.to, Packet(k, m))
  }

  function Append(channels: seq<seq<Packet>>, to: nat, p: Packet): (r: seq<seq<Packet>>)
    ensures |r| == |channels|
  {
    if to < |channels| then channels[to := channels[to] + [p]] else channels
  }

  lemma SentOne(channels: seq<seq<Packet>>, k: Key, messages: seq<Message>, m: Message)
    ensures Sent(channels, k, messages + [m]) == Append(Sent(channels, k, messages), m.to, Packet(k, m))
  {
    assert (messages + [m])[..|messages|] == messages;
  }

  /** Messages to one host arrive on its channel in the order they are given, behind what is there. */
  lemma {:induction false} SentTogether(channels: seq<seq<Packet>>, k: Key, messages: seq<Message>, to: nat)
    requires to < |channels| && forall m :: m in messages ==> m.to == to
    ensures Sent(channels, k, messages) == channels[to := channels[to] + About(k, messages)]
  {
    if messages == [] {
      assert channels[to] + About(k, messages) == channels[to];
      assert channels[to := channels[to]] == channels;
    } else {
      var n := |messages| - 1;
      SentTogether(channels, k, messages[..n], to);
      assert channels[to] + About(k, messages[..n]) + [Packet(k, messages[n])] == channels[to] + About(k, messages);
    }
  }

  function About(k: Key, messages: seq<Message>): (r: seq<Packet>)
    ensures |r| == |messages| && forall i :: 0 <= i < |r| ==> r[i] == Packet(k, messages[i])
  {
    seq(|messages|, i requires 0 <= i < |messages| => Packet(k, messages[i]))
  }

  /** The call did `o` to block `k`, and nothing else. */
  ghost predicate Did(before: Snapshot, after: Snapshot, k: Key, o: Outcome) {
    && after.blocks == before.blocks[k := o.block]
    && HostIn(after, k) == o.host
    && (forall j :: j != k ==> LocalIn(after.locals, j) == LocalIn(before.locals, j))
    && after.channels == Sent(before.channels, k, o.sent)
  }

  /** Steps on the same block compose when the first one sends nothing. */
  lemma Compose(a: Snapshot, b: Snapshot, c: Snapshot, k: Key, o: Outcome, o': Outcome)
    requires Did(a, b, k, o) && o.sent == [] && Did(b, c, k, o')
    ensures Did(a, c, k, o')
  { }

  /** The packets that do not concern the object. */
  function Others(packets: seq<Packet>, base: nat): seq<Packet> {
    if packets == [] then []
    else if packets[0].key.base == base then Others(packets[1..], base)
    else [packets[0]] + Others(packets[1..], base)
  }

  lemma {:induction false} OthersAre(packets: seq<Packet>, base: nat)
    ensures forall p :: p in Others(packets, base) <==> p in packets && p.key.base != base
  {
    if packets != [] { OthersAre(packets[1..], base); }
  }

  /** Discarding keeps the order of what stays. */
  lemma {:induction false} OthersInOrder(a: seq<Packet>, b: seq<Packet>, base: nat)
    ensures Others(a + b, base) == Others(a, base) + Others(b, base)
  {
    if a == [] {
      assert a + b == b;
    } else {
      OthersInOrder(a[1..], b, base);
      OthersFirst(a, base);
      OthersFirst(a + b, base);
      assert (a + b)[1..] == a[1..] + b;
      hide Others;
    }
  }

  lemma OthersFirst(a: seq<Packet>, base: nat)
    requires a != []
    ensures Others(a, base) == (if a[0].key.base == base then [] else [a[0]]) + Others(a[1..], base)
  { }

  function Joined(rings: seq<seq<Packet>>, outbound: seq<seq<Packet>>): (r: seq<seq<Packet>>)
    requires |outbound| == |rings|
    ensures |r| == |rings| && forall d :: 0 <= d < |r| ==> r[d] == rings[d] + outbound[d]
  {
    seq(|rings|, d requires 0 <= d < |rings| => rings[d] + outbound[d])
  }

  /** The queue search of a cancellation: erases the first request of that identity. */
  method Erase(pending: seq<Request>, id: RequestId) returns (removed: bool, rest: seq<Request>)
    ensures removed == Queued(pending, id) && rest == Without(pending, id)
    ensures forall i :: 0 <= i < |rest| ==> rest[i] in pending
    ensures !removed ==> rest == pending
  {
    hide Without, Queued;
    var i := 0;
    assert pending[0..] == pending;
    while i < |pending| && pending[i].id != id
      invariant i <= |pending|
      invariant Queued(pending, id) == Queued(pending[i..], id)
      invariant Without(pending, id) == pending[..i] + Without(pending[i..], id)
    {
      SkipOne(pending, i, id);
      i := i + 1;
    }
    removed := i < |pending|;
    if removed {
      TakeOne(pending, i, id);
      rest := pending[..i] + pending[i + 1..];
    } else {
      TakeNone(pending, i, id);
      rest := pending;
    }
  }

  lemma SkipOne(pending: seq<Request>, i: nat, id: RequestId)
    requires i < |pending| && pending[i].id != id
    ensures Queued(pending[i..], id) == Queued(pending[i + 1..], id)
    ensures pending[..i] + Without(pending[i..], id) == pending[..i + 1] + Without(pending[i + 1..], id)
  {
    assert pending[i..][1..] == pending[i + 1..] && pending[i..][0] == pending[i];
  }

  lemma TakeOne(pending: seq<Request>, i: nat, id: RequestId)
    requires i < |pending| && pending[i].id == id
    ensures Queued(pending[i..], id) && Without(pending[i..], id) == pending[i + 1..]
  {
    assert pending[i..][1..] == pending[i + 1..] && pending[i..][0] == pending[i];
  }

  lemma TakeNone(pending: seq<Request>, i: nat, id: RequestId)
    requires i == |pending|
    ensures !Queued(pending[i..], id) && pending[..i] + Without(pending[i..], id) == pending
  {
    assert pending[i..] == [] && pending[..i] == pending;
  }

  /** The identity checks a handler makes before it touches anything. */
  predicate Fits(self: nat, hosts: nat, m: Message) {
    match m
    case Req(_, r) => r.id.host < hosts && r.id.serial != 0
    case Grant(_, id, _, _, _) => id.host == self && id.serial != 0
    case Reject(_, id) => id.host == self && id.serial != 0
    case Cancel(_, id) => id.host < hosts && id.serial != 0
    case CancelAck(_, id, _) => id.host == self && id.serial != 0
  }

  /** Replies must be for this host, requests and cancellations from a configured one, all under an issued number. */
  lemma FitsExactly(self: nat, hosts: nat, m: Message)
    ensures Fits(self, hosts, m) <==>
      OrphanOf(m).serial != 0 && if m.Req? || m.Cancel? then OrphanOf(m).host < hosts else OrphanOf(m).host == self
  { }

  /** What a packet does when its block no longer resolves. */
  function Orphaned(self: nat, s: Host, m: Message): Outcome {
    var none := Block(0, 0, 0, 0, false);
    match m
    case Req(_, r) =>
      if r.id.host == self then Unchanged(none, TokenSpec.HandleReject(s, r.id.serial), Ok)
      else Outcome(none, s, [Reject(r.id.host, r.id)], Ok)
    case Grant(_, id, _, _, _) => Unchanged(none, TokenSpec.HandleReject(s, id.serial), Ok)
    case Reject(_, id) => Unchanged(none, TokenSpec.HandleReject(s, id.serial), Ok)
    case Cancel(_, id) =>
      if id.host == self then Unchanged(none, TokenSpec.HandleCancelAck(s, id.serial, false), Ok)
      else Outcome(none, s, [CancelAck(id.host, id, false)], Ok)
    case CancelAck(_, id, tooLate) => Unchanged(none, TokenSpec.HandleCancelAck(s, id.serial, tooLate), Ok)
  }

  /** A cancellation whose block no longer resolves: the requester answers itself. */
  function CancelOrphan(s: Host, serial: nat): (Host, Status) {
    if serial !in s.waiters then (s, NotFound)
    else
      var w := s.waiters[serial];
      var gone := s.(waiters := s.waiters - {serial});
      match w.progress
      case Granted(_) => (gone, NotFound)
      case Rejected => (gone, FailedPrecondition)
      case Cancelled => (gone, FailedPrecondition)
      case _ =>
        var marked := s.(waiters := s.waiters[serial := w.(progress := Cancelling, abandoned := true)]);
        (TokenSpec.HandleCancelAck(marked, serial, false), Ok)
  }

  /**
   A packet for a block that is gone leaves no request undecided: a request is refused to its
   requester, a grant refuses its own waiter, and a cancellation succeeds.
   */
  lemma OrphanDecides(self: nat, s: Host, m: Message)
    ensures var o := Orphaned(self, s, m);
      && ((m.Req? && m.request.id.host == self) || m.Grant? || m.Reject? ==>
            o.sent == [] && TokenLaws.Decided(s, o.host, OrphanOf(m).serial, Rejected))
      && (m.Req? && m.request.id.host != self ==> o.host == s && o.sent == [Reject(m.request.id.host, m.request.id)])
      && (m.Cancel? && m.cancelled.host != self ==> o.host == s && o.sent == [CancelAck(m.cancelled.host, m.cancelled, false)])
      && ((m.Cancel? && m.cancelled.host == self) || (m.CancelAck? && !m.tooLate) ==>
            o.sent == [] && o.host.local == s.local && TokenLaws.Cancels(s, o.host, OrphanOf(m).serial))
      && (m.CancelAck? && m.tooLate ==> o.sent == [] && o.host == s)
  {
    TokenLaws.RejectDecides(s, OrphanOf(m).serial);
    TokenLaws.AckCancels(s, OrphanOf(m).serial, m.CancelAck? && m.tooLate);
  }

  function OrphanOf(m: Message): RequestId {
    match m
    case Req(_, r) => r.id
    case Grant(_, id, _, _, _) => id
    case Reject(_, id) => id
    case Cancel(_, id) => id
    case CancelAck(_, id, _) => id
  }

  /** Cancelling for a block that is gone settles the request at once. */
  lemma CancelOrphanSettles(s: Host, serial: nat)
    ensures var (s', status) := CancelOrphan(s, serial);
      && s'.local == s.local && s'.waiters - {serial} == s.waiters - {serial}
      && (status == Ok <==> serial in s.waiters && (s.waiters[serial].progress.Active? || s.waiters[serial].progress.Cancelling?))
      && (serial !in s.waiters ==> status == NotFound && s' == s)
      && (serial in s.waiters && status != Ok ==>
            serial !in s'.waiters && status == if s.waiters[serial].progress.Granted? then NotFound else FailedPrecondition)
      && (status == Ok ==> (serial in s'.waiters <==> s.waiters[serial].retain))
      && (status == Ok && serial in s'.waiters ==> s'.waiters[serial] == Waiter(Cancelled, true, true))
  {
    if serial in s.waiters {
      TokenLaws.AckCancels(s.(waiters := s.waiters[serial := s.waiters[serial].(progress := Cancelling, abandoned := true)]), serial, false);
    }
  }

  /** The host owns the block, holds it, and the lease is of the present ownership. */
  predicate Current(b: Block, l: Local, self: nat, lease: Lease) {
    b.owner == self && b.epoch == lease.epoch && l.held
  }

  /** Every lease can be given back: it is current, and no other one is for the same block. */
  ghost predicate Returnable(blocks: map<Key, Block>, locals: map<Key, Local>, self: nat, leases: seq<(Key, Lease)>) {
    && (forall i :: 0 <= i < |leases| ==>
          leases[i].0 in blocks && Current(blocks[leases[i].0], LocalIn(locals, leases[i].0), self, leases[i].1))
    && (forall i, j :: 0 <= i < j < |leases| ==> leases[i].0 != leases[j].0)
  }

  /** A granted request of the object that its caller never collected. */
  predicate GrantOf(waiters: map<nat, Waiter>, targets: map<nat, Key>, base: nat, id: nat) {
    id in waiters && id in targets && targets[id].base == base && waiters[id].progress.Granted?
  }

  ghost predicate Unclaimed(waiters: map<nat, Waiter>, targets: map<nat, Key>, base: nat, k: Key) {
    exists id :: GrantOf(waiters, targets, base, id) && targets[id] == k
  }

  /** The leases of these granted requests, each request once. */
  ghost predicate Listed(waiters: map<nat, Waiter>, targets: map<nat, Key>, base: nat, leases: seq<(Key, Lease)>, order: seq<nat>) {
    && |leases| == |order|
    && (forall i :: 0 <= i < |order| ==>
          GrantOf(waiters, targets, base, order[i]) && leases[i] == (targets[order[i]], waiters[order[i]].progress.lease))
    && (forall i, j :: 0 <= i < j < |order| ==> order[i] != order[j])
  }

  /** Every grant nobody collected is current, and no other one is for the same block. */
  ghost predicate GrantsSound(blocks: map<Key, Block>, locals: map<Key, Local>, self: nat, waiters: map<nat, Waiter>, targets: map<nat, Key>, base: nat) {
    && (forall id :: GrantOf(waiters, targets, base, id) ==>
          targets[id] in blocks && Current(blocks[targets[id]], LocalIn(locals, targets[id]), self, waiters[id].progress.lease))
    && (forall a, b :: GrantOf(waiters, targets, base, a) && GrantOf(waiters, targets, base, b) && a != b ==> targets[a] != targets[b])
  }

  lemma NoneReturnable(blocks: map<Key, Block>, locals: map<Key, Local>, self: nat)
    ensures Returnable(blocks, locals, self, [])
  { }

  /** One more lease can be given back exactly if it is current and its block is not already given back. */
  lemma ReturnableNext(blocks: map<Key, Block>, locals: map<Key, Local>, self: nat, leases: seq<(Key, Lease)>, i: nat)
    requires i < |leases| && Returnable(blocks, locals, self, leases[..i])
    ensures var (k, lease) := leases[i];
      Returnable(blocks, locals, self, leases[..i + 1]) <==>
        k in blocks && Current(blocks[k], LocalIn(locals, k), self, lease) && forall j :: 0 <= j < i ==> leases[j].0 != k
    ensures Returnable(blocks, locals, self, leases) ==> Returnable(blocks, locals, self, leases[..i + 1])
  {
    hide Current, LocalIn;
    var before, after := leases[..i], leases[..i + 1];
    assert forall j :: 0 <= j < i ==> before[j] == leases[j] && after[j] == leases[j];
    assert after[i] == leases[i];
  }

  lemma ListedBase(waiters: map<nat, Waiter>, targets: map<nat, Key>, base: nat, leases: seq<(Key, Lease)>, order: seq<nat>)
    requires Listed(waiters, targets, base, leases, order)
    ensures forall u :: u in leases ==> u.0.base == base
  { }

  lemma SoundReturnable(blocks: map<Key, Block>, locals: map<Key, Local>, self: nat, waiters: map<nat, Waiter>, targets: map<nat, Key>, base: nat,
                        leases: seq<(Key, Lease)>, order: seq<nat>)
    requires Listed(waiters, targets, base, leases, order) && forall id :: GrantOf(waiters, targets, base, id) ==> id in order
    ensures Returnable(blocks, locals, self, leases) <==> GrantsSound(blocks, locals, self, waiters, targets, base)
    ensures forall k :: Unclaimed(waiters, targets, base, k) <==> k in (set u <- leases :: u.0)
  {
    hide Current, LocalIn;
    if Returnable(blocks, locals, self, leases) {
      forall id | GrantOf(waiters, targets, base, id)
        ensures targets[id] in blocks && Current(blocks[targets[id]], LocalIn(locals, targets[id]), self, waiters[id].progress.lease)
      {
        var i :| 0 <= i < |order| && order[i] == id;
        assert leases[i].0 == targets[id];
      }
      forall a, b | GrantOf(waiters, targets, base, a) && GrantOf(waiters, targets, base, b) && a != b ensures targets[a] != targets[b] {
        var i :| 0 <= i < |order| && order[i] == a;
        var j :| 0 <= j < |order| && order[j] == b;
        assert leases[i].0 == targets[a] && leases[j].0 == targets[b];
      }
    }
    forall k ensures Unclaimed(waiters, targets, base, k) <==> k in (set u <- leases :: u.0) {
      if id :| GrantOf(waiters, targets, base, id) && targets[id] == k {
        var i :| 0 <= i < |order| && order[i] == id;
        assert leases[i] in leases && leases[i].0 == k;
      }
      if k in (set u <- leases :: u.0) {
        var u :| u in leases && u.0 == k;
        var i :| 0 <= i < |leases| && leases[i] == u;
        assert GrantOf(waiters, targets, base, order[i]);
      }
    }
  }

  ghost predicate OwnersKnown(blocks: map<Key, Block>, hosts: nat) {
    forall k :: k in blocks ==> blocks[k].owner < hosts
  }

  ghost predicate RequestersKnown(locals: map<Key, Local>, hosts: nat) {
    forall k, i :: k in locals && 0 <= i < |locals[k].pending| ==> locals[k].pending[i].id.host < hosts
  }

  ghost predicate SerialsUsed(waiters: map<nat, Waiter>, targets: map<nat, Key>, next: nat) {
    && (forall id :: id in waiters ==> id in targets)
    && (forall id :: id in targets ==> id < next)
  }

  /** The erasing loop over one queue. */
  method Keep(packets: seq<Packet>, base: nat) returns (kept: seq<Packet>)
    ensures kept == Others(packets, base)
  {
    kept := [];
    assert packets[0..] == packets;
    for i := 0 to |packets|
      invariant Others(packets, base) == kept + Others(packets[i..], base)
    {
      assert packets[i..] == [packets[i]] + packets[i + 1..];
      if packets[i].key.base != base { kept := kept + [packets[i]]; }
    }
  }

  function Cleared(l: Local, clear: bool): Local {
    if clear then l.(pending := []) else l
  }

  /** Shared memory as this host sees it: block records and its outgoing rings. */
  class Region {
    var blocks: map<Key, Block>
    var rings: seq<seq<Packet>>
    const capacity: nat

    constructor (capacity: nat, hosts: nat)
      ensures blocks == map[] && rings == seq(hosts, _ => []) && this.capacity == capacity
    {
      this.capacity := capacity;
      blocks := map[];
      rings := seq(hosts, _ => []);
    }
  }

  class TokenService {
    const self: nat
    const region: Region
    var locals: map<Key, Local>
    var waiters: map<nat, Waiter>
    /** The block each request was made for; identifiers are never reused. */
    var targets: map<nat, Key>
    var outbound: seq<seq<Packet>>
    var nextRequest: nat

    ghost predicate Wired()
      reads this`outbound, region`rings
    {
      && self < |outbound| == |region.rings|
      && (forall d :: 0 <= d < |outbound| ==> |region.rings[d]| <= region.capacity)
    }

    ghost predicate Valid()
      reads this, region
    {
      && Wired()
      && OwnersKnown(region.blocks, |outbound|)
      && RequestersKnown(locals, |outbound|)
      && SerialsUsed(waiters, targets, nextRequest)
    }

    /** All packets on their way to each host, oldest first. */
    ghost function Channels(): (r: seq<seq<Packet>>)
      requires |outbound| == |region.rings|
      reads this`outbound, region`rings
    {
      Joined(region.rings, outbound)
    }

    ghost function Snap(): Snapshot
      requires |outbound| == |region.rings|
      reads this, region
    {
      Snapshot(region.blocks, locals, waiters, Channels())
    }

    ghost function At(k: Key): Host
      requires |outbound| == |region.rings|
      reads this, region
    {
      HostIn(Snap(), k)
    }

    function LocalAt(k: Key): Local
      reads this`locals
    {
      LocalIn(locals, k)
    }

    constructor (self: nat, region: Region)
      requires self < |region.rings|
      requires forall k :: k in region.blocks ==> region.blocks[k].owner < |region.rings|
      requires forall d :: 0 <= d < |region.rings| ==> |region.rings[d]| <= region.capacity
      ensures Valid() && this.self == self && this.region == region
      ensures locals == map[] && waiters == map[] && nextRequest == 1
      ensures Channels() == region.rings
    {
      this.self := self;
      this.region := region;
      locals := map[];
      waiters := map[];
      targets := map[];
      outbound := seq(|region.rings|, _ => []);
      nextRequest := 1;
      new;
      assert forall d :: 0 <= d < |region.rings| ==> region.rings[d] + outbound[d] == region.rings[d];
    }

    /** Moves queued packets into the rings: no packet is lost, duplicated or reordered, and what stays faces a full ring. */
    method ProgressOutbound()
      requires Wired()
      modifies this`outbound, region`rings
      ensures Wired() && |outbound| == old(|outbound|) && Channels() == old(Channels())
      ensures forall d :: 0 <= d < |outbound| && outbound[d] != [] ==> |region.rings[d]| == region.capacity
    {
      for host := 0 to |outbound|
        invariant Wired() && |outbound| == old(|outbound|) && Channels() == old(Channels())
        invariant forall d :: 0 <= d < host && outbound[d] != [] ==> |region.rings[d]| == region.capacity
      {
        while outbound[host] != [] && |region.rings[host]| < region.capacity
          invariant Wired() && |outbound| == old(|outbound|) && Channels() == old(Channels())
          invariant forall d :: 0 <= d < host && outbound[d] != [] ==> |region.rings[d]| == region.capacity
          decreases |outbound[host]|
        {
          ghost var before := Channels();
          region.rings := region.rings[host := region.rings[host] + [outbound[host][0]]];
          outbound := outbound[host := outbound[host][1..]];
          assert Channels()[host] == before[host];
          assert Channels() == before;
        }
      }
    }

    method EnqueueOutbound(to: nat, p: Packet) returns (status: Status)
      requires Wired()
      modifies this`outbound, region`rings
      ensures Wired() && |outbound| == old(|outbound|)
      ensures Channels() == Append(old(Channels()), to, p)
      ensures status == if to < |outbound| then Ok else InvalidArgument
    {
      if to >= |outbound| { return InvalidArgument; }
      ghost var before := Channels();
      outbound := outbound[to := outbound[to] + [p]];
      assert Channels()[to] == before[to] + [p];
      assert Channels() == Append(before, to, p);
      ProgressOutbound();
      return Ok;
    }

    method ActivateWriter(k: Key) returns (status: Status)
      requires Valid() && k in region.blocks
      modifies region`blocks
      ensures Valid()
      ensures if Writing(old(region.blocks[k])) then status == FailedPrecondition && region.blocks == old(region.blocks)
              else status == Ok && region.blocks == old(region.blocks)[k := old(region.blocks[k]).(writeback := old(region.blocks[k]).writeback + 1)]
      ensures Writing(region.blocks[k])
    {
      var b := region.blocks[k];
      if Writing(b) { return FailedPrecondition; }
      region.blocks := region.blocks[k := b.(writeback := b.writeback + 1)];
      return Ok;
    }

    method RegisterAllocation(base: nat, count: nat) returns (status: Status)
      requires Valid()
      modifies this`locals
      ensures Valid()
      ensures status == Ok <==> forall i :: 0 <= i < count ==> Key(base, i) in region.blocks && region.blocks[Key(base, i)].owner == self
      ensures forall k: Key :: LocalAt(k).held == old(LocalAt(k).held) && LocalAt(k).pending == old(LocalAt(k).pending)
      ensures status == Ok ==> forall i :: 0 <= i < count ==> LocalAt(Key(base, i)).available
      ensures forall k: Key :: k.base != base || count <= k.block ==> LocalAt(k) == old(LocalAt(k))
    {
      for i := 0 to count
        invariant Valid()
        invariant forall j :: 0 <= j < i ==>
          Key(base, j) in region.blocks && region.blocks[Key(base, j)].owner == self && LocalAt(Key(base, j)).available
        invariant forall k: Key :: LocalAt(k).held == old(LocalAt(k).held) && LocalAt(k).pending == old(LocalAt(k).pending)
        invariant forall k: Key :: k.base != base || i <= k.block ==> LocalAt(k) == old(LocalAt(k))
      {
        var k := Key(base, i);
        if k !in region.blocks { return NotFound; }
        if region.blocks[k].owner != self { return FailedPrecondition; }
        locals := locals[k := LocalAt(k).(available := true)];
      }
      return Ok;
    }

    method Grant(r: Request, k: Key) returns (status: Status)
      requires Valid() && k in region.blocks && r.id.host < |outbound|
      modifies this, region
      ensures Valid() && |outbound| == old(|outbound|) && nextRequest == old(nextRequest) && targets == old(targets)
      ensures var o := GrantTo(self, old(region.blocks[k]), old(At(k)), r);
        Did(old(Snap()), Snap(), k, o) && status == o.status
      decreases |LocalAt(k).pending|, 3
    {
      var b := region.blocks[k];
      if b.retiring {
        locals := locals[k := LocalAt(k).(held := false)];
        return Ok;
      }
      if r.id.host == self {
        if r.id.serial !in waiters { return NotFound; }
        if r.activate {
          status := ActivateWriter(k);
          if status != Ok { return; }
        }
        ghost var mid := Snap();
        status := Accept(r.id.serial, k);
        Compose(old(Snap()), mid, Snap(), k, Unchanged(mid.blocks[k], HostIn(mid, k), Ok),
                Confer(self, mid.blocks[k], HostIn(mid, k), r.id.serial));
        return;
      }
      status := Transfer(r, k);
    }

    /** Sends the waiting requests after the token, in their order. */
    method ForwardAll(to: nat, k: Key, remaining: seq<Request>, ghost channels: seq<seq<Packet>>, ghost first: seq<Message>)
      requires Wired() && to < |outbound| && Channels() == Sent(channels, k, first)
      modifies this`outbound, region`rings
      ensures Wired() && |outbound| == old(|outbound|)
      ensures Channels() == Sent(channels, k, first + Forward(remaining, to))
    {
      assert first + Forward(remaining, to)[..0] == first;
      for i := 0 to |remaining|
        invariant Wired() && |outbound| == old(|outbound|)
        invariant Channels() == Sent(channels, k, first + Forward(remaining, to)[..i])
      {
        var m := Req(to, remaining[i]);
        SentOne(channels, k, first + Forward(remaining, to)[..i], m);
        assert first + Forward(remaining, to)[..i] + [m] == first + Forward(remaining, to)[..i + 1];
        var status := EnqueueOutbound(to, Packet(k, m));
      }
      assert Forward(remaining, to)[..|remaining|] == Forward(remaining, to);
    }

    /** Hands the token and the pending queue to another host. */
    method Transfer(r: Request, k: Key) returns (status: Status)
      requires Valid() && k in region.blocks && !region.blocks[k].retiring && self != r.id.host < |outbound|
      modifies this, region
      ensures Valid() && |outbound| == old(|outbound|) && nextRequest == old(nextRequest) && targets == old(targets)
      ensures var o := GrantTo(self, old(region.blocks[k]), old(At(k)), r);
        Did(old(Snap()), Snap(), k, o) && status == o.status
    {
      var b := region.blocks[k];
      var to := r.id.host;
      ghost var channels := Channels();
      region.blocks := region.blocks[k := b.(owner := to, epoch := b.epoch + 1)];
      var g := TokenSpec.Grant(to, r.id, b.version, b.epoch + 1, r.activate);
      status := EnqueueOutbound(to, Packet(k, g));
      SentOne(channels, k, [], g);
      assert [] + [g] == [g];
      var remaining := LocalAt(k).pending;
      locals := locals[k := Idle];
      ForwardAll(to, k, remaining, channels, [g]);
      return Ok;
    }

    /** Gives the token to a local waiter, or straight back when the waiter was abandoned. */
    method Accept(serial: nat, k: Key) returns (status: Status)
      requires Valid() && k in region.blocks && serial in waiters
      modifies this, region
      ensures Valid() && |outbound| == old(|outbound|) && nextRequest == old(nextRequest) && targets == old(targets)
      ensures var o := Confer(self, old(region.blocks[k]), old(At(k)), serial);
        Did(old(Snap()), Snap(), k, o) && status == o.status
      decreases |LocalAt(k).pending|, 2
    {
      var b := region.blocks[k];
      var lease := Lease(b.version, b.epoch);
      var w := waiters[serial];
      locals := locals[k := LocalAt(k).(available := true, held := true)];
      if w.abandoned {
        if w.retain {
          waiters := waiters[serial := w.(progress := Cancelled)];
        } else {
          waiters := waiters - {serial};
        }
        assert At(k) == TakeToken(old(At(k))).(waiters := Discard(old(At(k)).waiters, serial));
        ghost var mid := Snap();
        status := Release(lease, k, false);
        Compose(old(Snap()), mid, Snap(), k, Unchanged(b, HostIn(mid, k), Ok),
                TokenSpec.Release(self, b, HostIn(mid, k), lease, false));
      } else {
        waiters := waiters[serial := w.(progress := Granted(lease))];
        status := Ok;
      }
    }

    method Release(lease: Lease, k: Key, modified: bool) returns (status: Status)
      requires Valid()
      modifies this, region
      ensures Valid() && |outbound| == old(|outbound|) && nextRequest == old(nextRequest) && targets == old(targets)
      ensures k !in old(region.blocks) ==> status == NotFound && Snap() == old(Snap())
      ensures k in old(region.blocks) ==> var o := TokenSpec.Release(self, old(region.blocks[k]), old(At(k)), lease, modified);
        Did(old(Snap()), Snap(), k, o) && status == o.status
      ensures (k in old(region.blocks) ==> old(region.blocks[k]).retiring) ==> outbound == old(outbound) && region.rings == old(region.rings)
      decreases |LocalAt(k).pending|, 1
    {
      if k !in region.blocks { return NotFound; }
      var b := region.blocks[k];
      if b.owner != self || b.epoch != lease.epoch { return FailedPrecondition; }
      if k !in locals || !locals[k].held { return FailedPrecondition; }
      if modified && !Writing(b) { return FailedPrecondition; }
      var published := b;
      if modified { published := published.(version := b.version + 1); }
      if Writing(b) { published := published.(writeback := b.writeback + 1); }
      region.blocks := region.blocks[k := published];
      ghost var mid := Snap();
      status := PassOn(k);
      Compose(old(Snap()), mid, Snap(), k, Unchanged(published, HostIn(mid, k), Ok), Handoff(self, published, HostIn(mid, k)));
    }

    /** Gives the released token to the head of the pending queue, or to nobody. */
    method PassOn(k: Key) returns (status: Status)
      requires Valid() && k in region.blocks
      modifies this, region
      ensures Valid() && |outbound| == old(|outbound|) && nextRequest == old(nextRequest) && targets == old(targets)
      ensures var o := Handoff(self, old(region.blocks[k]), old(At(k)));
        Did(old(Snap()), Snap(), k, o) && status == o.status
      ensures old(region.blocks[k].retiring) ==> outbound == old(outbound) && region.rings == old(region.rings)
      decreases |LocalAt(k).pending|, 0
    {
      var b, l := region.blocks[k], LocalAt(k);
      if b.retiring {
        locals := locals[k := l.(held := false, pending := [])];
        return Ok;
      }
      if l.pending == [] {
        locals := locals[k := l.(held := false)];
        return Ok;
      }
      locals := locals[k := l.(pending := l.pending[1..])];
      ghost var mid := Snap();
      status := Grant(l.pending[0], k);
      Compose(old(Snap()), mid, Snap(), k, Unchanged(b, HostIn(mid, k), Ok), GrantTo(self, b, HostIn(mid, k), l.pending[0]));
    }

    method BeginWriteback(lease: Lease, k: Key) returns (status: Status)
      requires Valid()
      modifies region`blocks
      ensures Valid()
      ensures k !in old(region.blocks) ==> status == NotFound && region.blocks == old(region.blocks)
      ensures k in old(region.blocks) ==> var o := TokenSpec.BeginWriteback(self, old(region.blocks[k]), old(At(k)), lease);
        Did(old(Snap()), Snap(), k, o) && status == o.status
      ensures status == Ok <==> k in old(region.blocks) && Current(old(region.blocks[k]), LocalAt(k), self, lease) && old(region.blocks[k]).writeback % 2 == 0
      ensures status == Ok ==> k in region.blocks && region.blocks[k].writeback == old(region.blocks[k]).writeback + 1
    {
      if k !in region.blocks { return NotFound; }
      var b := region.blocks[k];
      if b.owner != self || b.epoch != lease.epoch { return FailedPrecondition; }
      if k !in locals || !locals[k].held { return FailedPrecondition; }
      status := ActivateWriter(k);
    }

    method Request(k: Key, activate: bool) returns (status: Status, serial: nat)
      requires Valid()
      modifies this, region
      ensures Valid() && |outbound| == old(|outbound|)
      ensures k !in old(region.blocks) ==> status == NotFound && Snap() == old(Snap())
      ensures k in old(region.blocks) ==>
        && serial == old(nextRequest) && serial !in old(waiters)
        && var o := RequestToken(self, old(region.blocks[k]), old(At(k)), serial, activate);
           Did(old(Snap()), Snap(), k, o) && status == o.status
      ensures status == Ok ==> targets == old(targets)[serial := k]
    {
      if k !in region.blocks { return NotFound, 0; }
      var b := region.blocks[k];
      serial := nextRequest;
      nextRequest := nextRequest + 1;
      if b.retiring {
        return FailedPrecondition, serial;
      }
      if b.owner != self {
        status := Ask(k, serial, activate);
      } else {
        status := Submit(k, serial, activate);
      }
    }

    /** Registers the waiter and asks the remote owner. */
    method Ask(k: Key, serial: nat, activate: bool) returns (status: Status)
      requires Valid() && k in region.blocks && !region.blocks[k].retiring && serial < nextRequest && serial !in waiters
      requires region.blocks[k].owner != self
      modifies this`outbound, this`locals, this`waiters, this`targets, region
      ensures Valid() && |outbound| == old(|outbound|) && targets == old(targets)[serial := k]
      ensures var o := RequestToken(self, old(region.blocks[k]), old(At(k)), serial, activate);
        Did(old(Snap()), Snap(), k, o) && status == o.status
    {
      var b := region.blocks[k];
      targets := targets[serial := k];
      waiters := waiters[serial := Waiter(Active, false, false)];
      status := Send(k, Req(b.owner, TokenSpec.Request(RequestId(self, serial), b.version, activate)));
    }

    /** Queues behind the holder, or takes the idle token. */
    method Submit(k: Key, serial: nat, activate: bool) returns (status: Status)
      requires Valid() && k in region.blocks && !region.blocks[k].retiring && serial < nextRequest && serial !in waiters
      requires region.blocks[k].owner == self
      modifies this`locals, this`waiters, this`targets, region`blocks
      ensures Valid() && |outbound| == old(|outbound|) && targets == old(targets)[serial := k]
      ensures var o := RequestToken(self, old(region.blocks[k]), old(At(k)), serial, activate);
        Did(old(Snap()), Snap(), k, o) && status == o.status
    {
      var l := LocalAt(k);
      if !l.available || l.held {
        status := Queue(k, serial, activate);
      } else {
        status := TakeNow(k, serial, activate);
      }
    }

    /** Registers the waiter and queues its request last. */
    method Queue(k: Key, serial: nat, activate: bool) returns (status: Status)
      requires Valid() && k in region.blocks && !region.blocks[k].retiring && serial < nextRequest && serial !in waiters
      requires region.blocks[k].owner == self && (!LocalAt(k).available || LocalAt(k).held)
      modifies this`locals, this`waiters, this`targets, region`blocks
      ensures Valid() && |outbound| == old(|outbound|) && targets == old(targets)[serial := k]
      ensures var o := RequestToken(self, old(region.blocks[k]), old(At(k)), serial, activate);
        Did(old(Snap()), Snap(), k, o) && status == o.status
    {
      var l := LocalAt(k);
      targets := targets[serial := k];
      waiters := waiters[serial := Waiter(Active, false, false)];
      var r := TokenSpec.Request(RequestId(self, serial), region.blocks[k].version, activate);
      locals := locals[k := l.(pending := l.pending + [r])];
      return Ok;
    }

    method TakeNow(k: Key, serial: nat, activate: bool) returns (status: Status)
      requires Valid() && k in region.blocks && !region.blocks[k].retiring && serial < nextRequest && serial !in waiters
      requires region.blocks[k].owner == self && LocalAt(k).available && !LocalAt(k).held
      modifies this`locals, this`waiters, this`targets, region`blocks
      ensures Valid() && |outbound| == old(|outbound|) && targets == old(targets)[serial := k]
      ensures var o := RequestToken(self, old(region.blocks[k]), old(At(k)), serial, activate);
        Did(old(Snap()), Snap(), k, o) && status == o.status
    {
      hide Activated, Writing;
      targets := targets[serial := k];
      waiters := waiters[serial := Waiter(Active, false, false)];
      status := TakeIdle(k, serial, activate);
      assert old(waiters)[serial := Waiter(Active, false, false)] - {serial} == old(waiters) - {serial};
    }

    /** The requester is the owner and nobody holds the block: the request is granted on the spot. */
    method TakeIdle(k: Key, serial: nat, activate: bool) returns (status: Status)
      requires Valid() && k in region.blocks && k in locals && !locals[k].held && serial in waiters
      modifies this`locals, this`waiters, region`blocks
      ensures Valid()
      ensures var b := old(region.blocks[k]); var b' := Activated(b, activate);
        if activate && Writing(b) then
          status == FailedPrecondition && region.blocks == old(region.blocks) && locals == old(locals) && waiters == old(waiters) - {serial}
        else
          && status == Ok && region.blocks == old(region.blocks)[k := b']
          && locals == old(locals)[k := old(locals[k]).(held := true)]
          && waiters == old(waiters)[serial := Waiter(Granted(Lease(b'.version, b'.epoch)), false, false)]
    {
      locals := locals[k := locals[k].(held := true)];
      if activate {
        status := ActivateWriter(k);
        if status != Ok {
          locals := locals[k := locals[k].(held := false)];
          waiters := waiters - {serial};
          return;
        }
      }
      var b := region.blocks[k];
      waiters := waiters[serial := Waiter(Granted(Lease(b.version, b.epoch)), false, false)];
      return Ok;
    }

    method HandleReject(serial: nat)
      requires Valid()
      modifies this`waiters
      ensures Valid()
      ensures waiters == TokenSpec.HandleReject(Host(Idle, old(waiters)), serial).waiters
    {
      if serial !in waiters || waiters[serial].progress.Granted? { return; }
      var w := waiters[serial];
      if w.abandoned && !w.retain {
        waiters := waiters - {serial};
      } else {
        waiters := waiters[serial := w.(progress := if w.progress.Cancelling? then Cancelled else Rejected)];
      }
    }

    method HandleCancelAck(serial: nat, tooLate: bool)
      requires Valid()
      modifies this`waiters
      ensures Valid()
      ensures waiters == TokenSpec.HandleCancelAck(Host(Idle, old(waiters)), serial, tooLate).waiters
    {
      if serial !in waiters || tooLate { return; }
      var w := waiters[serial];
      if w.abandoned && !w.retain {
        waiters := waiters - {serial};
      } else {
        waiters := waiters[serial := w.(progress := Cancelled)];
      }
    }

    /** One message about `k`, sent to a known host. */
    method Send(k: Key, m: Message) returns (status: Status)
      requires Wired() && m.to < |outbound|
      modifies this`outbound, region`rings
      ensures Wired() && |outbound| == old(|outbound|) && Channels() == Sent(old(Channels()), k, [m]) && status == Ok
    {
      SentOne(Channels(), k, [], m);
      assert [] + [m] == [m];
      status := EnqueueOutbound(m.to, Packet(k, m));
    }

    method HandleRequest(k: Key, r: Request) returns (status: Status)
      requires Valid() && k in region.blocks && r.id.host < |outbound| && !region.blocks[k].retiring
      modifies this, region
      ensures Valid() && |outbound| == old(|outbound|)
      ensures var o := TokenSpec.HandleRequest(self, old(region.blocks[k]), old(At(k)), r);
        Did(old(Snap()), Snap(), k, o) && status == o.status
    {
      var b, l := region.blocks[k], LocalAt(k);
      if r.observed > b.version {
        if r.id.host == self {
          HandleReject(r.id.serial);
          return Ok;
        }
        status := Send(k, Reject(r.id.host, r.id));
        return;
      }
      if b.owner != self {
        status := Send(k, Req(b.owner, r));
        return;
      }
      if !l.available || l.held {
        locals := locals[k := l.(pending := l.pending + [r])];
        return Ok;
      }
      locals := locals[k := l.(held := true)];
      ghost var mid := Snap();
      status := Grant(r, k);
      Compose(old(Snap()), mid, Snap(), k, Unchanged(b, HostIn(mid, k), Ok), GrantTo(self, b, HostIn(mid, k), r));
    }

    method HandleGrant(k: Key, serial: nat, version: nat, epoch: nat, activate: bool) returns (status: Status)
      requires Valid() && k in region.blocks
      modifies this, region
      ensures Valid() && |outbound| == old(|outbound|)
      ensures var o := TokenSpec.HandleGrant(self, old(region.blocks[k]), old(At(k)), serial, version, epoch, activate);
        Did(old(Snap()), Snap(), k, o) && status == o.status
    {
      var b := region.blocks[k];
      if b.owner != self || b.epoch != epoch || b.version != version { return FailedPrecondition; }
      if serial !in waiters { return NotFound; }
      if activate {
        status := ActivateWriter(k);
        if status != Ok { return; }
      }
      ghost var mid := Snap();
      status := Accept(serial, k);
      Compose(old(Snap()), mid, Snap(), k, Unchanged(mid.blocks[k], HostIn(mid, k), Ok),
              Confer(self, mid.blocks[k], HostIn(mid, k), serial));
    }

    /** Takes the first pending request of that identity out of the queue, if there is one. */
    method RemovePending(k: Key, id: RequestId) returns (removed: bool)
      requires Valid()
      modifies this`locals
      ensures Valid() && removed == Queued(old(LocalAt(k)).pending, id)
      ensures LocalAt(k) == old(LocalAt(k)).(pending := Without(old(LocalAt(k)).pending, id))
      ensures forall j :: j != k ==> LocalIn(locals, j) == LocalIn(old(locals), j)
    {
      hide Without, Queued;
      var l := LocalAt(k);
      var pending;
      removed, pending := Erase(l.pending, id);
      if removed {
        assert forall i :: 0 <= i < |pending| ==> pending[i] in l.pending;
        locals := locals[k := l.(pending := pending)];
      }
    }

    method HandleCancel(k: Key, id: RequestId) returns (status: Status)
      requires Valid() && k in region.blocks && id.host < |outbound|
      modifies this, region
      ensures Valid() && |outbound| == old(|outbound|)
      ensures var o := TokenSpec.HandleCancel(self, old(region.blocks[k]), old(At(k)), id);
        Did(old(Snap()), Snap(), k, o) && status == o.status
    {
      var b := region.blocks[k];
      if b.owner != self {
        status := Send(k, Cancel(b.owner, id));
        return;
      }
      var removed := RemovePending(k, id);
      assert At(k) == old(At(k)).(local := old(At(k)).local.(pending := Without(old(At(k)).local.pending, id)));
      ghost var s := At(k);
      var tooLate := !removed && id.host == self;
      if id.host == self {
        HandleCancelAck(id.serial, tooLate);
        assert At(k) == TokenSpec.HandleCancelAck(s, id.serial, tooLate);
        return Ok;
      }
      status := Send(k, CancelAck(id.host, id, tooLate));
      assert At(k) == s;
    }

    method CancelRequest(k: Key, serial: nat) returns (status: Status)
      requires Valid()
      modifies this, region
      ensures Valid() && |outbound| == old(|outbound|)
      ensures k in old(region.blocks) ==> var o := TokenSpec.CancelRequest(self, old(region.blocks[k]), old(At(k)), serial);
        Did(old(Snap()), Snap(), k, o) && status == o.status
      ensures k !in old(region.blocks) ==> var (host, answer) := CancelOrphan(Host(Idle, old(waiters)), serial);
        Snap() == old(Snap()).(waiters := host.waiters) && status == answer
    {
      if serial !in waiters { return NotFound; }
      if k !in region.blocks {
        status := CancelUnresolved(k, serial);
        return;
      }
      var b, w := region.blocks[k], waiters[serial];
      if w.progress.Granted? {
        waiters := waiters - {serial};
        ghost var mid := Snap();
        status := Release(w.progress.lease, k, false);
        Compose(old(Snap()), mid, Snap(), k, Unchanged(b, HostIn(mid, k), Ok),
                TokenSpec.Release(self, b, HostIn(mid, k), w.progress.lease, false));
        return;
      }
      if w.progress.Rejected? || w.progress.Cancelled? {
        waiters := waiters - {serial};
        return FailedPrecondition;
      }
      waiters := waiters[serial := w.(abandoned := true, progress := Cancelling)];
      if b.retiring {
        waiters := waiters - {serial};
        return Ok;
      }
      ghost var mid := Snap();
      if b.owner != self {
        status := Send(k, Cancel(b.owner, RequestId(self, serial)));
      } else {
        status := HandleCancel(k, RequestId(self, serial));
        Compose(old(Snap()), mid, Snap(), k, Unchanged(b, HostIn(mid, k), Ok),
                TokenSpec.HandleCancel(self, b, HostIn(mid, k), RequestId(self, serial)));
      }
    }

    method CancelUnresolved(k: Key, serial: nat) returns (status: Status)
      requires Valid() && k !in region.blocks && serial in waiters
      modifies this, region
      ensures Valid() && |outbound| == old(|outbound|)
      ensures var (host, answer) := CancelOrphan(Host(Idle, old(waiters)), serial);
        Snap() == old(Snap()).(waiters := host.waiters) && status == answer
    {
      var w := waiters[serial];
      if w.progress.Granted? {
        waiters := waiters - {serial};
        status := Release(w.progress.lease, k, false);
        return;
      }
      if w.progress.Rejected? || w.progress.Cancelled? {
        waiters := waiters - {serial};
        return FailedPrecondition;
      }
      waiters := waiters[serial := w.(abandoned := true, progress := Cancelling)];
      HandleCancelAck(serial, false);
      return Ok;
    }

    /** The requester collects a decided request; a lease is collected at most once. */
    method Collect(serial: nat) returns (status: Status, lease: Lease)
      requires Valid()
      modifies this`waiters
      ensures Valid()
      ensures status == Ok <==> serial in old(waiters) && old(waiters[serial]).progress == Granted(lease)
      ensures waiters == if serial in old(waiters) && !old(waiters[serial]).progress.Active? && !old(waiters[serial]).progress.Cancelling?
                         then old(waiters) - {serial} else old(waiters)
    {
      lease := Lease(0, 0);
      if serial !in waiters { return NotFound, lease; }
      match waiters[serial].progress
      case Active => status := Unavailable;
      case Cancelling => status := Unavailable;
      case Granted(l) => status, lease := Ok, l; waiters := waiters - {serial};
      case Rejected => status := FailedPrecondition; waiters := waiters - {serial};
      case Cancelled => status := FailedPrecondition; waiters := waiters - {serial};
    }

    /** A packet for a block that no longer resolves: the requester is answered, nothing else happens. */
    method HandleOrphan(k: Key, m: Message) returns (status: Status)
      requires Valid() && k !in region.blocks && Fits(self, |outbound|, m)
      modifies this`waiters, this`outbound, region`rings
      ensures Valid() && |outbound| == old(|outbound|) && status == Ok
      ensures waiters == Orphaned(self, Host(Idle, old(waiters)), m).host.waiters
      ensures Channels() == Sent(old(Channels()), k, Orphaned(self, Host(Idle, old(waiters)), m).sent)
    {
      status := Ok;
      match m
      case Req(_, r) =>
        if r.id.host == self { HandleReject(r.id.serial); } else { status := Send(k, Reject(r.id.host, r.id)); }
      case Grant(_, id, _, _, _) => HandleReject(id.serial);
      case Reject(_, id) => HandleReject(id.serial);
      case Cancel(_, id) =>
        if id.host == self { HandleCancelAck(id.serial, false); } else { status := Send(k, CancelAck(id.host, id, false)); }
      case CancelAck(_, id, tooLate) => HandleCancelAck(id.serial, tooLate);
    }

    /** Dispatch of one popped packet; its effect is the specified step of its block. */
    method HandleMessage(p: Packet) returns (status: Status)
      requires Valid()
      modifies this, region
      ensures Valid() && |outbound| == old(|outbound|)
      ensures var k, m, before := p.key, p.message, old(Snap());
        if k in before.blocks && before.blocks[k].retiring then status == Ok && Snap() == before
        else if !Fits(self, |outbound|, m) then status == InvalidArgument && Snap() == before
        else if k in before.blocks then
          var o := Handle(self, before.blocks[k], HostIn(before, k), m); Did(before, Snap(), k, o) && status == o.status
        else
          var o := Orphaned(self, Host(Idle, before.waiters), m);
          && status == Ok && Snap() == before.(waiters := o.host.waiters, channels := Sent(before.channels, k, o.sent))
    {
      var k, m := p.key, p.message;
      if k in region.blocks && region.blocks[k].retiring { return Ok; }
      if !Fits(self, |outbound|, m) { return InvalidArgument; }
      if k !in region.blocks {
        status := HandleOrphan(k, m);
        return;
      }
      status := Ok;
      match m
      case Req(_, r) => status := HandleRequest(k, r);
      case Grant(_, id, version, epoch, activate) => status := HandleGrant(k, id.serial, version, epoch, activate);
      case Reject(_, id) => HandleReject(id.serial);
      case Cancel(_, id) => status := HandleCancel(k, id);
      case CancelAck(_, id, tooLate) => HandleCancelAck(id.serial, tooLate);
    }

    /** Drops every waiter of a retiring object and lists the grants nobody collected. */
    method DropWaiters(base: nat) returns (unclaimed: seq<(Key, Lease)>, ghost order: seq<nat>)
      requires Valid()
      modifies this`waiters
      ensures Valid()
      ensures waiters == map id | id in old(waiters) && targets[id].base != base :: old(waiters)[id]
      ensures Listed(old(waiters), targets, base, unclaimed, order) && forall id :: GrantOf(old(waiters), targets, base, id) ==> id in order
    {
      var ids := waiters.Keys;
      unclaimed, order := [], [];
      while ids != {}
        invariant Valid() && ids <= old(waiters).Keys
        invariant forall id :: id in waiters <==> id in old(waiters) && (id in ids || targets[id].base != base)
        invariant forall id :: id in waiters ==> waiters[id] == old(waiters)[id]
        invariant Listed(old(waiters), targets, base, unclaimed, order) && forall i :: 0 <= i < |order| ==> order[i] !in ids
        invariant forall id :: GrantOf(old(waiters), targets, base, id) && id !in ids ==> id in order
      {
        var id :| id in ids;
        ids := ids - {id};
        if targets[id].base == base {
          if waiters[id].progress.Granted? {
            unclaimed := unclaimed + [(targets[id], waiters[id].progress.lease)];
            order := order + [id];
          }
          waiters := waiters - {id};
        }
      }
    }

    method ReleaseQuietly(k: Key, lease: Lease) returns (status: Status)
      requires Valid() && (k in region.blocks ==> region.blocks[k].retiring)
      modifies this, region
      ensures Valid() && waiters == old(waiters) && targets == old(targets) && outbound == old(outbound) && region.rings == old(region.rings)
      ensures region.blocks.Keys == old(region.blocks).Keys && (k in region.blocks ==> region.blocks[k].retiring)
      ensures region.blocks == if k in region.blocks then old(region.blocks)[k := region.blocks[k]] else old(region.blocks)
      ensures forall j :: j != k ==> LocalIn(locals, j) == LocalIn(old(locals), j)
      ensures status == Ok <==> k in old(region.blocks) && Current(old(region.blocks[k]), LocalIn(old(locals), k), self, lease)
      ensures LocalIn(locals, k) == if status == Ok then LocalIn(old(locals), k).(held := false, pending := []) else LocalIn(old(locals), k)
      ensures k in region.blocks ==> region.blocks[k].owner == old(region.blocks[k]).owner && region.blocks[k].epoch == old(region.blocks[k]).epoch
    {
      if k in region.blocks {
        ghost var b, s := region.blocks[k], At(k);
        if Current(b, s.local, self, lease) {
          TokenLaws.ReleaseRetiring(self, b, s, lease, false);
        } else {
          TokenLaws.ReleaseRefused(self, b, s, lease, false);
        }
      }
      status := Release(lease, k, false);
    }

    /** Gives back grants nobody collected; the object is retiring, so no other host hears of it. */
    method ReleaseUnclaimed(base: nat, unclaimed: seq<(Key, Lease)>) returns (ok: bool)
      requires Valid() && (forall u :: u in unclaimed ==> u.0.base == base)
      requires forall k :: k in region.blocks && k.base == base ==> region.blocks[k].retiring
      modifies this, region
      ensures Valid() && waiters == old(waiters) && targets == old(targets) && outbound == old(outbound) && region.rings == old(region.rings)
      ensures region.blocks.Keys == old(region.blocks).Keys
      ensures forall k :: k !in (set u <- unclaimed :: u.0) ==>
        LocalIn(locals, k) == LocalIn(old(locals), k) && (k in region.blocks ==> region.blocks[k] == old(region.blocks)[k])
      ensures ok <==> Returnable(old(region.blocks), old(locals), self, unclaimed)
      ensures ok ==> forall k :: k in (set u <- unclaimed :: u.0) ==> !LocalIn(locals, k).held
    {
      hide LocalIn, Returnable;
      NoneReturnable(region.blocks, locals, self);
      for i := 0 to |unclaimed|
        invariant Valid() && waiters == old(waiters) && targets == old(targets) && outbound == old(outbound) && region.rings == old(region.rings)
        invariant region.blocks.Keys == old(region.blocks).Keys
        invariant forall k :: k in region.blocks && k.base == base ==> region.blocks[k].retiring
        invariant forall k :: k !in (set u <- unclaimed :: u.0) ==>
          LocalIn(locals, k) == LocalIn(old(locals), k) && (k in region.blocks ==> region.blocks[k] == old(region.blocks)[k])
        invariant Returnable(old(region.blocks), old(locals), self, unclaimed[..i])
        invariant forall j :: 0 <= j < i ==> !LocalIn(locals, unclaimed[j].0).held
        invariant forall k :: (forall j :: 0 <= j < i ==> unclaimed[j].0 != k) ==> LocalIn(locals, k) == LocalIn(old(locals), k)
        invariant forall k :: k in region.blocks ==> region.blocks[k].owner == old(region.blocks)[k].owner && region.blocks[k].epoch == old(region.blocks)[k].epoch
      {
        var u := unclaimed[i];
        assert u in unclaimed;
        ReturnableNext(old(region.blocks), old(locals), self, unclaimed, i);
        var status := ReleaseQuietly(u.0, u.1);
        if status != Ok { return false; }
      }
      assert unclaimed[..|unclaimed|] == unclaimed;
      return true;
    }

    /**
     One attempt to seal a retiring object on this host. It succeeds exactly when nothing local
     keeps the object: no operation is active, every grant nobody collected can be given back, and
     no block is held otherwise. It never takes a lease from a caller: a block held for a collected
     lease stays held.
     */
    method CloseObject(base: nat, count: nat, activeOperations: nat) returns (closed: bool)
      requires Valid()
      requires forall k :: k in region.blocks && k.base == base ==> region.blocks[k].retiring
      modifies this, region
      ensures Valid() && targets == old(targets) && region.rings == old(region.rings)
      ensures waiters == map id | id in old(waiters) && targets[id].base != base :: old(waiters)[id]
      ensures forall k: Key :: k.base != base ==>
        LocalIn(locals, k) == LocalIn(old(locals), k) && (k in old(region.blocks) ==> k in region.blocks && region.blocks[k] == old(region.blocks)[k])
      ensures closed <==>
        && activeOperations == 0 && GrantsSound(old(region.blocks), old(locals), self, old(waiters), old(targets), base)
        && forall i :: 0 <= i < count && LocalIn(old(locals), Key(base, i)).held ==> Unclaimed(old(waiters), old(targets), base, Key(base, i))
      ensures forall i | 0 <= i < count && LocalIn(old(locals), Key(base, i)).held && !Unclaimed(old(waiters), old(targets), base, Key(base, i)) ::
        LocalIn(locals, Key(base, i)).held
      ensures closed ==>
        && (forall i :: 0 <= i < count ==> LocalIn(locals, Key(base, i)).pending == [] && !LocalIn(locals, Key(base, i)).held)
        && |outbound| == old(|outbound|)
        && (forall d :: 0 <= d < |outbound| ==> outbound[d] == Others(old(outbound)[d], base))
    {
      hide LocalIn, Returnable, GrantsSound, Listed, Unclaimed, Others, Current;
      var unclaimed;
      ghost var order;
      unclaimed, order := DropWaiters(base);
      ListedBase(old(waiters), targets, base, unclaimed, order);
      SoundReturnable(region.blocks, locals, self, old(waiters), targets, base, unclaimed, order);
      closed := ReleaseUnclaimed(base, unclaimed);
      if !closed { return; }
      var held := ClearPending(base, count);
      DiscardUnsent(base);
      closed := !held && activeOperations == 0;
    }

    /** Empties the pending queues of the object's blocks and reports whether one is still held. */
    method ClearPending(base: nat, count: nat) returns (held: bool)
      requires Valid()
      modifies this`locals
      ensures Valid()
      ensures forall k :: LocalIn(locals, k) == Cleared(LocalIn(old(locals), k), k.base == base && k.block < count)
      ensures held <==> exists i :: 0 <= i < count && LocalIn(old(locals), Key(base, i)).held
    {
      held := false;
      for i := 0 to count
        invariant Valid()
        invariant forall k :: LocalIn(locals, k) == Cleared(LocalIn(old(locals), k), k.base == base && k.block < i)
        invariant held <==> exists j :: 0 <= j < i && LocalIn(old(locals), Key(base, j)).held
      {
        var k := Key(base, i);
        if k in locals {
          held := held || locals[k].held;
          locals := locals[k := locals[k].(pending := [])];
        }
      }
    }

    /** Discards the object's unsent packets; published ones are left to the watermarks. */
    method DiscardUnsent(base: nat)
      requires Wired()
      modifies this`outbound
      ensures Wired() && |outbound| == old(|outbound|)
      ensures forall d :: 0 <= d < |outbound| ==> outbound[d] == Others(old(outbound)[d], base)
    {
      hide Others;
      for d := 0 to |outbound|
        invariant Wired() && |outbound| == old(|outbound|)
        invariant forall e :: 0 <= e < |outbound| ==>
          outbound[e] == if e < d then Others(old(outbound)[e], base) else old(outbound)[e]
      {
        var kept := Keep(outbound[d], base);
        outbound := outbound[d := kept];
      }
    }

    method ForgetAllocation(base: nat, count: nat)
      requires Valid()
      modifies this`locals
      ensures Valid()
      ensures locals == map k | k in old(locals) && !(k.base == base && k.block < count) :: old(locals)[k]
    {
      for i := 0 to count
        invariant Valid()
        invariant locals == map k | k in old(locals) && !(k.base == base && k.block < i) :: old(locals)[k]
      {
        locals := locals - {Key(base, i)};
      }
    }
  }
}
