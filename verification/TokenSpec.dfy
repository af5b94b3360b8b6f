/**
 Write-token service of one host for one coherence block: the state a public call or a
 message handler may touch, and the effect of each call as a function of that state.

 A call runs under the host's protocol mutex, so it is one step. `TokenService` implements
 these functions in place; `TokenProtocol` runs them on every host over a network.
 */
module TokenSpec {

  /** A request identity is the requesting host with a serial of that host's counter. */
  datatype RequestId = RequestId(host: nat, serial: nat)

  datatype Request = Request(id: RequestId, observed: nat, activate: bool)

  datatype Lease = Lease(version: nat, epoch: nat)

  /** Shared sidecar record of the block, with the RETIRING bit of its object. */
  datatype Block = Block(owner: nat, epoch: nat, version: nat, writeback: nat, retiring: bool)

  datatype Progress = Active | Cancelling | Granted(lease: Lease) | Rejected | Cancelled

  datatype Waiter = Waiter(progress: Progress, abandoned: bool, retain: bool)

  datatype Local = Local(available: bool, held: bool, pending: seq<Request>)

  datatype Host = Host(local: Local, waiters: map<nat, Waiter>)

  datatype Message =
    | Req(to: nat, request: Request)
    | Grant(to: nat, granted: RequestId, version: nat, epoch: nat, activate: bool)
    | Reject(to: nat, rejected: RequestId)
    | Cancel(to: nat, cancelled: RequestId)
    | CancelAck(to: nat, acked: RequestId, tooLate: bool)

  datatype Status = Ok | NotFound | FailedPrecondition | InvalidArgument | Unavailable

  datatype Outcome = Outcome(block: Block, host: Host, sent: seq<Message>, status: Status)

  const Idle := Local(false, false, [])

  function Unchanged(b: Block, s: Host, status: Status): Outcome {
    Outcome(b, s, [], status)
  }

  predicate Writing(b: Block) {
    b.writeback % 2 == 1
  }

  /** The pending queue an old owner hands over, readdressed to the new owner. */
  function Forward(pending: seq<Request>, to: nat): seq<Message> {
    seq(|pending|, i requires 0 <= i < |pending| => Req(to, pending[i]))
  }

  function Activated(b: Block, activate: bool): Block {
    if activate then b.(writeback := b.writeback + 1) else b
  }

  function TakeToken(s: Host): Host {
    s.(local := s.local.(available := true, held := true))
  }

  /** A late grant for an abandoned request leaves a terminal waiter only if someone collects it. */
  function Discard(waiters: map<nat, Waiter>, serial: nat): map<nat, Waiter>
    requires serial in waiters
  {
    if waiters[serial].retain then waiters[serial := waiters[serial].(progress := Cancelled)]
    else waiters - {serial}
  }

  /** The part shared by a local grant and a delivered grant once the requester is known. */
  function Confer(h: nat, b: Block, s: Host, serial: nat): Outcome
    requires serial in s.waiters
    decreases |s.local.pending|, 2
  {
    var lease := Lease(b.version, b.epoch);
    var taken := TakeToken(s);
    if s.waiters[serial].abandoned then
      Release(h, b, taken.(waiters := Discard(s.waiters, serial)), lease, false)
    else
      Outcome(b, taken.(waiters := s.waiters[serial := s.waiters[serial].(progress := Granted(lease))]), [], Ok)
  }

  function GrantTo(h: nat, b: Block, s: Host, r: Request): Outcome
    decreases |s.local.pending|, 3
  {
    if b.retiring then
      Unchanged(b, s.(local := s.local.(held := false)), Ok)
    else if r.id.host == h then
      if r.id.serial !in s.waiters then Unchanged(b, s, NotFound)
      else if r.activate && Writing(b) then Unchanged(b, s, FailedPrecondition)
      else Confer(h, Activated(b, r.activate), s, r.id.serial)
    else
      var b' := b.(owner := r.id.host, epoch := b.epoch + 1);
      Outcome(b', s.(local := Idle),
              [Grant(r.id.host, r.id, b'.version, b'.epoch, r.activate)] + Forward(s.local.pending, r.id.host),
              Ok)
  }

  predicate Accepts(h: nat, b: Block, s: Host, lease: Lease, modified: bool) {
    && b.owner == h && b.epoch == lease.epoch
    && s.local.held
    && (modified ==> Writing(b))
  }

  /** Metadata published by a release: a version per modification, then an even epoch. */
  function Committed(b: Block, modified: bool): Block {
    b.(version := if modified then b.version + 1 else b.version,
       writeback := if Writing(b) then b.writeback + 1 else b.writeback)
  }

  /** Who gets the token after a release: the head of the pending queue, or nobody. */
  function Handoff(h: nat, b: Block, s: Host): Outcome
    decreases |s.local.pending|, 0
  {
    if b.retiring then
      Unchanged(b, s.(local := s.local.(held := false, pending := [])), Ok)
    else if s.local.pending != [] then
      GrantTo(h, b, s.(local := s.local.(pending := s.local.pending[1..])), s.local.pending[0])
    else
      Unchanged(b, s.(local := s.local.(held := false)), Ok)
  }

  function Release(h: nat, b: Block, s: Host, lease: Lease, modified: bool): Outcome
    decreases |s.local.pending|, 1
  {
    if !Accepts(h, b, s, lease, modified) then Unchanged(b, s, FailedPrecondition)
    else Handoff(h, Committed(b, modified), s)
  }

  function BeginWriteback(h: nat, b: Block, s: Host, lease: Lease): Outcome {
    if !Accepts(h, b, s, lease, false) || Writing(b) then Unchanged(b, s, FailedPrecondition)
    else Unchanged(Activated(b, true), s, Ok)
  }

  function RequestToken(h: nat, b: Block, s: Host, serial: nat, activate: bool): Outcome {
    if b.retiring then Unchanged(b, s, FailedPrecondition) else
    var r := Request(RequestId(h, serial), b.version, activate);
    var s' := s.(waiters := s.waiters[serial := Waiter(Active, false, false)]);
    if b.owner != h then Outcome(b, s', [Req(b.owner, r)], Ok)
    else if !s.local.available || s.local.held then
      Unchanged(b, s'.(local := s.local.(pending := s.local.pending + [r])), Ok)
    else if activate && Writing(b) then
      Unchanged(b, s.(waiters := s.waiters - {serial}), FailedPrecondition)
    else
      var b' := Activated(b, activate);
      Unchanged(b', Host(s.local.(held := true),
                         s.waiters[serial := Waiter(Granted(Lease(b'.version, b'.epoch)), false, false)]), Ok)
  }

  function HandleReject(s: Host, serial: nat): Host {
    if serial !in s.waiters || s.waiters[serial].progress.Granted? then s
    else
      var w := s.waiters[serial];
      if w.abandoned && !w.retain then s.(waiters := s.waiters - {serial})
      else s.(waiters := s.waiters[serial := w.(progress := if w.progress.Cancelling? then Cancelled else Rejected)])
  }

  function HandleRequest(h: nat, b: Block, s: Host, r: Request): Outcome {
    if r.observed > b.version then
      if r.id.host == h then Unchanged(b, HandleReject(s, r.id.serial), Ok)
      else Outcome(b, s, [Reject(r.id.host, r.id)], Ok)
    else if b.owner != h then Outcome(b, s, [Req(b.owner, r)], Ok)
    else if !s.local.available || s.local.held then
      Unchanged(b, s.(local := s.local.(pending := s.local.pending + [r])), Ok)
    else GrantTo(h, b, s.(local := s.local.(held := true)), r)
  }

  function HandleGrant(h: nat, b: Block, s: Host, serial: nat, version: nat, epoch: nat, activate: bool): Outcome {
    if b.owner != h || b.epoch != epoch || b.version != version then Unchanged(b, s, FailedPrecondition)
    else if serial !in s.waiters then Unchanged(b, s, NotFound)
    else if activate && Writing(b) then Unchanged(b, s, FailedPrecondition)
    else Confer(h, Activated(b, activate), s, serial)
  }

  function HandleCancelAck(s: Host, serial: nat, tooLate: bool): Host {
    if serial !in s.waiters || tooLate then s
    else
      var w := s.waiters[serial];
      if w.abandoned && !w.retain then s.(waiters := s.waiters - {serial})
      else s.(waiters := s.waiters[serial := w.(progress := Cancelled)])
  }

  /** The identities waiting in a pending queue, with multiplicity. */
  function Waiting(pending: seq<Request>): multiset<RequestId> {
    if pending == [] then multiset{} else multiset{pending[0].id} + Waiting(pending[1..])
  }

  predicate Queued(pending: seq<Request>, id: RequestId) {
    id in Waiting(pending)
  }

  /** The pending queue without the first request of that identity. */
  function Without(pending: seq<Request>, id: RequestId): seq<Request> {
    if pending == [] then []
    else if pending[0].id == id then pending[1..]
    else [pending[0]] + Without(pending[1..], id)
  }

  function HandleCancel(h: nat, b: Block, s: Host, id: RequestId): Outcome {
    if b.owner != h then Outcome(b, s, [Cancel(b.owner, id)], Ok)
    else
      var removed := Queued(s.local.pending, id);
      var s' := s.(local := s.local.(pending := Without(s.local.pending, id)));
      var tooLate := !removed && id.host == h;
      if id.host == h then Unchanged(b, HandleCancelAck(s', id.serial, tooLate), Ok)
      else Outcome(b, s', [CancelAck(id.host, id, tooLate)], Ok)
  }

  function CancelRequest(h: nat, b: Block, s: Host, serial: nat): Outcome {
    if serial !in s.waiters then Unchanged(b, s, NotFound)
    else
      var w := s.waiters[serial];
      var gone := s.(waiters := s.waiters - {serial});
      match w.progress
      case Granted(lease) => Release(h, b, gone, lease, false)
      case Rejected => Unchanged(b, gone, FailedPrecondition)
      case Cancelled => Unchanged(b, gone, FailedPrecondition)
      case _ =>
        if b.retiring then Unchanged(b, gone, Ok)
        else
          var marked := s.(waiters := s.waiters[serial := w.(progress := Cancelling, abandoned := true)]);
          if b.owner != h then Outcome(b, marked, [Cancel(b.owner, RequestId(h, serial))], Ok)
          else HandleCancel(h, b, marked, RequestId(h, serial))
  }

  /** Dispatch of a popped packet; a packet for a retiring object is consumed without effect. */
  function Handle(h: nat, b: Block, s: Host, m: Message): Outcome {
    if b.retiring then Unchanged(b, s, Ok)
    else match m
      case Req(_, r) => HandleRequest(h, b, s, r)
      case Grant(_, id, version, epoch, activate) => HandleGrant(h, b, s, id.serial, version, epoch, activate)
      case Reject(_, id) => Unchanged(b, HandleReject(s, id.serial), Ok)
      case Cancel(_, id) => HandleCancel(h, b, s, id)
      case CancelAck(_, id, tooLate) => Unchanged(b, HandleCancelAck(s, id.serial, tooLate), Ok)
  }
}
