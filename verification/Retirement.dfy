/**
 Retirement of an object and reuse of its storage, over all hosts.

 Storage carries no generation, and versions and token epochs restart when it is reused, so a
 packet, token entry, waiter or replica left over from an old object would be taken for the
 new one. The machine below runs the retirement phases against everything that creates such
 state. Token calls and handlers appear as sections that may create any state of their object
 and send any packet for it; readers and writers appear as references that may create entries
 and replicas. Both do more than the code, so what holds here holds of the code.
 */
module Retirement {
  import TokenProtocol

  datatype Option<+T> = None | Some(value: T)

  datatype Phase = Idle | Closing | Draining | Cleaning | Reclaimable

  /** What a progress callback reads of the control slot. */
  datatype Snapshot = Snapshot(phase: Phase, obj: nat, sequence: nat)

  datatype Control = Control(
    current: Snapshot,
    coordinator: nat,
    closed: set<nat>,
    drained: set<nat>,
    cleaned: set<nat>,
    marks: seq<seq<nat>>)

  datatype AllocationState = Allocated | Retiring

  datatype Object = Object(
    state: AllocationState,
    home: nat,
    keys: set<nat>,
    sealed: set<nat>,
    ops: seq<nat>,
    holders: set<nat>)

  datatype Packet = TokenPacket(obj: nat) | OtherPacket

  /** Ring between two hosts: everything published, and how much of it was popped. */
  datatype Channel = Channel(log: seq<Packet>, consumed: nat)

  /** Where a host's poller thread is. A popped packet is in its handler until it returns. */
  datatype Poller =
    | Scanning
    | Handling(packet: Packet, admitted: bool)
    | Observed(seen: Snapshot)
    | Sampling(seen: Snapshot, cursors: seq<nat>)
    | Swept(seen: Snapshot)

  datatype Host = Host(
    entries: set<nat>,
    held: set<nat>,
    waiters: map<nat, nat>,
    outbound: seq<seq<Packet>>,
    replicas: map<nat, nat>,
    section: Option<nat>,
    poller: Poller)

  datatype Sys = Sys(
    objects: map<nat, Object>,
    hosts: seq<Host>,
    channels: seq<seq<Channel>>,
    control: Control)

  /** The participant mask of `n` configured hosts. */
  function Hosts(n: nat): (mask: set<nat>)
    ensures forall h: nat :: h in mask <==> h < n
  {
    if n == 0 then {} else Hosts(n - 1) + {n - 1}
  }

  // ------------------------------------------------------------------ allocator control calls

  /** BeginRetire on an idle control slot. */
  function Begin(c: Control, obj: nat, coordinator: nat): Control {
    c.(current := Snapshot(Closing, obj, c.current.sequence + 1), coordinator := coordinator,
       closed := {}, drained := {}, cleaned := {})
  }

  datatype AckStatus = Acked | Stale | NotYet

  function CaughtUp(marks: seq<seq<nat>>, cursors: seq<nat>, host: nat): bool {
    forall p :: 0 <= p < |marks| && p != host && p < |cursors| && host < |marks[p]| ==> cursors[p] >= marks[p][host]
  }

  /** AcknowledgeRetirement: the control slot after one host reports for the snapshot it acted on. */
  function Acknowledge(c: Control, o: Object, seen: Snapshot, host: nat, cursors: seq<nat>, n: nat): (Control, Object, AckStatus) {
    if c.current.sequence != seen.sequence || c.current.phase != seen.phase || host >= n then (c, o, Stale)
    else match seen.phase
      case Closing =>
        if host < |o.ops| && o.ops[host] != 0 then (c, o, NotYet)
        else
          var closed := c.closed + {host};
          var marks := if host < |c.marks| then c.marks[host := cursors] else c.marks;
          (c.(closed := closed, marks := marks,
              current := if closed == Hosts(n) then c.current.(phase := Draining) else c.current),
           o.(sealed := o.sealed + {host}), Acked)
      case Draining =>
        if !CaughtUp(c.marks, cursors, host) then (c, o, NotYet)
        else
          var drained := c.drained + {host};
          (c.(drained := drained,
              current := if drained == Hosts(n) then c.current.(phase := Cleaning) else c.current), o, Acked)
      case Cleaning =>
        var cleaned := c.cleaned + {host};
        (c.(cleaned := cleaned,
            current := if cleaned == Hosts(n) then c.current.(phase := Reclaimable) else c.current), o, Acked)
      case _ => (c, o, Acked)
  }

  predicate Acknowledged(c: Control, seen: Snapshot, host: nat) {
    || c.current.sequence != seen.sequence || c.current.phase != seen.phase
    || host in (if seen.phase.Closing? then c.closed else if seen.phase.Draining? then c.drained else c.cleaned)
  }

  // ------------------------------------------------------------------ steps

  datatype Action =
    | Allocate(host: nat, obj: nat, keys: set<nat>)
    | AcquireReference(host: nat, obj: nat, allowRetiring: bool)
    | ReleaseReference(host: nat, obj: nat)
    | OpenSection(host: nat, obj: nat)
    | CloseSection(host: nat)
    | AddEntry(host: nat, obj: nat, key: nat)
    | AddWaiter(host: nat, obj: nat, serial: nat)
    | Hold(host: nat, obj: nat, key: nat)
    | Unhold(host: nat, key: nat)
    | DropWaiter(host: nat, serial: nat)
    | SendToken(host: nat, obj: nat, to: nat)
    | SendOther(host: nat, to: nat)
    | Flush(host: nat, to: nat)
    | InstallReplica(host: nat, obj: nat, key: nat)
    | EraseReplica(host: nat, key: nat)
    | Pop(host: nat, from: nat)
    | AdmitPacket(host: nat)
    | FinishPacket(host: nat)
    | Observe(host: nat)
    | CloseObject(host: nat)
    | Sample(host: nat)
    | Sweep(host: nat)
    | Ack(host: nat)
    | BeginRetire(host: nat, obj: nat)
    | Free(host: nat, obj: nat)

  predicate Live(s: Sys, a: nat) {
    a in s.objects
  }

  /** May this host's token layer act for the object: an open call, or an admitted handler. */
  predicate Acting(h: Host, a: nat) {
    h.section == Some(a) || h.poller == Handling(TokenPacket(a), true)
  }

  predicate HasReference(o: Object, h: nat) {
    h < |o.ops| && o.ops[h] > 0
  }

  function WithoutObject(out: seq<Packet>, a: nat): seq<Packet> {
    if out == [] then []
    else if out[0] == TokenPacket(a) then WithoutObject(out[1..], a)
    else [out[0]] + WithoutObject(out[1..], a)
  }

  function SetHost(s: Sys, h: nat, host: Host): Sys
    requires h < |s.hosts|
  {
    s.(hosts := s.hosts[h := host])
  }

  function SetObject(s: Sys, a: nat, o: Object): Sys {
    s.(objects := s.objects[a := o])
  }

  function SetChannel(s: Sys, p: nat, c: nat, ch: Channel): Sys
    requires p < |s.channels| && c < |s.channels[p]|
  {
    s.(channels := s.channels[p := s.channels[p][c := ch]])
  }

  /** Replicas of a host without those of one object. */
  function Uncached(replicas: map<nat, nat>, a: nat): map<nat, nat> {
    map k | k in replicas && replicas[k] != a :: replicas[k]
  }

  predicate Caches(replicas: map<nat, nat>, a: nat) {
    exists k :: k in replicas && replicas[k] == a
  }

  predicate Enabled(s: Sys, x: Action) {
    && x.host < |s.hosts|
    && var h := s.hosts[x.host];
    match x
    case Allocate(_, a, keys) => a !in s.objects && (forall b :: b in s.objects ==> keys !! s.objects[b].keys)
    case AcquireReference(g, a, allow) =>
      && Live(s, a) && g < |s.objects[a].ops| && g !in s.objects[a].sealed
      && (s.objects[a].state.Allocated? || allow)
    case ReleaseReference(g, a) => Live(s, a) && HasReference(s.objects[a], g)
    case OpenSection(_, a) => h.section.None? && Live(s, a) && s.objects[a].state.Allocated?
    case CloseSection(_) => true
    case AddEntry(g, a, k) => Live(s, a) && k in s.objects[a].keys && (Acting(h, a) || HasReference(s.objects[a], g))
    case AddWaiter(_, a, serial) => Live(s, a) && Acting(h, a) && serial !in h.waiters
    case Hold(_, a, k) => Live(s, a) && Acting(h, a) && k in s.objects[a].keys
    case Unhold(_, _) => true
    case DropWaiter(_, _) => true
    case SendToken(g, a, to) => Live(s, a) && Acting(h, a) && to < |h.outbound| && to != g
    case SendOther(g, to) => g < |s.channels| && to < |s.channels[g]| && to != g
    case Flush(g, to) => g < |s.channels| && to < |s.channels[g]| && to < |h.outbound| && h.outbound[to] != []
    case InstallReplica(g, a, k) => Live(s, a) && k in s.objects[a].keys && HasReference(s.objects[a], g)
    case EraseReplica(_, k) => k in h.replicas && Live(s, h.replicas[k])
    case Pop(g, p) =>
      && h.poller.Scanning? && p < |s.channels| && g < |s.channels[p]|
      && s.channels[p][g].consumed < |s.channels[p][g].log|
    case AdmitPacket(_) => h.poller.Handling? && !h.poller.admitted
    case FinishPacket(_) => h.poller.Handling?
    case Observe(g) =>
      && h.poller.Scanning?
      && (s.control.current.phase.Closing? || s.control.current.phase.Draining? || s.control.current.phase.Cleaning?)
      && !Acknowledged(s.control, s.control.current, g)
    case CloseObject(_) => h.poller.Observed? && h.poller.seen.phase.Closing? && h.section.None?
    case Sample(g) =>
      && (h.poller.Sampling? || (h.poller.Observed? && h.poller.seen.phase.Draining?))
      && var cursors := if h.poller.Sampling? then h.poller.cursors else [];
      && |cursors| < |s.hosts|
      && g < |s.channels| && |cursors| < |s.channels[g]| && |cursors| < |s.channels| && g < |s.channels[|cursors|]|
    case Sweep(_) => h.poller.Observed? && h.poller.seen.phase.Cleaning? && Live(s, h.poller.seen.obj)
    case Ack(_) => (h.poller.Sampling? && |h.poller.cursors| == |s.hosts|) || h.poller.Swept?
    case BeginRetire(g, a) =>
      s.control.current.phase.Idle? && Live(s, a) && s.objects[a].state.Allocated? && s.objects[a].home == g
    case Free(g, a) =>
      && s.control.current.phase.Reclaimable? && s.control.current.obj == a && s.control.coordinator == g
      && Live(s, a) && s.objects[a].holders == {}
      && (forall i :: 0 <= i < |s.objects[a].ops| ==> s.objects[a].ops[i] == 0)
  }

  /** Token closure of one host for one object; true when nothing local keeps it open. */
  function Shut(s: Sys, g: nat): Sys
    requires g < |s.hosts| && s.hosts[g].poller.Observed?
  {
    var h := s.hosts[g];
    var a := h.poller.seen.obj;
    var quiet := h.(waiters := map k | k in h.waiters && h.waiters[k] != a :: h.waiters[k],
                    outbound := seq(|h.outbound|, i requires 0 <= i < |h.outbound| => WithoutObject(h.outbound[i], a)));
    var done := a in s.objects && h.held !! s.objects[a].keys && !HasReference(s.objects[a], g);
    SetHost(s, g, quiet.(poller := if done then Sampling(h.poller.seen, []) else Scanning))
  }

  /** One more queue cursor: what was published before closing, or popped before draining. */
  function Sampled(s: Sys, g: nat): Sys
    requires Enabled(s, Sample(g))
  {
    var h := s.hosts[g];
    var cursors := if h.poller.Sampling? then h.poller.cursors else [];
    var c := |cursors|;
    var cursor := if h.poller.seen.phase.Closing? then |s.channels[g][c].log| else s.channels[c][g].consumed;
    SetHost(s, g, h.(poller := Sampling(h.poller.seen, cursors + [cursor])))
  }

  function AckStep(s: Sys, g: nat): Sys
    requires Enabled(s, Ack(g))
  {
    var h := s.hosts[g];
    var seen := h.poller.seen;
    var idle := SetHost(s, g, h.(poller := Scanning));
    if seen.obj !in s.objects then idle
    else
      var cursors := if h.poller.Sampling? then h.poller.cursors else [];
      var (control, o, _) := Acknowledge(s.control, s.objects[seen.obj], seen, g, cursors, |s.hosts|);
      SetObject(idle, seen.obj, o).(control := control)
  }

  function Next(s: Sys, x: Action): Sys
    requires Enabled(s, x)
  {
    var h := s.hosts[x.host];
    match x
    case Allocate(g, a, keys) =>
      SetHost(SetObject(s, a, Object(Allocated, g, keys, {}, seq(|s.hosts|, _ => 0), {})), g, h.(entries := h.entries + keys))
    case AcquireReference(g, a, _) =>
      SetObject(s, a, s.objects[a].(ops := s.objects[a].ops[g := s.objects[a].ops[g] + 1]))
    case ReleaseReference(g, a) =>
      SetObject(s, a, s.objects[a].(ops := s.objects[a].ops[g := s.objects[a].ops[g] - 1]))
    case OpenSection(g, a) => SetHost(s, g, h.(section := Some(a)))
    case CloseSection(g) => SetHost(s, g, h.(section := None))
    case AddEntry(g, _, k) => SetHost(s, g, h.(entries := h.entries + {k}))
    case AddWaiter(g, a, serial) => SetHost(s, g, h.(waiters := h.waiters[serial := a]))
    case Hold(g, _, k) => SetHost(s, g, h.(held := h.held + {k}))
    case Unhold(g, k) => SetHost(s, g, h.(held := h.held - {k}))
    case DropWaiter(g, serial) => SetHost(s, g, h.(waiters := h.waiters - {serial}))
    case SendToken(g, a, to) =>
      SetHost(s, g, h.(outbound := h.outbound[to := h.outbound[to] + [TokenPacket(a)]]))
    case SendOther(g, to) =>
      SetChannel(s, g, to, s.channels[g][to].(log := s.channels[g][to].log + [OtherPacket]))
    case Flush(g, to) =>
      SetChannel(SetHost(s, g, h.(outbound := h.outbound[to := h.outbound[to][1..]])), g, to,
                 s.channels[g][to].(log := s.channels[g][to].log + [h.outbound[to][0]]))
    case InstallReplica(g, a, k) =>
      SetObject(SetHost(s, g, h.(replicas := h.replicas[k := a])), a,
                s.objects[a].(holders := s.objects[a].holders + {g}))
    case EraseReplica(g, k) =>
      var a := h.replicas[k];
      var rest := h.replicas - {k};
      SetObject(SetHost(s, g, h.(replicas := rest)), a,
                s.objects[a].(holders := if Caches(rest, a) then s.objects[a].holders else s.objects[a].holders - {g}))
    case Pop(g, p) =>
      SetChannel(SetHost(s, g, h.(poller := Handling(s.channels[p][g].log[s.channels[p][g].consumed], false))), p, g,
                 s.channels[p][g].(consumed := s.channels[p][g].consumed + 1))
    case AdmitPacket(g) =>
      var p := h.poller.packet;
      var drop := p.TokenPacket? && p.obj in s.objects && s.objects[p.obj].state.Retiring?;
      SetHost(s, g, h.(poller := if drop then Scanning else Handling(p, true)))
    case FinishPacket(g) => SetHost(s, g, h.(poller := Scanning))
    case Observe(g) => SetHost(s, g, h.(poller := Observed(s.control.current)))
    case CloseObject(g) => Shut(s, g)
    case Sample(g) => Sampled(s, g)
    case Sweep(g) =>
      var a := h.poller.seen.obj;
      SetObject(SetHost(s, g, h.(entries := h.entries - s.objects[a].keys, replicas := Uncached(h.replicas, a),
                                 poller := Swept(h.poller.seen))),
                a, s.objects[a].(holders := s.objects[a].holders - {g}))
    case Ack(g) => AckStep(s, g)
    case BeginRetire(g, a) =>
      SetObject(s.(control := Begin(s.control, a, g)), a, s.objects[a].(state := Retiring))
    case Free(g, a) =>
      s.(objects := s.objects - {a}, control := s.control.(current := s.control.current.(phase := Idle)))
  }

  function Init(n: nat): Sys {
    Sys(map[],
        seq(n, _ => Host({}, {}, map[], seq(n, _ => []), map[], None, Scanning)),
        seq(n, _ => seq(n, _ => Channel([], 0))),
        Control(Snapshot(Idle, 0, 0), 0, {}, {}, {}, seq(n, _ => seq(n, _ => 0))))
  }

  // ------------------------------------------------------------------ invariant: everything is live

  predicate PacketLive(objects: map<nat, Object>, p: Packet) {
    p.TokenPacket? ==> p.obj in objects
  }

  ghost predicate KeyLive(objects: map<nat, Object>, k: nat) {
    exists a :: a in objects && k in objects[a].keys
  }

  /** All state of a host belongs to objects that still exist. */
  ghost predicate HostLive(objects: map<nat, Object>, h: Host) {
    && (forall k :: k in h.entries ==> KeyLive(objects, k))
    && (forall k :: k in h.held ==> KeyLive(objects, k))
    && (forall w :: w in h.waiters ==> h.waiters[w] in objects)
    && (forall c, p :: 0 <= c < |h.outbound| && p in h.outbound[c] ==> PacketLive(objects, p))
    && (forall k :: k in h.replicas ==> h.replicas[k] in objects && k in objects[h.replicas[k]].keys)
    && (h.section.Some? ==> h.section.value in objects)
    && (h.poller.Handling? ==> PacketLive(objects, h.poller.packet))
  }

  ghost predicate ChannelLive(objects: map<nat, Object>, ch: Channel) {
    && ch.consumed <= |ch.log|
    && (forall i :: ch.consumed <= i < |ch.log| ==> PacketLive(objects, ch.log[i]))
  }

  ghost predicate Shape(s: Sys) {
    && |s.channels| == |s.hosts| == |s.control.marks|
    && (forall p :: 0 <= p < |s.channels| ==> |s.channels[p]| == |s.hosts|)
    && (forall p :: 0 <= p < |s.control.marks| ==> |s.control.marks[p]| == |s.hosts|)
    && (forall h :: 0 <= h < |s.hosts| ==> |s.hosts[h].outbound| == |s.hosts|)
    && (forall a :: a in s.objects ==> |s.objects[a].ops| == |s.hosts|)
    && (forall h :: 0 <= h < |s.hosts| ==> s.channels[h][h].log == [] && s.hosts[h].outbound[h] == [])
  }

  ghost predicate ChannelsLive(s: Sys) {
    forall p, c :: 0 <= p < |s.channels| && 0 <= c < |s.channels[p]| ==> ChannelLive(s.objects, s.channels[p][c])
  }

  ghost predicate KeysDisjoint(objects: map<nat, Object>) {
    forall a, b :: a in objects && b in objects && a != b ==> objects[a].keys !! objects[b].keys
  }

  /** The replica-holder mask of an object is the set of hosts that cache one of its blocks. */
  ghost predicate HoldersOk(objects: map<nat, Object>, hosts: seq<Host>) {
    && (forall a, h :: a in objects && 0 <= h < |hosts| ==> (h in objects[a].holders <==> Caches(hosts[h].replicas, a)))
    && (forall a, h :: a in objects && h in objects[a].holders ==> h < |hosts|)
  }

  ghost predicate AllLive(s: Sys) {
    && (forall h :: 0 <= h < |s.hosts| ==> HostLive(s.objects, s.hosts[h]))
    && ChannelsLive(s) && KeysDisjoint(s.objects) && HoldersOk(s.objects, s.hosts)
  }

  // ------------------------------------------------------------------ invariant: the control slot

  ghost predicate ControlOk(s: Sys) {
    var c := s.control;
    var n := |s.hosts|;
    && c.closed <= Hosts(n) && c.drained <= Hosts(n) && c.cleaned <= Hosts(n)
    && (c.current.phase.Idle? ==> forall a :: a in s.objects ==> s.objects[a].state.Allocated? && s.objects[a].sealed == {})
    && (!c.current.phase.Idle? ==>
          && c.current.obj in s.objects && s.objects[c.current.obj].state.Retiring?
          && s.objects[c.current.obj].sealed == c.closed
          && (forall a :: a in s.objects && a != c.current.obj ==> s.objects[a].state.Allocated? && s.objects[a].sealed == {}))
    && (c.current.phase.Closing? ==> c.drained == {} && c.cleaned == {} && c.closed != Hosts(n))
    && (c.current.phase.Draining? ==> c.closed == Hosts(n) && c.cleaned == {} && c.drained != Hosts(n))
    && (c.current.phase.Cleaning? ==> c.closed == Hosts(n) && c.drained == Hosts(n) && c.cleaned != Hosts(n))
    && (c.current.phase.Reclaimable? ==> c.closed == Hosts(n) && c.drained == Hosts(n) && c.cleaned == Hosts(n))
  }

  // ------------------------------------------------------------------ invariant: the cut

  /** Nothing on this host can produce activity for a retiring object any more. */
  ghost predicate Quiet(h: Host, a: nat, keys: set<nat>) {
    && (forall w :: w in h.waiters ==> h.waiters[w] != a)
    && (forall c, p :: 0 <= c < |h.outbound| && p in h.outbound[c] ==> p != TokenPacket(a))
    && !Acting(h, a)
    && h.held !! keys
  }

  /** Every packet of the object on these channels lies below the given cursors. */
  ghost predicate Below(row: seq<Channel>, cursors: seq<nat>, a: nat) {
    forall c, i :: 0 <= c < |row| && c < |cursors| && 0 <= i < |row[c].log| && row[c].log[i] == TokenPacket(a) ==> i < cursors[c]
  }

  /** No packet of the object is still to be popped or handled by this host. */
  ghost predicate Drained(col: seq<Channel>, poller: Poller, a: nat) {
    && (forall p, i :: 0 <= p < |col| && col[p].consumed <= i < |col[p].log| ==> col[p].log[i] != TokenPacket(a))
    && !(poller.Handling? && poller.packet == TokenPacket(a))
  }

  ghost predicate Clean(h: Host, a: nat, keys: set<nat>) {
    h.entries !! keys && !Caches(h.replicas, a)
  }

  /** The channels a host consumes, by producer. */
  function Inbound(channels: seq<seq<Channel>>, h: nat): seq<Channel>
    requires forall p :: 0 <= p < |channels| ==> h < |channels[p]|
  {
    seq(|channels|, p requires 0 <= p < |channels| => channels[p][h])
  }

  /** A poller inside its progress callback acts on the current phase, unacknowledged by its host. */
  predicate PollerOk(c: Control, poller: Poller, h: nat, n: nat) {
    && (poller.Observed? || poller.Sampling? || poller.Swept? ==>
          && poller.seen == c.current && !Acknowledged(c, c.current, h)
          && (c.current.phase.Closing? || c.current.phase.Draining? || c.current.phase.Cleaning?))
    && (poller.Swept? ==> c.current.phase.Cleaning?)
    && (poller.Sampling? ==> |poller.cursors| <= n && !c.current.phase.Cleaning?)
  }

  /** What one host's closing acknowledgement certifies. */
  ghost predicate ClosedOk(c: Control, o: Object, host: Host, h: nat, row: seq<Channel>) {
    && (h in c.closed ==>
          && Quiet(host, c.current.obj, o.keys) && !HasReference(o, h)
          && h < |c.marks| && Below(row, c.marks[h], c.current.obj))
    && (host.poller.Sampling? && c.current.phase.Closing? ==>
          Quiet(host, c.current.obj, o.keys) && Below(row, host.poller.cursors, c.current.obj))
  }

  /** What its draining acknowledgement certifies. */
  ghost predicate DrainedOk(c: Control, poller: Poller, h: nat, col: seq<Channel>) {
    && (h in c.drained ==> Drained(col, poller, c.current.obj))
    && (poller.Sampling? && c.current.phase.Draining? ==>
          forall p :: 0 <= p < |poller.cursors| && p < |col| ==> poller.cursors[p] <= col[p].consumed)
  }

  /** What its cleaning acknowledgement certifies. */
  ghost predicate CleanedOk(c: Control, o: Object, host: Host, h: nat) {
    h in c.cleaned || host.poller.Swept? ==> Clean(host, c.current.obj, o.keys)
  }

  /** How far one host has got, by the masks and by its own poller. */
  ghost predicate Progress(s: Sys, h: nat)
    requires h < |s.hosts| && Shape(s)
  {
    && PollerOk(s.control, s.hosts[h].poller, h, |s.hosts|)
    && (!s.control.current.phase.Idle? && s.control.current.obj in s.objects ==>
          && ClosedOk(s.control, s.objects[s.control.current.obj], s.hosts[h], h, s.channels[h])
          && DrainedOk(s.control, s.hosts[h].poller, h, Inbound(s.channels, h))
          && CleanedOk(s.control, s.objects[s.control.current.obj], s.hosts[h], h))
  }

  ghost predicate Inv(s: Sys) {
    && Shape(s) && AllLive(s) && ControlOk(s)
    && (forall h :: 0 <= h < |s.hosts| ==> Progress(s, h))
  }

  // ------------------------------------------------------------------ steps of one host

  /** A step that changes one host only is safe when that host's own clauses survive. */
  lemma HostStep(s: Sys, s': Sys, h: nat, host: Host)
    requires Inv(s) && h < |s.hosts| && s' == SetHost(s, h, host)
    requires HostLive(s.objects, host) && host.replicas == s.hosts[h].replicas
    requires |host.outbound| == |s.hosts| && host.outbound[h] == []
    requires Shape(s') && Progress(s', h)
    ensures Inv(s')
  {
    forall k | 0 <= k < |s'.hosts| ensures Progress(s', k) { assert Progress(s, k); }
    forall k | 0 <= k < |s'.hosts| ensures HostLive(s'.objects, s'.hosts[k]) { assert HostLive(s.objects, s.hosts[k]); }
  }

  lemma ShapeHost(s: Sys, s': Sys, h: nat, host: Host)
    requires Shape(s) && h < |s.hosts| && s' == SetHost(s, h, host)
    requires |host.outbound| == |s.hosts| && host.outbound[h] == []
    ensures Shape(s')
  {
  }

  /** Entries, waiters and holds come from a call in progress or a reference, never once closed. */
  lemma LocalKeeps(s: Sys, x: Action)
    requires Inv(s) && Enabled(s, x)
    requires x.OpenSection? || x.CloseSection? || x.Unhold? || x.DropWaiter? || x.AddEntry? || x.AddWaiter? || x.Hold?
    ensures Inv(Next(s, x))
  {
    var g := x.host;
    var s' := Next(s, x);
    var host := s'.hosts[g];
    LocalLive(s, x);
    LocalProgress(s, x);
    hide Inv;
    HostStep(s, s', g, host);
  }

  lemma LocalLive(s: Sys, x: Action)
    requires Inv(s) && Enabled(s, x)
    requires x.OpenSection? || x.CloseSection? || x.Unhold? || x.DropWaiter? || x.AddEntry? || x.AddWaiter? || x.Hold?
    ensures HostLive(s.objects, Next(s, x).hosts[x.host]) && Shape(Next(s, x))
    ensures Next(s, x).hosts[x.host].outbound == s.hosts[x.host].outbound
    ensures Next(s, x).hosts[x.host].replicas == s.hosts[x.host].replicas
  {
    hide Progress, ControlOk;
    assert HostLive(s.objects, s.hosts[x.host]);
    ShapeHost(s, Next(s, x), x.host, Next(s, x).hosts[x.host]);
  }

  lemma LocalProgress(s: Sys, x: Action)
    requires Inv(s) && Enabled(s, x) && Shape(Next(s, x))
    requires x.OpenSection? || x.CloseSection? || x.Unhold? || x.DropWaiter? || x.AddEntry? || x.AddWaiter? || x.Hold?
    ensures Progress(Next(s, x), x.host)
  {
    assert Progress(s, x.host);
    hide HostLive, Inv;
    if x.AddEntry? || x.Hold? { KeyProgress(s, x); } else { CallProgress(s, x); }
  }

  lemma CallProgress(s: Sys, x: Action)
    requires Shape(s) && ControlOk(s) && Enabled(s, x) && Progress(s, x.host) && Shape(Next(s, x))
    requires x.OpenSection? || x.CloseSection? || x.Unhold? || x.DropWaiter? || x.AddWaiter?
    ensures Progress(Next(s, x), x.host)
  {
    hide Below, Drained;
  }

  lemma KeyProgress(s: Sys, x: Action)
    requires Shape(s) && ControlOk(s) && AllLive(s) && Enabled(s, x) && Progress(s, x.host) && Shape(Next(s, x))
    requires x.AddEntry? || x.Hold?
    ensures Progress(Next(s, x), x.host)
  {
    var a := s.control.current.obj;
    assert x.obj != a && a in s.objects ==> x.key !in s.objects[a].keys;
    hide AllLive, Below, Drained, Shape;
  }

  // ------------------------------------------------------------------ references

  ghost predicate SameKeys(objects: map<nat, Object>, objects': map<nat, Object>) {
    && (forall a :: a in objects <==> a in objects')
    && (forall a :: a in objects ==> objects'[a].keys == objects[a].keys)
  }

  lemma LiveFrame(objects: map<nat, Object>, objects': map<nat, Object>, h: Host)
    requires SameKeys(objects, objects') && HostLive(objects, h)
    ensures HostLive(objects', h)
  {
    forall k | KeyLive(objects, k) ensures KeyLive(objects', k) {
      var a :| a in objects && k in objects[a].keys;
      assert a in objects' && k in objects'[a].keys;
    }
    forall k | k in h.entries || k in h.held ensures KeyLive(objects', k) { assert KeyLive(objects, k); }
    forall k | k in h.replicas ensures h.replicas[k] in objects' && k in objects'[h.replicas[k]].keys {
      assert h.replicas[k] in objects;
    }
    forall c, p | 0 <= c < |h.outbound| && p in h.outbound[c] ensures PacketLive(objects', p) {
      assert PacketLive(objects, p);
    }
  }

  lemma ReferenceKeeps(s: Sys, s': Sys, a: nat, o: Object)
    requires Inv(s) && a in s.objects && s' == SetObject(s, a, o)
    requires o == s.objects[a].(ops := o.ops) && |o.ops| == |s.hosts|
    requires forall h :: HasReference(o, h) ==> HasReference(s.objects[a], h) || h !in o.sealed
    ensures Inv(s')
  {
    assert SameKeys(s.objects, s'.objects);
    MetadataFrame(s, s', a);
    hide HostLive, ChannelLive;
    forall h | 0 <= h < |s'.hosts| ensures HostLive(s'.objects, s'.hosts[h]) { LiveFrame(s.objects, s'.objects, s.hosts[h]); }
    forall h | 0 <= h < |s'.hosts| ensures Progress(s', h) {
      hide Quiet, Below, Drained, Clean;
      assert Progress(s, h);
    }
  }

  lemma AcquireKeeps(s: Sys, x: Action)
    requires Inv(s) && Enabled(s, x) && (x.AcquireReference? || x.ReleaseReference?)
    ensures Inv(Next(s, x))
  {
    hide AllLive, Progress;
    var s' := Next(s, x);
    assert |s.objects[x.obj].ops| == |s.hosts|;
    ReferenceKeeps(s, s', x.obj, s'.objects[x.obj]);
  }

  // ------------------------------------------------------------------ packets

  /** Packets only enter the deferred queues from a call in progress. */
  lemma SendKeeps(s: Sys, g: nat, a: nat, to: nat)
    requires Inv(s) && Enabled(s, SendToken(g, a, to))
    ensures Inv(Next(s, SendToken(g, a, to)))
  {
    var s' := Next(s, SendToken(g, a, to));
    var host := s'.hosts[g];
    assert HostLive(s.objects, s.hosts[g]);
    assert HostLive(s.objects, host);
    assert Progress(s, g);
    ShapeHost(s, s', g, host);
    SendProgress(s, s', g, a, to);
    hide Inv, HostLive, Progress;
    HostStep(s, s', g, host);
  }

  lemma SendProgress(s: Sys, s': Sys, g: nat, a: nat, to: nat)
    requires Shape(s) && Shape(s') && ControlOk(s) && Enabled(s, SendToken(g, a, to)) && Progress(s, g)
    requires s' == SetHost(s, g, s.hosts[g].(outbound := s.hosts[g].outbound[to := s.hosts[g].outbound[to] + [TokenPacket(a)]]))
    ensures Progress(s', g)
  {
    hide Below, Drained;
    var c := s.control;
    if !c.current.phase.Idle? && c.current.obj in s.objects && Quiet(s.hosts[g], c.current.obj, s.objects[c.current.obj].keys) {
      assert a != c.current.obj;
      assert Quiet(s'.hosts[g], c.current.obj, s.objects[c.current.obj].keys);
    }
  }

  /** Publishing on one channel: above every watermark taken so far, unless it was already there. */
  lemma PublishKeeps(s: Sys, s': Sys, g: nat, to: nat, p: Packet, host: Host)
    requires Inv(s) && g < |s.hosts| && to < |s.hosts| && to != g && PacketLive(s.objects, p)
    requires s' == SetChannel(SetHost(s, g, host), g, to, s.channels[g][to].(log := s.channels[g][to].log + [p]))
    requires HostLive(s.objects, host) && host.replicas == s.hosts[g].replicas && host.poller == s.hosts[g].poller
    requires |host.outbound| == |s.hosts| && host.outbound[g] == []
    requires !s.control.current.phase.Idle? ==>
      var a := s.control.current.obj;
      a in s.objects ==>
        && (p == TokenPacket(a) ==> !Quiet(s.hosts[g], a, s.objects[a].keys))
        && (Quiet(s.hosts[g], a, s.objects[a].keys) ==> Quiet(host, a, s.objects[a].keys))
        && (Clean(s.hosts[g], a, s.objects[a].keys) ==> Clean(host, a, s.objects[a].keys))
    ensures Inv(s')
  {
    PublishShape(s, s', g, to, p, host);
    PublishLive(s, s', g, to, p, host);
    forall h | 0 <= h < |s'.hosts| ensures Progress(s', h) {
      assert Progress(s, h);
      PublishProgress(s, s', g, to, p, host, h);
    }
  }

  lemma PublishShape(s: Sys, s': Sys, g: nat, to: nat, p: Packet, host: Host)
    requires Shape(s) && g < |s.hosts| && to < |s.hosts| && to != g
    requires s' == SetChannel(SetHost(s, g, host), g, to, s.channels[g][to].(log := s.channels[g][to].log + [p]))
    requires |host.outbound| == |s.hosts| && host.outbound[g] == []
    ensures Shape(s')
  {
  }

  lemma PublishLive(s: Sys, s': Sys, g: nat, to: nat, p: Packet, host: Host)
    requires Shape(s) && AllLive(s) && ControlOk(s) && g < |s.hosts| && to < |s.hosts| && to != g && PacketLive(s.objects, p)
    requires s' == SetChannel(SetHost(s, g, host), g, to, s.channels[g][to].(log := s.channels[g][to].log + [p]))
    requires HostLive(s.objects, host) && host.replicas == s.hosts[g].replicas
    ensures AllLive(s') && ControlOk(s')
  {
    forall h | 0 <= h < |s'.hosts| ensures HostLive(s'.objects, s'.hosts[h]) {
      if h != g { assert HostLive(s.objects, s.hosts[h]); }
    }
    forall q, c | 0 <= q < |s'.channels| && 0 <= c < |s'.channels[q]| ensures ChannelLive(s'.objects, s'.channels[q][c]) {
      assert ChannelLive(s.objects, s.channels[q][c]);
    }
  }

  lemma PublishProgress(s: Sys, s': Sys, g: nat, to: nat, p: Packet, host: Host, h: nat)
    requires Shape(s) && Shape(s') && ControlOk(s) && g < |s.hosts| && to < |s.hosts| && to != g && h < |s.hosts|
    requires s' == SetChannel(SetHost(s, g, host), g, to, s.channels[g][to].(log := s.channels[g][to].log + [p]))
    requires host.poller == s.hosts[g].poller
    requires !s.control.current.phase.Idle? ==>
      var a := s.control.current.obj;
      a in s.objects ==>
        && (p == TokenPacket(a) ==> !Quiet(s.hosts[g], a, s.objects[a].keys))
        && (Quiet(s.hosts[g], a, s.objects[a].keys) ==> Quiet(host, a, s.objects[a].keys))
        && (Clean(s.hosts[g], a, s.objects[a].keys) ==> Clean(host, a, s.objects[a].keys))
    requires Progress(s, h) && Progress(s, g)
    ensures Progress(s', h)
  {
    hide Quiet, Clean;
    var c := s.control;
    var a := c.current.obj;
    if !c.current.phase.Idle? && a in s.objects {
      assert p == TokenPacket(a) ==> g !in c.closed;
      assert h in c.drained ==> g in c.closed;
      var row, row' := s.channels[h], s'.channels[h];
      forall cursors | Below(row, cursors, a) && (h == g ==> p != TokenPacket(a)) ensures Below(row', cursors, a) {
        BelowFrame(row, row', cursors, a);
      }
      var col, col' := Inbound(s.channels, h), Inbound(s'.channels, h);
      assert forall q :: 0 <= q < |col| ==>
        col'[q].consumed == col[q].consumed && (col'[q].log == col[q].log || (q == g && col'[q].log == col[q].log + [p]));
      assert ClosedOk(c, s'.objects[a], s'.hosts[h], h, row');
    }
  }

  lemma BelowFrame(row: seq<Channel>, row': seq<Channel>, cursors: seq<nat>, a: nat)
    requires Below(row, cursors, a) && |row'| == |row|
    requires forall c :: 0 <= c < |row| ==>
      || row'[c].log == row[c].log
      || (|row'[c].log| == |row[c].log| + 1 && row'[c].log[..|row[c].log|] == row[c].log && row'[c].log[|row[c].log|] != TokenPacket(a))
    ensures Below(row', cursors, a)
  {
    forall c, i | 0 <= c < |row'| && c < |cursors| && 0 <= i < |row'[c].log| && row'[c].log[i] == TokenPacket(a)
      ensures i < cursors[c]
    {
      assert i < |row[c].log| && row[c].log[i] == row'[c].log[i];
    }
  }

  lemma FlushKeeps(s: Sys, g: nat, to: nat)
    requires Inv(s) && Enabled(s, Flush(g, to))
    ensures Inv(Next(s, Flush(g, to)))
  {
    var h := s.hosts[g];
    var p := h.outbound[to][0];
    var host := h.(outbound := h.outbound[to := h.outbound[to][1..]]);
    assert HostLive(s.objects, h);
    assert p in h.outbound[to] && PacketLive(s.objects, p);
    assert to != g;
    assert HostLive(s.objects, host);
    hide AllLive, ControlOk, Progress, HostLive, Shape;
    PublishKeeps(s, Next(s, Flush(g, to)), g, to, p, host);
  }

  lemma SendOtherKeeps(s: Sys, g: nat, to: nat)
    requires Inv(s) && Enabled(s, SendOther(g, to))
    ensures Inv(Next(s, SendOther(g, to)))
  {
    var host := s.hosts[g];
    assert HostLive(s.objects, host);
    assert SetHost(s, g, host) == s;
    hide AllLive, ControlOk, Progress, HostLive;
    PublishKeeps(s, Next(s, SendOther(g, to)), g, to, OtherPacket, host);
  }

  lemma PopKeeps(s: Sys, g: nat, p: nat)
    requires Inv(s) && Enabled(s, Pop(g, p))
    ensures Inv(Next(s, Pop(g, p)))
  {
    var s' := Next(s, Pop(g, p));
    PopLive(s, s', g, p);
    forall h | 0 <= h < |s'.hosts| ensures Progress(s', h) {
      assert Progress(s, h);
      PopProgress(s, s', g, p, h);
    }
  }

  lemma PopLive(s: Sys, s': Sys, g: nat, p: nat)
    requires Inv(s) && Enabled(s, Pop(g, p)) && s' == Next(s, Pop(g, p))
    ensures Shape(s') && AllLive(s') && ControlOk(s')
  {
    hide Progress;
    assert ChannelLive(s.objects, s.channels[p][g]);
    forall h | 0 <= h < |s'.hosts| ensures HostLive(s'.objects, s'.hosts[h]) {
      assert HostLive(s.objects, s.hosts[h]);
    }
    forall q, c | 0 <= q < |s'.channels| && 0 <= c < |s'.channels[q]| ensures ChannelLive(s'.objects, s'.channels[q][c]) {
      assert ChannelLive(s.objects, s.channels[q][c]);
    }
  }

  lemma PopProgress(s: Sys, s': Sys, g: nat, p: nat, h: nat)
    requires Shape(s) && Shape(s') && ControlOk(s) && Enabled(s, Pop(g, p)) && s' == Next(s, Pop(g, p)) && h < |s.hosts|
    requires Progress(s, h)
    ensures Progress(s', h)
  {
    var c := s.control;
    var a := c.current.obj;
    if !c.current.phase.Idle? && a in s.objects {
      var row, row' := s.channels[h], s'.channels[h];
      forall cursors | Below(row, cursors, a) ensures Below(row', cursors, a) { BelowFrame(row, row', cursors, a); }
      var col, col' := Inbound(s.channels, h), Inbound(s'.channels, h);
      assert forall q :: 0 <= q < |col| ==> col'[q].log == col[q].log && col'[q].consumed >= col[q].consumed;
      hide Below;
      assert ClosedOk(c, s'.objects[a], s'.hosts[h], h, row');
      if h in c.drained && h == g {
        assert col[p].consumed < |col[p].log| && col[p].log[col[p].consumed] != TokenPacket(a);
      }
      assert DrainedOk(c, s'.hosts[h].poller, h, col');
    }
  }

  /** Steps of a poller that change only where it is. */
  lemma PollerKeeps(s: Sys, s': Sys, g: nat, poller: Poller)
    requires Inv(s) && g < |s.hosts| && s' == SetHost(s, g, s.hosts[g].(poller := poller))
    requires poller.Handling? ==> PacketLive(s.objects, poller.packet)
    requires Shape(s') ==> Progress(s', g)
    ensures Inv(s')
  {
    var host := s.hosts[g].(poller := poller);
    assert HostLive(s.objects, s.hosts[g]);
    assert HostLive(s.objects, host);
    ShapeHost(s, s', g, host);
    hide AllLive, ControlOk, Progress, HostLive, Shape;
    HostStep(s, s', g, host);
  }

  lemma ReturnKeeps(s: Sys, x: Action)
    requires Inv(s) && Enabled(s, x) && (x.AdmitPacket? || x.FinishPacket? || x.Observe?)
    ensures Inv(Next(s, x))
  {
    var g := x.host;
    var s' := Next(s, x);
    assert HostLive(s.objects, s.hosts[g]) && Progress(s, g);
    assert s'.hosts[g] == s.hosts[g].(poller := s'.hosts[g].poller);
    ReturnProgress(s, x, s');
    hide AllLive, ControlOk, Progress, HostLive, Shape;
    PollerKeeps(s, s', g, s'.hosts[g].poller);
  }

  lemma ReturnProgress(s: Sys, x: Action, s': Sys)
    requires Shape(s) && ControlOk(s) && Enabled(s, x) && s' == Next(s, x) && Progress(s, x.host)
    requires x.AdmitPacket? || x.FinishPacket? || x.Observe?
    requires HostLive(s.objects, s.hosts[x.host])
    ensures Shape(s') ==> Progress(s', x.host)
  {
    hide Below, Shape;
  }

  lemma SampleKeeps(s: Sys, g: nat)
    requires Inv(s) && Enabled(s, Sample(g))
    ensures Inv(Next(s, Sample(g)))
  {
    var s' := Next(s, Sample(g));
    assert Progress(s, g);
    assert s'.hosts[g] == s.hosts[g].(poller := s'.hosts[g].poller);
    SampleProgress(s, g, s');
    hide AllLive, ControlOk, Progress, HostLive, Shape;
    PollerKeeps(s, s', g, s'.hosts[g].poller);
  }

  lemma SampleProgress(s: Sys, g: nat, s': Sys)
    requires Shape(s) && ControlOk(s) && Enabled(s, Sample(g)) && s' == Next(s, Sample(g)) && Progress(s, g)
    ensures Shape(s') ==> Progress(s', g)
  {
    hide Drained;
  }

  // ------------------------------------------------------------------ local closure

  lemma {:induction false} WithoutFacts(out: seq<Packet>, a: nat)
    ensures TokenPacket(a) !in WithoutObject(out, a)
    ensures forall p :: p in WithoutObject(out, a) ==> p in out
    ensures out == [] ==> WithoutObject(out, a) == []
  {
    if out != [] { WithoutFacts(out[1..], a); }
  }

  lemma CloseKeeps(s: Sys, g: nat)
    requires Inv(s) && Enabled(s, CloseObject(g))
    ensures Inv(Next(s, CloseObject(g)))
  {
    var s' := Next(s, CloseObject(g));
    var host := s'.hosts[g];
    var a := s.hosts[g].poller.seen.obj;
    forall c | 0 <= c < |host.outbound| ensures TokenPacket(a) !in host.outbound[c]
      ensures forall p :: p in host.outbound[c] ==> p in s.hosts[g].outbound[c]
      ensures s.hosts[g].outbound[c] == [] ==> host.outbound[c] == []
    {
      WithoutFacts(s.hosts[g].outbound[c], a);
    }
    assert HostLive(s.objects, s.hosts[g]) && Progress(s, g);
    assert s.hosts[g].outbound[g] == [];
    CloseLive(s.objects, s.hosts[g], host);
    ShapeHost(s, s', g, host);
    CloseProgress(s, s', g);
    hide AllLive, ControlOk, Progress, HostLive, Shape;
    HostStep(s, s', g, host);
  }

  lemma CloseLive(objects: map<nat, Object>, h: Host, h': Host)
    requires HostLive(objects, h) && !h'.poller.Handling?
    requires h' == h.(waiters := h'.waiters, outbound := h'.outbound, poller := h'.poller)
    requires forall w :: w in h'.waiters ==> w in h.waiters && h'.waiters[w] == h.waiters[w]
    requires |h'.outbound| == |h.outbound|
    requires forall c, p :: 0 <= c < |h'.outbound| && p in h'.outbound[c] ==> p in h.outbound[c]
    ensures HostLive(objects, h')
  {
  }

  lemma CloseProgress(s: Sys, s': Sys, g: nat)
    requires Shape(s) && Shape(s') && ControlOk(s) && Enabled(s, CloseObject(g)) && s' == Next(s, CloseObject(g)) && Progress(s, g)
    requires forall c :: 0 <= c < |s'.hosts[g].outbound| ==> TokenPacket(s.hosts[g].poller.seen.obj) !in s'.hosts[g].outbound[c]
    ensures Progress(s', g)
  {
    hide Drained, WithoutObject;
    assert s'.hosts[g].poller.Sampling? ==> Below(s.channels[g], [], s.control.current.obj);
  }

  // ------------------------------------------------------------------ replicas

  /** Replica changes of one host for one object, with the holder bit kept exact. */
  lemma ReplicaStep(s: Sys, s': Sys, g: nat, a: nat, host: Host, o: Object)
    requires Inv(s) && g < |s.hosts| && a in s.objects
    requires s' == SetObject(SetHost(s, g, host), a, o)
    requires o == s.objects[a].(holders := o.holders)
    requires host == s.hosts[g].(entries := host.entries, replicas := host.replicas, poller := host.poller)
    requires host.entries <= s.hosts[g].entries
    requires host.poller == s.hosts[g].poller || !host.poller.Handling?
    requires forall h :: h != g ==> (h in o.holders <==> h in s.objects[a].holders)
    requires g in o.holders <==> Caches(host.replicas, a)
    requires forall b :: b != a ==> (Caches(host.replicas, b) <==> Caches(s.hosts[g].replicas, b))
    requires forall k :: k in host.replicas ==>
      (k in s.hosts[g].replicas && s.hosts[g].replicas[k] == host.replicas[k]) || (host.replicas[k] == a && k in o.keys)
    ensures Shape(s') && AllLive(s') && ControlOk(s')
  {
    hide Progress;
    assert SameKeys(s.objects, s'.objects);
    ReplicaHolders(s.objects, s.hosts, s'.objects, s'.hosts, g, a);
    MetadataFrame(s, s', a);
    hide Shape, ControlOk, ChannelsLive, HoldersOk;
    ReplicaLive(s'.objects, s.hosts[g], host) by { LiveFrame(s.objects, s'.objects, s.hosts[g]); }
    hide HoldersOk, ChannelsLive, HostLive;
    forall h | 0 <= h < |s'.hosts| ensures HostLive(s'.objects, s'.hosts[h]) {
      if h != g { LiveFrame(s.objects, s'.objects, s.hosts[h]); }
    }
  }

  /** Fields of one object that no layout, channel or control clause looks at. */
  lemma MetadataFrame(s: Sys, s': Sys, a: nat)
    requires Shape(s) && ControlOk(s) && ChannelsLive(s) && a in s.objects && a in s'.objects
    requires s'.objects == s.objects[a := s'.objects[a]] && s'.channels == s.channels && s'.control == s.control
    requires s'.objects[a] == s.objects[a].(ops := s'.objects[a].ops, holders := s'.objects[a].holders)
    requires |s'.objects[a].ops| == |s.hosts| == |s'.hosts|
    requires forall h :: 0 <= h < |s.hosts| ==> s'.hosts[h].outbound == s.hosts[h].outbound
    ensures Shape(s') && ControlOk(s') && ChannelsLive(s')
  {
    forall q, c | 0 <= q < |s'.channels| && 0 <= c < |s'.channels[q]| ensures ChannelLive(s'.objects, s'.channels[q][c]) {
      assert ChannelLive(s.objects, s.channels[q][c]);
    }
  }

  lemma ReplicaLive(objects: map<nat, Object>, h: Host, h': Host)
    requires HostLive(objects, h) && h'.entries <= h.entries
    requires h' == h.(entries := h'.entries, replicas := h'.replicas, poller := h'.poller)
    requires h'.poller == h.poller || !h'.poller.Handling?
    requires forall k :: k in h'.replicas ==>
      || (k in h.replicas && h.replicas[k] == h'.replicas[k])
      || (h'.replicas[k] in objects && k in objects[h'.replicas[k]].keys)
    ensures HostLive(objects, h')
  {
  }

  lemma ReplicaHolders(objects: map<nat, Object>, hosts: seq<Host>, objects': map<nat, Object>, hosts': seq<Host>, g: nat, a: nat)
    requires HoldersOk(objects, hosts) && g < |hosts| && a in objects
    requires |hosts'| == |hosts| && hosts' == hosts[g := hosts'[g]] && a in objects' && objects' == objects[a := objects'[a]]
    requires forall h :: h != g ==> (h in objects'[a].holders <==> h in objects[a].holders)
    requires g in objects'[a].holders <==> Caches(hosts'[g].replicas, a)
    requires forall b :: b != a ==> (Caches(hosts'[g].replicas, b) <==> Caches(hosts[g].replicas, b))
    ensures HoldersOk(objects', hosts')
  {
    hide Caches;
  }

  lemma ProgressFrame(s: Sys, s': Sys, h: nat)
    requires Shape(s) && Shape(s') && h < |s.hosts| == |s'.hosts| && Progress(s, h)
    requires s'.hosts[h] == s.hosts[h] && s'.channels == s.channels && s'.control == s.control
    requires s.control.current.obj in s'.objects ==>
      && s.control.current.obj in s.objects
      && s'.objects[s.control.current.obj].keys == s.objects[s.control.current.obj].keys
      && s'.objects[s.control.current.obj].ops == s.objects[s.control.current.obj].ops
    ensures Progress(s', h)
  {
    hide Quiet, Below, Drained, Clean, Shape;
  }

  lemma InstallKeeps(s: Sys, g: nat, a: nat, k: nat)
    requires Inv(s) && Enabled(s, InstallReplica(g, a, k))
    ensures Inv(Next(s, InstallReplica(g, a, k)))
  {
    var s' := Next(s, InstallReplica(g, a, k));
    var host := s'.hosts[g];
    InstallCaches(s, g, a, k);
    assert s'.objects[a] == s.objects[a].(holders := s.objects[a].holders + {g});
    assert Progress(s, g);
    hide Inv;
    ReplicaStep(s, s', g, a, host, s'.objects[a]) by { assert Inv(s); }
    forall h | 0 <= h < |s'.hosts| ensures Progress(s', h) {
      if h == g { InstallProgress(s, s', g, a, k); }
      else { ProgressFrame(s, s', h) by { assert Progress(s, h) by { InvProgress(s, h); } } }
    }
    assert Inv(s') by { FromParts(s'); }
  }

  lemma InvProgress(s: Sys, h: nat)
    requires Inv(s) && h < |s.hosts|
    ensures Shape(s) && Progress(s, h)
  {
  }

  lemma FromParts(s: Sys)
    requires Shape(s) && AllLive(s) && ControlOk(s) && forall h :: 0 <= h < |s.hosts| ==> Progress(s, h)
    ensures Inv(s)
  {
  }

  lemma InstallCaches(s: Sys, g: nat, a: nat, k: nat)
    requires Inv(s) && Enabled(s, InstallReplica(g, a, k))
    ensures var r, r' := s.hosts[g].replicas, Next(s, InstallReplica(g, a, k)).hosts[g].replicas;
      Caches(r', a) && forall b :: b != a ==> (Caches(r', b) <==> Caches(r, b))
  {
    var r := s.hosts[g].replicas;
    var r' := r[k := a];
    assert HostLive(s.objects, s.hosts[g]);
    assert k in r ==> r[k] == a;
    assert k in r' && r'[k] == a;
    forall b | b != a ensures Caches(r', b) <==> Caches(r, b) {
      if Caches(r, b) { var j :| j in r && r[j] == b; assert j in r' && r'[j] == b; }
    }
  }

  lemma InstallProgress(s: Sys, s': Sys, g: nat, a: nat, k: nat)
    requires Shape(s) && Shape(s') && ControlOk(s)
    requires Enabled(s, InstallReplica(g, a, k)) && s' == Next(s, InstallReplica(g, a, k)) && Progress(s, g)
    requires forall b :: b != a ==> (Caches(s'.hosts[g].replicas, b) <==> Caches(s.hosts[g].replicas, b))
    ensures Progress(s', g)
  {
    hide Below, Drained, Caches;
  }

  lemma EraseKeeps(s: Sys, g: nat, k: nat)
    requires Inv(s) && Enabled(s, EraseReplica(g, k))
    ensures Inv(Next(s, EraseReplica(g, k)))
  {
    var s' := Next(s, EraseReplica(g, k));
    var a := s.hosts[g].replicas[k];
    var r, r' := s.hosts[g].replicas, s'.hosts[g].replicas;
    forall b | Caches(r', b) ensures Caches(r, b) { var j :| j in r' && r'[j] == b; assert j in r; }
    forall b | b != a && Caches(r, b) ensures Caches(r', b) { var j :| j in r && r[j] == b; assert j in r' && r'[j] == b; }
    assert Caches(r, a);
    assert s'.objects[a].holders == if Caches(r', a) then s.objects[a].holders else s.objects[a].holders - {g};
    EraseHolder(s, g, a);
    assert Progress(s, g);
    hide Caches;
    ReplicaStep(s, s', g, a, s'.hosts[g], s'.objects[a]);
    EraseProgress(s, s', g, a);
    hide AllLive, ControlOk;
    forall h | 0 <= h < |s'.hosts| ensures Progress(s', h) {
      if h != g { ProgressFrame(s, s', h); }
    }
  }

  lemma EraseHolder(s: Sys, g: nat, a: nat)
    requires AllLive(s) && g < |s.hosts| && a in s.objects && Caches(s.hosts[g].replicas, a)
    ensures g in s.objects[a].holders
  {
  }

  lemma EraseProgress(s: Sys, s': Sys, g: nat, a: nat)
    requires Shape(s) && Shape(s') && g < |s.hosts| && |s'.hosts| == |s.hosts| && Progress(s, g)
    requires s'.hosts[g] == s.hosts[g].(replicas := s'.hosts[g].replicas)
    requires s'.channels == s.channels && s'.control == s.control && a in s.objects && a in s'.objects
    requires s'.objects == s.objects[a := s.objects[a].(holders := s'.objects[a].holders)]
    requires forall b :: Caches(s'.hosts[g].replicas, b) ==> Caches(s.hosts[g].replicas, b)
    ensures Progress(s', g)
  {
    hide Below, Drained, Caches;
  }

  // ------------------------------------------------------------------ cleaning

  lemma SweepKeeps(s: Sys, g: nat)
    requires Inv(s) && Enabled(s, Sweep(g))
    ensures Inv(Next(s, Sweep(g)))
  {
    var s' := Next(s, Sweep(g));
    var a := s.hosts[g].poller.seen.obj;
    var r, r' := s.hosts[g].replicas, s'.hosts[g].replicas;
    assert !Caches(r', a);
    forall b | b != a ensures Caches(r', b) <==> Caches(r, b) {
      if Caches(r, b) { var j :| j in r && r[j] == b; assert j in r' && r'[j] == b; }
    }
    assert Progress(s, g);
    hide Caches;
    ReplicaStep(s, s', g, a, s'.hosts[g], s'.objects[a]);
    SweepProgress(s, s', g, a);
    hide AllLive, ControlOk;
    forall h | 0 <= h < |s'.hosts| ensures Progress(s', h) {
      if h != g { ProgressFrame(s, s', h); }
    }
  }

  lemma SweepProgress(s: Sys, s': Sys, g: nat, a: nat)
    requires Shape(s) && Shape(s') && ControlOk(s) && Enabled(s, Sweep(g)) && s' == Next(s, Sweep(g)) && Progress(s, g)
    requires a == s.hosts[g].poller.seen.obj && !Caches(s'.hosts[g].replicas, a)
    ensures Progress(s', g)
  {
    hide Below, Caches;
  }

  // ------------------------------------------------------------------ acknowledgements

  /** A phase ends only when the last configured host has acknowledged it. */
  lemma PhaseNeedsAll(c: Control, o: Object, seen: Snapshot, host: nat, cursors: seq<nat>, n: nat)
    ensures var c' := Acknowledge(c, o, seen, host, cursors, n).0;
      && (c'.current != c.current ==>
            && c'.current == c.current.(phase := c'.current.phase)
            && (|| (c.current.phase.Closing? && c'.current.phase.Draining? && c'.closed == Hosts(n))
                || (c.current.phase.Draining? && c'.current.phase.Cleaning? && c'.drained == Hosts(n))
                || (c.current.phase.Cleaning? && c'.current.phase.Reclaimable? && c'.cleaned == Hosts(n))))
      && c.closed <= c'.closed && c.drained <= c'.drained && c.cleaned <= c'.cleaned
  {
  }

  lemma AckKeeps(s: Sys, g: nat)
    requires Inv(s) && Enabled(s, Ack(g))
    ensures Inv(Next(s, Ack(g)))
  {
    var s' := Next(s, Ack(g));
    var a := s.control.current.obj;
    assert Progress(s, g);
    AckEffect(s, s', g);
    LiveSame(s, s', g);
    AckControl(s, s', g);
    hide AllLive, HostLive;
    forall h | 0 <= h < |s'.hosts| ensures Progress(s', h) {
      assert Progress(s, h);
      if s.control.current.phase.Closing? { AckClosing(s, s', g, h); }
      else if s.control.current.phase.Draining? { AckDraining(s, s', g, h); }
      else { AckCleaning(s, s', g, h); }
    }
  }

  lemma AckEffect(s: Sys, s': Sys, g: nat)
    requires Shape(s) && Enabled(s, Ack(g)) && s' == Next(s, Ack(g)) && PollerOk(s.control, s.hosts[g].poller, g, |s.hosts|)
    ensures SameKeys(s.objects, s'.objects)
    ensures forall b :: b in s.objects ==> s'.objects[b].ops == s.objects[b].ops && s'.objects[b].holders == s.objects[b].holders
    ensures s'.hosts == s.hosts[g := s.hosts[g].(poller := Scanning)] && s'.channels == s.channels
    ensures |s'.control.marks| == |s.control.marks|
    ensures forall p :: 0 <= p < |s.control.marks| ==> |s'.control.marks[p]| == |s.hosts|
  {
  }

  lemma LiveSame(s: Sys, s': Sys, g: nat)
    requires Shape(s) && AllLive(s) && g < |s.hosts| && SameKeys(s.objects, s'.objects)
    requires forall b :: b in s.objects ==> s'.objects[b].ops == s.objects[b].ops && s'.objects[b].holders == s.objects[b].holders
    requires s'.hosts == s.hosts[g := s.hosts[g].(poller := Scanning)] && s'.channels == s.channels
    requires |s'.control.marks| == |s.control.marks|
    requires forall p :: 0 <= p < |s.control.marks| ==> |s'.control.marks[p]| == |s.hosts|
    ensures Shape(s') && AllLive(s')
  {
    forall q, c | 0 <= q < |s'.channels| && 0 <= c < |s'.channels[q]| ensures ChannelLive(s'.objects, s'.channels[q][c]) {
      assert ChannelLive(s.objects, s.channels[q][c]);
    }
    assert forall h :: 0 <= h < |s.hosts| ==> s'.hosts[h].replicas == s.hosts[h].replicas;
    assert HoldersOk(s'.objects, s'.hosts);
    hide ChannelsLive, HoldersOk;
    forall h | 0 <= h < |s'.hosts| ensures HostLive(s'.objects, s'.hosts[h]) {
      LiveFrame(s.objects, s'.objects, s.hosts[h]);
    }
  }

  lemma AckControl(s: Sys, s': Sys, g: nat)
    requires Shape(s) && ControlOk(s) && Enabled(s, Ack(g)) && s' == Next(s, Ack(g)) && Progress(s, g) && |s'.hosts| == |s.hosts|
    ensures ControlOk(s')
  {
    hide ClosedOk, DrainedOk, CleanedOk;
  }

  lemma AckClosing(s: Sys, s': Sys, g: nat, h: nat)
    requires Shape(s) && Shape(s') && ControlOk(s) && Enabled(s, Ack(g)) && s' == Next(s, Ack(g)) && h < |s.hosts| == |s'.hosts|
    requires s.control.current.phase.Closing? && Progress(s, g) && Progress(s, h)
    ensures Progress(s', h)
  {
    hide Below, Drained, Clean;
  }

  lemma AckDraining(s: Sys, s': Sys, g: nat, h: nat)
    requires Shape(s) && Shape(s') && ControlOk(s) && Enabled(s, Ack(g)) && s' == Next(s, Ack(g)) && h < |s.hosts| == |s'.hosts|
    requires s.control.current.phase.Draining? && Progress(s, g) && Progress(s, h)
    requires forall p :: 0 <= p < |s.hosts| ==> Progress(s, p)
    ensures Progress(s', h)
  {
    var a := s.control.current.obj;
    var col := Inbound(s.channels, g);
    var cursors := s.hosts[g].poller.cursors;
    if a in s.objects && CaughtUp(s.control.marks, cursors, g) {
      forall p, i | 0 <= p < |col| && col[p].consumed <= i < |col[p].log| ensures col[p].log[i] != TokenPacket(a) {
        assert Progress(s, p) && p in s.control.closed;
        assert Below(s.channels[p], s.control.marks[p], a);
        assert s.channels[p][g] == col[p];
        if p != g { assert cursors[p] >= s.control.marks[p][g]; }
      }
      assert Drained(col, Scanning, a);
    }
    hide Clean, Below, Drained, CaughtUp;
  }

  lemma AckCleaning(s: Sys, s': Sys, g: nat, h: nat)
    requires Shape(s) && Shape(s') && ControlOk(s) && Enabled(s, Ack(g)) && s' == Next(s, Ack(g)) && h < |s.hosts| == |s'.hosts|
    requires !s.control.current.phase.Closing? && !s.control.current.phase.Draining? && Progress(s, g) && Progress(s, h)
    ensures Progress(s', h)
  {
    hide Below;
  }

  // ------------------------------------------------------------------ begin, reclaim, allocate

  lemma BeginKeeps(s: Sys, g: nat, a: nat)
    requires Inv(s) && Enabled(s, BeginRetire(g, a))
    ensures Inv(Next(s, BeginRetire(g, a)))
  {
    var s' := Next(s, BeginRetire(g, a));
    assert SameKeys(s.objects, s'.objects);
    forall h | 0 <= h < |s'.hosts| ensures HostLive(s'.objects, s'.hosts[h]) { LiveFrame(s.objects, s'.objects, s.hosts[h]); }
    forall q, c | 0 <= q < |s'.channels| && 0 <= c < |s'.channels[q]| ensures ChannelLive(s'.objects, s'.channels[q][c]) {
      assert ChannelLive(s.objects, s.channels[q][c]);
    }
    BeginControl(s, s', g, a);
    hide HostLive, ChannelLive, ControlOk;
    forall h | 0 <= h < |s'.hosts| ensures Progress(s', h) { assert Progress(s, h); }
  }

  lemma BeginControl(s: Sys, s': Sys, g: nat, a: nat)
    requires Shape(s) && ControlOk(s) && Enabled(s, BeginRetire(g, a)) && s' == Next(s, BeginRetire(g, a))
    ensures ControlOk(s')
  {
    assert 0 in Hosts(|s.hosts|);
  }

  /** Nothing of an object is left on a host. */
  ghost predicate Gone(s: Sys, h: nat, a: nat, keys: set<nat>)
    requires Shape(s) && h < |s.hosts|
  {
    && Quiet(s.hosts[h], a, keys) && Clean(s.hosts[h], a, keys)
    && Drained(Inbound(s.channels, h), s.hosts[h].poller, a)
  }

  /** At the end of cleaning nothing of the object is left anywhere, so reclamation cannot fail. */
  lemma ReclaimableIsGone(s: Sys)
    requires Inv(s) && s.control.current.phase.Reclaimable?
    ensures var a := s.control.current.obj;
      && a in s.objects
      && (forall h :: 0 <= h < |s.hosts| ==> Gone(s, h, a, s.objects[a].keys))
      && s.objects[a].holders == {}
      && (forall h :: 0 <= h < |s.hosts| ==> s.objects[a].ops[h] == 0)
      && (s.control.coordinator < |s.hosts| ==> Enabled(s, Free(s.control.coordinator, a)))
  {
    var a := s.control.current.obj;
    forall h | 0 <= h < |s.hosts| ensures Gone(s, h, a, s.objects[a].keys) && !HasReference(s.objects[a], h) {
      assert Progress(s, h) && h in s.control.closed && h in s.control.drained && h in s.control.cleaned;
    }
    hide Progress, HostLive;
    forall h | 0 <= h < |s.hosts| ensures h !in s.objects[a].holders {
      assert Gone(s, h, a, s.objects[a].keys);
    }
    assert s.objects[a].holders == {};
    forall h | 0 <= h < |s.hosts| ensures s.objects[a].ops[h] == 0 {
      assert !HasReference(s.objects[a], h);
    }
  }

  lemma FreeKeeps(s: Sys, g: nat, a: nat)
    requires Inv(s) && Enabled(s, Free(g, a))
    ensures Inv(Next(s, Free(g, a)))
  {
    var s' := Next(s, Free(g, a));
    ReclaimableIsGone(s);
    forall h | 0 <= h < |s'.hosts| ensures HostLive(s'.objects, s'.hosts[h]) {
      assert HostLive(s.objects, s.hosts[h]) && Gone(s, h, a, s.objects[a].keys);
      GoneLive(s.objects, s'.objects, s.hosts[h], a, Inbound(s.channels, h));
    }
    forall p, h | 0 <= p < |s'.channels| && 0 <= h < |s'.channels[p]| ensures ChannelLive(s'.objects, s'.channels[p][h]) {
      assert ChannelLive(s.objects, s.channels[p][h]) && Gone(s, h, a, s.objects[a].keys);
      assert Inbound(s.channels, h)[p] == s.channels[p][h];
    }
    hide Gone, HostLive, ChannelLive;
    assert ControlOk(s') by { FreeControl(s, s', a); }
    forall h | 0 <= h < |s'.hosts| ensures Progress(s', h) { assert Progress(s, h); }
  }

  lemma FreeControl(s: Sys, s': Sys, a: nat)
    requires ControlOk(s) && !s.control.current.phase.Idle? && a == s.control.current.obj && |s'.hosts| == |s.hosts|
    requires s'.objects == s.objects - {a} && s'.control == s.control.(current := s.control.current.(phase := Idle))
    ensures ControlOk(s')
  {
  }

  lemma GoneLive(objects: map<nat, Object>, objects': map<nat, Object>, h: Host, a: nat, col: seq<Channel>)
    requires a in objects && objects' == objects - {a} && HostLive(objects, h)
    requires Quiet(h, a, objects[a].keys) && Clean(h, a, objects[a].keys) && Drained(col, h.poller, a)
    ensures HostLive(objects', h)
  {
    forall k | k in h.entries || k in h.held ensures KeyLive(objects', k) {
      assert KeyLive(objects, k);
      var b :| b in objects && k in objects[b].keys;
      assert b in objects';
    }
    forall c, p | 0 <= c < |h.outbound| && p in h.outbound[c] ensures PacketLive(objects', p) { assert PacketLive(objects, p); }
    forall k | k in h.replicas ensures h.replicas[k] in objects' && k in objects'[h.replicas[k]].keys {
      assert h.replicas[k] != a;
    }
  }

  lemma AllocateKeeps(s: Sys, g: nat, a: nat, keys: set<nat>)
    requires Inv(s) && Enabled(s, Allocate(g, a, keys))
    ensures Inv(Next(s, Allocate(g, a, keys)))
  {
    var s' := Next(s, Allocate(g, a, keys));
    NothingDead(s, a);
    forall h | 0 <= h < |s'.hosts| ensures HostLive(s'.objects, s'.hosts[h]) {
      assert HostLive(s.objects, s.hosts[h]);
      AllocateLive(s.objects, s'.objects, s.hosts[h], s'.hosts[h], a, keys);
    }
    forall q, c | 0 <= q < |s'.channels| && 0 <= c < |s'.channels[q]| ensures ChannelLive(s'.objects, s'.channels[q][c]) {
      assert ChannelLive(s.objects, s.channels[q][c]);
    }
    AllocateControl(s, s', g, a, keys);
    hide HostLive, ChannelLive, ControlOk;
    forall h | 0 <= h < |s'.hosts| ensures Progress(s', h) {
      assert Progress(s, h);
      AllocateProgress(s, s', g, a, keys, h);
    }
  }

  lemma AllocateControl(s: Sys, s': Sys, g: nat, a: nat, keys: set<nat>)
    requires ControlOk(s) && Enabled(s, Allocate(g, a, keys)) && s' == Next(s, Allocate(g, a, keys))
    ensures ControlOk(s') && (!s.control.current.phase.Idle? ==> s.control.current.obj in s.objects)
  {
  }

  lemma AllocateProgress(s: Sys, s': Sys, g: nat, a: nat, keys: set<nat>, h: nat)
    requires Shape(s) && Shape(s') && h < |s.hosts| && Enabled(s, Allocate(g, a, keys)) && s' == Next(s, Allocate(g, a, keys))
    requires Progress(s, h) && (!s.control.current.phase.Idle? ==> s.control.current.obj in s.objects)
    ensures Progress(s', h)
  {
    hide Below, Drained, Caches;
  }

  lemma AllocateLive(objects: map<nat, Object>, objects': map<nat, Object>, h: Host, h': Host, a: nat, keys: set<nat>)
    requires a !in objects && a in objects' && objects' == objects[a := objects'[a]] && objects'[a].keys == keys
    requires HostLive(objects, h) && (h' == h || h' == h.(entries := h.entries + keys))
    ensures HostLive(objects', h')
  {
    forall k | k in h'.entries || k in h'.held ensures KeyLive(objects', k) {
      if k in keys { assert k in objects'[a].keys; }
      else {
        assert KeyLive(objects, k);
        var b :| b in objects && k in objects[b].keys;
        assert b in objects' && k in objects'[b].keys;
      }
    }
    forall c, p | 0 <= c < |h.outbound| && p in h.outbound[c] ensures PacketLive(objects', p) { assert PacketLive(objects, p); }
  }

  /** No state of any kind names an address at which no object lives. */
  lemma NothingDead(s: Sys, a: nat)
    requires Inv(s) && a !in s.objects
    ensures forall h :: 0 <= h < |s.hosts| ==> !Caches(s.hosts[h].replicas, a)
  {
    forall h | 0 <= h < |s.hosts| ensures !Caches(s.hosts[h].replicas, a) { assert HostLive(s.objects, s.hosts[h]); }
  }

  lemma StepKeeps(s: Sys, x: Action)
    requires Inv(s) && Enabled(s, x)
    ensures Inv(Next(s, x))
  {
    hide Inv, Enabled, Next;
    match x
    case Allocate(g, a, keys) => AllocateKeeps(s, g, a, keys);
    case AcquireReference(_, _, _) => AcquireKeeps(s, x);
    case ReleaseReference(_, _) => AcquireKeeps(s, x);
    case SendToken(g, a, to) => SendKeeps(s, g, a, to);
    case SendOther(g, to) => SendOtherKeeps(s, g, to);
    case Flush(g, to) => FlushKeeps(s, g, to);
    case InstallReplica(g, a, k) => InstallKeeps(s, g, a, k);
    case EraseReplica(g, k) => EraseKeeps(s, g, k);
    case Pop(g, p) => PopKeeps(s, g, p);
    case AdmitPacket(_) => ReturnKeeps(s, x);
    case FinishPacket(_) => ReturnKeeps(s, x);
    case Observe(_) => ReturnKeeps(s, x);
    case CloseObject(g) => CloseKeeps(s, g);
    case Sample(g) => SampleKeeps(s, g);
    case Sweep(g) => SweepKeeps(s, g);
    case Ack(g) => AckKeeps(s, g);
    case BeginRetire(g, a) => BeginKeeps(s, g, a);
    case Free(g, a) => FreeKeeps(s, g, a);
    case _ => LocalKeeps(s, x);
  }

  lemma InitInv(n: nat)
    ensures Inv(Init(n))
  {
    var s := Init(n);
    forall h | 0 <= h < n ensures HostLive(s.objects, s.hosts[h]) && Progress(s, h) {}
  }

  ghost predicate Run(run: seq<Sys>, actions: seq<Action>) {
    && |run| == |actions| + 1
    && (forall i :: 0 <= i < |actions| ==> Enabled(run[i], actions[i]) && run[i + 1] == Next(run[i], actions[i]))
  }

  lemma {:induction false} RunKeeps(run: seq<Sys>, actions: seq<Action>, n: nat, i: nat)
    requires Run(run, actions) && run[0] == Init(n) && i < |run|
    ensures Inv(run[i])
  {
    hide Inv, Next, Enabled, Init;
    if i == 0 {
      InitInv(n);
    } else {
      RunKeeps(run, actions, n, i - 1);
      StepKeeps(run[i - 1], actions[i - 1]);
    }
  }

  // ------------------------------------------------------------------ theorems over whole runs

  /** No packet for the address is deferred, published and unpopped, or in a handler. */
  ghost predicate NoPacket(s: Sys, a: nat) {
    && (forall h, c, p :: 0 <= h < |s.hosts| && 0 <= c < |s.hosts[h].outbound| && p in s.hosts[h].outbound[c] ==> p != TokenPacket(a))
    && (forall p, c, i ::
          (0 <= p < |s.channels| && 0 <= c < |s.channels[p]| && s.channels[p][c].consumed <= i < |s.channels[p][c].log|) ==>
            s.channels[p][c].log[i] != TokenPacket(a))
    && (forall h :: 0 <= h < |s.hosts| ==> !(s.hosts[h].poller.Handling? && s.hosts[h].poller.packet == TokenPacket(a)))
  }

  /** No host keeps anything under the address or under one of the sidecar keys. */
  ghost predicate NoState(h: Host, a: nat, keys: set<nat>) {
    && h.entries !! keys && h.held !! keys
    && (forall w :: w in h.waiters ==> h.waiters[w] != a)
    && (forall k :: k in h.replicas ==> h.replicas[k] != a && k !in keys)
    && h.section != Some(a)
  }

  lemma DeadIsGone(s: Sys, a: nat, keys: set<nat>)
    requires Inv(s) && a !in s.objects && forall b :: b in s.objects ==> keys !! s.objects[b].keys
    ensures NoPacket(s, a) && forall h :: 0 <= h < |s.hosts| ==> NoState(s.hosts[h], a, keys)
  {
    hide Progress, ControlOk;
    forall h | 0 <= h < |s.hosts| ensures HostLive(s.objects, s.hosts[h]) && NoState(s.hosts[h], a, keys) {
      assert HostLive(s.objects, s.hosts[h]);
    }
    forall h, c, p | 0 <= h < |s.hosts| && 0 <= c < |s.hosts[h].outbound| && p in s.hosts[h].outbound[c]
      ensures p != TokenPacket(a)
    {
      assert HostLive(s.objects, s.hosts[h]) && PacketLive(s.objects, p);
    }
    forall p, c | 0 <= p < |s.channels| && 0 <= c < |s.channels[p]| ensures ChannelLive(s.objects, s.channels[p][c]) {}
  }

  /** A host has a token entry for the block exactly if the token protocol starts it available there. */
  ghost predicate StartsAsToken(s: Sys, home: nat, h: nat, k: nat) {
    && home < |s.hosts| && h < |s.hosts|
    && (k in s.hosts[h].entries <==> TokenProtocol.Init(|s.hosts|, home).hosts[h].local.available)
  }

  /**
   Reuse safety: whatever storage an allocation gets, wholly or partly used before, no host has
   a packet, waiter, held token, open call or replica that could be taken for the new object,
   and its token entries exist on the allocating host only, as the token protocol starts.
   */
  lemma ReuseIsSafe(run: seq<Sys>, actions: seq<Action>, n: nat, i: nat, s': Sys)
    requires Run(run, actions) && run[0] == Init(n) && i < |actions| && actions[i].Allocate? && s' == run[i + 1]
    ensures var x := actions[i];
      && NoPacket(s', x.obj)
      && (forall h :: 0 <= h < |s'.hosts| && h != x.host ==> NoState(s'.hosts[h], x.obj, x.keys))
      && (x.host < |s'.hosts| ==>
            NoState(s'.hosts[x.host].(entries := s'.hosts[x.host].entries - x.keys), x.obj, x.keys))
      && (forall h, k :: 0 <= h < |s'.hosts| && k in x.keys ==> StartsAsToken(s', x.host, h, k))
  {
    hide HostLive, HoldersOk, ChannelsLive, Progress, ControlOk, Shape;
    RunKeeps(run, actions, n, i);
    DeadIsGone(run[i], actions[i].obj, actions[i].keys);
    hide Inv;
    var s, x := run[i], actions[i];
    forall h, k | 0 <= h < |s'.hosts| && k in x.keys ensures StartsAsToken(s', x.host, h, k) {
      assert NoState(s.hosts[h], x.obj, x.keys);
    }
  }

  /** Reclamation: when extents are returned, nothing of the object is left, before or after. */
  lemma FreeIsSafe(run: seq<Sys>, actions: seq<Action>, n: nat, i: nat)
    requires Run(run, actions) && run[0] == Init(n) && i < |actions| && actions[i].Free?
    ensures var a := actions[i].obj;
      && a in run[i].objects
      && (forall h :: 0 <= h < |run[i].hosts| ==> NoState(run[i].hosts[h], a, run[i].objects[a].keys))
      && NoPacket(run[i], a)
      && (forall h :: 0 <= h < |run[i].objects[a].ops| ==> run[i].objects[a].ops[h] == 0)
      && a !in run[i + 1].objects
  {
    hide Inv, Init, NoPacket, NoState, Next;
    RunKeeps(run, actions, n, i);
    RunKeeps(run, actions, n, i + 1);
    var s, s', a := run[i], run[i + 1], actions[i].obj;
    assert Enabled(s, actions[i]) && s' == Next(s, actions[i]);
    hide Run;
    FreeApart(s, actions[i].host, a);
    hide Enabled;
    DeadIsGone(s', a, s.objects[a].keys);
    PacketsSame(s, s', a);
  }

  /** A free changes no host and no channel, and the freed keys meet no other object's. */
  lemma FreeApart(s: Sys, g: nat, a: nat)
    requires Inv(s) && Enabled(s, Free(g, a))
    ensures var s' := Next(s, Free(g, a));
      && s'.hosts == s.hosts && s'.channels == s.channels && a !in s'.objects
      && forall b :: b in s'.objects ==> s.objects[a].keys !! s'.objects[b].keys
  {
    hide HostLive, HoldersOk, ChannelsLive, Progress, ControlOk, Shape;
  }

  lemma PacketsSame(s: Sys, s': Sys, a: nat)
    requires s.hosts == s'.hosts && s.channels == s'.channels && NoPacket(s', a)
    ensures NoPacket(s, a)
  { }

  /** The checks of Free for replica holders and active operations cannot fail once Reclaimable. */
  lemma ReclaimNeverBlocks(run: seq<Sys>, actions: seq<Action>, n: nat, i: nat)
    requires Run(run, actions) && run[0] == Init(n) && i < |run| && run[i].control.current.phase.Reclaimable?
    ensures var a := run[i].control.current.obj;
      && a in run[i].objects && run[i].objects[a].holders == {}
      && (forall h :: 0 <= h < |run[i].hosts| == |run[i].objects[a].ops| ==> run[i].objects[a].ops[h] == 0)
  {
    RunKeeps(run, actions, n, i);
    ReclaimableIsGone(run[i]);
  }

  /** From Cleaning on, no queue, deferred queue or handler holds a packet of the object. */
  lemma CutIsComplete(run: seq<Sys>, actions: seq<Action>, n: nat, i: nat)
    requires Run(run, actions) && run[0] == Init(n) && i < |run|
    requires run[i].control.current.phase.Cleaning? || run[i].control.current.phase.Reclaimable?
    ensures NoPacket(run[i], run[i].control.current.obj)
  {
    RunKeeps(run, actions, n, i);
    var s := run[i];
    var a := s.control.current.obj;
    hide AllLive;
    forall h | 0 <= h < |s.hosts| ensures Quiet(s.hosts[h], a, s.objects[a].keys) && Drained(Inbound(s.channels, h), s.hosts[h].poller, a) {
      assert Progress(s, h) && h in s.control.closed && h in s.control.drained;
    }
    forall p, c, j | 0 <= p < |s.channels| && 0 <= c < |s.channels[p]| && s.channels[p][c].consumed <= j < |s.channels[p][c].log|
      ensures s.channels[p][c].log[j] != TokenPacket(a)
    {
      assert Inbound(s.channels, c)[p] == s.channels[p][c];
      assert Drained(Inbound(s.channels, c), s.hosts[c].poller, a);
    }
  }

  /** A host that has sealed a retiring object has no active operation on it until it is gone. */
  lemma SealedHasNoOperations(run: seq<Sys>, actions: seq<Action>, n: nat, i: nat, a: nat, h: nat)
    requires Run(run, actions) && run[0] == Init(n) && i < |run| && a in run[i].objects && h in run[i].objects[a].sealed
    ensures run[i].objects[a].state.Retiring? && h < |run[i].objects[a].ops| && run[i].objects[a].ops[h] == 0
    ensures NoWaiter(run[i].hosts, h, a)
  {
    RunKeeps(run, actions, n, i);
    assert h < |run[i].hosts| && Progress(run[i], h);
  }

  predicate NoWaiter(hosts: seq<Host>, h: nat, a: nat) {
    h < |hosts| && forall w :: w in hosts[h].waiters ==> hosts[h].waiters[w] != a
  }
}
