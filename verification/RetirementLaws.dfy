/**
 What a progress report is answered, in numbers: when it counts, what it records, and that a host
 which has handled all its peers published before they closed is always accepted.
 */
module RetirementLaws {
  import opened Retirement
  import RetirementRuns

  // ------------------------------------------------------------------ one report

  /** The report is for the phase and transaction the slot is in. */
  predicate IsCurrent(c: Control, seen: Snapshot, host: nat, n: nat) {
    c.current.sequence == seen.sequence && c.current.phase == seen.phase && host < n
  }

  /**
   A current closing report counts unless the host has an active operation, a draining one unless
   a cursor is below the watermark its producer recorded for the host, and a cleaning one always.
   */
  lemma ReportAnswered(c: Control, o: Object, seen: Snapshot, host: nat, cursors: seq<nat>, n: nat)
    ensures var (c', o', status) := Acknowledge(c, o, seen, host, cursors, n);
      && (status.Stale? <==> !IsCurrent(c, seen, host, n))
      && (IsCurrent(c, seen, host, n) && seen.phase.Closing? ==>
            (status.Acked? <==> (host < |o.ops| ==> o.ops[host] == 0)))
      && (IsCurrent(c, seen, host, n) && seen.phase.Draining? ==>
            (status.Acked? <==>
              forall p :: 0 <= p < |c.marks| && p != host && p < |cursors| && host < |c.marks[p]| ==> c.marks[p][host] <= cursors[p]))
      && (IsCurrent(c, seen, host, n) && !seen.phase.Closing? && !seen.phase.Draining? ==> status.Acked?)
      && (!status.Acked? ==> c' == c && o' == o)
  { }

  /** The hosts of a mask are all of the `n` configured ones. */
  predicate Full(mask: set<nat>, n: nat) {
    (forall h :: 0 <= h < n ==> h in mask) && forall h :: h in mask ==> h < n
  }

  lemma FullIff(mask: set<nat>, n: nat)
    ensures mask == Hosts(n) <==> Full(mask, n)
  {
    if Full(mask, n) {
      forall h: nat ensures h in mask <==> h in Hosts(n) { }
    }
  }

  /** What a counted report leaves behind: the host in the mask of the phase, and the phase advanced by the last one. */
  lemma ReportRecorded(c: Control, o: Object, seen: Snapshot, host: nat, cursors: seq<nat>, n: nat)
    requires Acknowledge(c, o, seen, host, cursors, n).2.Acked?
    ensures var (c', o', _) := Acknowledge(c, o, seen, host, cursors, n);
      && c'.coordinator == c.coordinator && c'.current == c.current.(phase := c'.current.phase)
      && c'.closed == c.closed + (if seen.phase.Closing? then {host} else {})
      && c'.drained == c.drained + (if seen.phase.Draining? then {host} else {})
      && c'.cleaned == c.cleaned + (if seen.phase.Cleaning? then {host} else {})
      && |c'.marks| == |c.marks|
      && (forall p :: 0 <= p < |c.marks| ==> c'.marks[p] == if seen.phase.Closing? && p == host then cursors else c.marks[p])
      && o' == o.(sealed := o.sealed + (if seen.phase.Closing? then {host} else {}))
      && (seen.phase.Closing? ==> c'.current.phase == if Full(c'.closed, n) then Draining else Closing)
      && (seen.phase.Draining? ==> c'.current.phase == if Full(c'.drained, n) then Cleaning else Draining)
      && (seen.phase.Cleaning? ==> c'.current.phase == if Full(c'.cleaned, n) then Reclaimable else Cleaning)
      && (seen.phase.Idle? || seen.phase.Reclaimable? ==> c'.current == c.current)
  {
    var c' := Acknowledge(c, o, seen, host, cursors, n).0;
    FullIff(c'.closed, n);
    FullIff(c'.drained, n);
    FullIff(c'.cleaned, n);
    hide Full, Hosts;
  }

  /** A host is asked for a report exactly while its report could count and has not been counted. */
  lemma AskedUntilCounted(c: Control, seen: Snapshot, host: nat, n: nat)
    requires host < n && (seen.phase.Closing? || seen.phase.Draining? || seen.phase.Cleaning?)
    ensures Acknowledged(c, seen, host) <==>
      || !IsCurrent(c, seen, host, n) || (seen.phase.Closing? && host in c.closed)
      || (seen.phase.Draining? && host in c.drained) || (seen.phase.Cleaning? && host in c.cleaned)
  { }

  // ------------------------------------------------------------------ watermarks over whole runs

  /** At step `k` host `p`, closing for this transaction, read how much it had published for `g`. */
  predicate TookMark(run: seq<Sys>, actions: seq<Action>, k: nat, sequence: nat, p: nat, g: nat, mark: nat) {
    && k < |run| && k < |actions| && actions[k] == Sample(p) && p < |run[k].hosts|
    && RetirementRuns.Reporting(run[k].hosts[p].poller)
    && run[k].hosts[p].poller.seen.phase.Closing? && run[k].hosts[p].poller.seen.sequence == sequence
    && p < |run[k].channels| && g < |run[k].channels[p]| && mark == |run[k].channels[p][g].log|
  }

  ghost predicate Marked(run: seq<Sys>, actions: seq<Action>, j: nat, sequence: nat, p: nat, g: nat, mark: nat) {
    exists k :: 0 <= k < j && TookMark(run, actions, k, sequence, p, g, mark)
  }

  /** Every recorded watermark, and every cursor a closing host has read so far, was such a reading. */
  ghost predicate MarksReal(run: seq<Sys>, actions: seq<Action>, j: nat)
    requires j < |run|
  {
    var s := run[j];
    && (forall p, g :: p in s.control.closed && p < |s.control.marks| && 0 <= g < |s.control.marks[p]| ==>
          Marked(run, actions, j, s.control.current.sequence, p, g, s.control.marks[p][g]))
    && (forall h, c :: 0 <= h < |s.hosts| && Closes(s.hosts[h].poller) && 0 <= c < |RetirementRuns.Cursors(s.hosts[h].poller)| ==>
          Marked(run, actions, j, s.hosts[h].poller.seen.sequence, h, c, RetirementRuns.Cursors(s.hosts[h].poller)[c]))
  }

  predicate Closes(p: Poller) {
    RetirementRuns.Reporting(p) && p.seen.phase.Closing?
  }

  lemma MarkedStays(run: seq<Sys>, actions: seq<Action>, j: nat, sequence: nat, p: nat, g: nat, mark: nat)
    requires Marked(run, actions, j, sequence, p, g, mark)
    ensures Marked(run, actions, j + 1, sequence, p, g, mark)
  {
    hide TookMark;
  }

  /** Only an accepted closing report changes a watermark that counts, and it stores what its host read. */
  lemma StepMarks(s: Sys, x: Action, s': Sys, p: nat)
    requires Inv(s) && Enabled(s, x) && s' == Next(s, x) && p in s'.control.closed
    ensures s'.control.current.sequence == s.control.current.sequence && p < |s.control.marks| == |s'.control.marks|
    ensures if p in s.control.closed && s'.control.marks[p] == s.control.marks[p] then true
            else
              && x == Ack(p) && p < |s.hosts| && Closes(s.hosts[p].poller) && s.hosts[p].poller.seen.sequence == s.control.current.sequence
              && s'.control.marks[p] == RetirementRuns.Cursors(s.hosts[p].poller)
  {
    hide AllLive, ClosedOk, DrainedOk, CleanedOk, CaughtUp, Progress;
    if x.Ack? { AckMarks(s, x.host, p); }
  }

  lemma AckMarks(s: Sys, g: nat, p: nat)
    requires Inv(s) && Enabled(s, Ack(g)) && p in Next(s, Ack(g)).control.closed
    ensures var c, c' := s.control, Next(s, Ack(g)).control;
      && c'.current.sequence == c.current.sequence && p < |c.marks| == |c'.marks|
      && ((p in c.closed && c'.marks[p] == c.marks[p]) ||
          (g == p && g < |s.hosts| && Closes(s.hosts[p].poller) && s.hosts[p].poller.seen.sequence == c.current.sequence
            && c'.marks[p] == RetirementRuns.Cursors(s.hosts[p].poller)))
  {
    hide AllLive, ClosedOk, DrainedOk, CleanedOk, CaughtUp;
    RetirementRuns.AckReports(s, g);
    RetirementRuns.ReporterCurrent(s, g);
  }

  lemma {:induction false} MarksAreReal(run: seq<Sys>, actions: seq<Action>, n: nat, j: nat)
    requires Run(run, actions) && run[0] == Init(n) && j < |run|
    ensures MarksReal(run, actions, j)
  {
    hide Inv, Next, Enabled, TookMark, Marked, Init;
    if j == 0 {
      NoMarks(run, actions, n);
    } else {
      var s, x, s' := run[j - 1], actions[j - 1], run[j];
      MarksAreReal(run, actions, n, j - 1);
      RunKeeps(run, actions, n, j - 1);
      assert Enabled(s, x) && s' == Next(s, x);
      RetirementRuns.StepOnward(s, x, s');
      hide Run;
      forall p, g | p in s'.control.closed && p < |s'.control.marks| && 0 <= g < |s'.control.marks[p]|
        ensures Marked(run, actions, j, s'.control.current.sequence, p, g, s'.control.marks[p][g])
      {
        StepMarks(s, x, s', p);
        MarkedStays(run, actions, j - 1, s'.control.current.sequence, p, g, s'.control.marks[p][g]);
      }
      forall h, c | 0 <= h < |s'.hosts| && Closes(s'.hosts[h].poller) && 0 <= c < |RetirementRuns.Cursors(s'.hosts[h].poller)|
        ensures Marked(run, actions, j, s'.hosts[h].poller.seen.sequence, h, c, RetirementRuns.Cursors(s'.hosts[h].poller)[c])
      {
        CursorReal(run, actions, j, h, c);
      }
    }
  }

  lemma NoMarks(run: seq<Sys>, actions: seq<Action>, n: nat)
    requires |run| > 0 && run[0] == Init(n)
    ensures MarksReal(run, actions, 0)
  { }

  lemma CursorReal(run: seq<Sys>, actions: seq<Action>, j: nat, h: nat, c: nat)
    requires 0 < j < |run| && j <= |actions| && MarksReal(run, actions, j - 1)
    requires Enabled(run[j - 1], actions[j - 1]) && run[j] == Next(run[j - 1], actions[j - 1])
    requires h < |run[j].hosts| == |run[j - 1].hosts| && Closes(run[j].hosts[h].poller) && c < |RetirementRuns.Cursors(run[j].hosts[h].poller)|
    ensures Marked(run, actions, j, run[j].hosts[h].poller.seen.sequence, h, c, RetirementRuns.Cursors(run[j].hosts[h].poller)[c])
  {
    var s, x, s' := run[j - 1], actions[j - 1], run[j];
    RetirementRuns.StepReporting(s, x, s', h);
    hide Next, Enabled;
    var before, after := RetirementRuns.Cursors(s.hosts[h].poller), RetirementRuns.Cursors(s'.hosts[h].poller);
    if c < |before| && before[c] == after[c] && Closes(s.hosts[h].poller) && s.hosts[h].poller.seen == s'.hosts[h].poller.seen {
      MarkedStays(run, actions, j - 1, s'.hosts[h].poller.seen.sequence, h, c, after[c]);
    } else {
      assert TookMark(run, actions, j - 1, s'.hosts[h].poller.seen.sequence, h, c, after[c]);
    }
  }

  /** The host has popped and handled all that its peers had published for it whenever they took a mark. */
  ghost predicate CaughtUpSince(run: seq<Sys>, actions: seq<Action>, j: nat, g: nat)
    requires j < |run| && g < |run[j].hosts| && RetirementRuns.Reporting(run[j].hosts[g].poller)
  {
    var poller := run[j].hosts[g].poller;
    forall k: nat, p: nat, mark: nat :: k < j && p != g && p < |RetirementRuns.Cursors(poller)| && TookMark(run, actions, k, poller.seen.sequence, p, g, mark) ==>
      mark <= RetirementRuns.Cursors(poller)[p]
  }

  /**
   A draining host is accepted exactly when none of its cursors is below what that producer
   recorded, which is a number of packets the producer had published when it closed. In
   particular a host that has handled all of those is always accepted, however little traffic
   there is.
   */
  lemma DrainedIsAccepted(run: seq<Sys>, actions: seq<Action>, n: nat, j: nat, g: nat)
    requires Run(run, actions) && run[0] == Init(n) && j < |actions| && actions[j] == Ack(g)
    requires g < |run[j].hosts| && RetirementRuns.Reporting(run[j].hosts[g].poller) && run[j].hosts[g].poller.seen.phase.Draining?
    ensures |run[j].hosts| == n && Square(run[j].control.marks, n) && |RetirementRuns.Cursors(run[j].hosts[g].poller)| == n
    ensures RetirementRuns.Answer(run[j], g).Acked? <==>
      forall p :: 0 <= p < n && p != g ==> run[j].control.marks[p][g] <= RetirementRuns.Cursors(run[j].hosts[g].poller)[p]
    ensures forall p :: 0 <= p < n ==> Marked(run, actions, j, run[j].hosts[g].poller.seen.sequence, p, g, run[j].control.marks[p][g])
    ensures CaughtUpSince(run, actions, j, g) ==> RetirementRuns.Answer(run[j], g).Acked?
  {
    hide Inv, Next, Enabled, Init, TookMark;
    var i := RetirementRuns.ReportIsCurrent(run, actions, n, j, g);
    RunKeeps(run, actions, n, j);
    MarksAreReal(run, actions, n, j);
    HostsFixed(run, actions, n, j);
    DrainingShape(run[j], g, n);
    var p := run[j].hosts[g].poller;
    ReportAnswered(run[j].control, run[j].objects[p.seen.obj], p.seen, g, RetirementRuns.Cursors(p), n);
    hide Acknowledge;
  }

  predicate Square(marks: seq<seq<nat>>, n: nat) {
    |marks| == n && forall p :: 0 <= p < n ==> |marks[p]| == n
  }

  lemma HostsFixed(run: seq<Sys>, actions: seq<Action>, n: nat, j: nat)
    requires Run(run, actions) && run[0] == Init(n) && j < |run|
    ensures |run[j].hosts| == n
  {
    RetirementRuns.RunOnward(run, actions, 0, j);
  }

  lemma DrainingShape(s: Sys, g: nat, n: nat)
    requires Inv(s) && |s.hosts| == n && g < n && RetirementRuns.Reporting(s.hosts[g].poller) && s.hosts[g].poller.seen.phase.Draining?
    ensures s.hosts[g].poller.seen == s.control.current && s.control.current.obj in s.objects
    ensures Square(s.control.marks, n) && forall p :: 0 <= p < n ==> p in s.control.closed
  {
    hide AllLive, ClosedOk, DrainedOk, CleanedOk;
    assert Progress(s, g);
  }

  // ------------------------------------------------------------------ references and packets

  /** A reference is given to a host that has not sealed the object, on a live object or where retiring ones are allowed. */
  lemma ReferenceAdmitted(s: Sys, h: nat, a: nat, allowRetiring: bool)
    requires h < |s.hosts| && a in s.objects && h < |s.objects[a].ops|
    ensures Enabled(s, AcquireReference(h, a, allowRetiring)) <==> h !in s.objects[a].sealed && (s.objects[a].state == Allocated || allowRetiring)
    ensures Enabled(s, ReleaseReference(h, a)) <==> s.objects[a].ops[h] > 0
  { }

  /** A host's count of active operations moves with its own references, and with nothing else while the object lives. */
  lemma ReferencesCounted(s: Sys, x: Action, a: nat, h: nat)
    requires Shape(s) && Enabled(s, x) && a in s.objects && a in Next(s, x).objects && h < |s.hosts|
    ensures |Next(s, x).objects[a].ops| == |s.hosts|
    ensures Next(s, x).objects[a].ops[h] == s.objects[a].ops[h]
      + (if x.AcquireReference? && x.host == h && x.obj == a then 1 else 0)
      - (if x.ReleaseReference? && x.host == h && x.obj == a then 1 else 0)
  {
    hide CaughtUp, Hosts, Acknowledged;
  }

  /** What host `p` has sent to `c` and `c` has not popped: published first, then deferred. */
  ghost function Unhandled(s: Sys, p: nat, c: nat): seq<Packet>
    requires Shape(s) && p < |s.hosts| && c < |s.hosts| && s.channels[p][c].consumed <= |s.channels[p][c].log|
  {
    s.channels[p][c].log[s.channels[p][c].consumed..] + s.hosts[p].outbound[c]
  }

  /** Packets that were neither popped by their receiver nor thrown away with their retiring object. */
  ghost predicate Flows(s: Sys, x: Action, p: nat, c: nat, before: seq<Packet>, after: seq<Packet>) {
    match x
    case SendToken(g, a, to) => after == if g == p && to == c then before + [TokenPacket(a)] else before
    case SendOther(g, to) => multiset(after) == if g == p && to == c then multiset(before) + multiset{OtherPacket} else multiset(before)
    case Pop(g, from) => if g == c && from == p then before != [] && after == before[1..] else after == before
    case CloseObject(g) =>
      if g == p && p < |s.hosts| && s.hosts[p].poller.Observed? then Discards(before, after, s.hosts[p].poller.seen.obj) else after == before
    case _ => after == before
  }

  /** Some packets of the object are gone, all others are there as often as before. */
  ghost predicate Discards(before: seq<Packet>, after: seq<Packet>, a: nat) {
    forall p :: multiset(after)[p] <= multiset(before)[p] && (p != TokenPacket(a) ==> multiset(after)[p] == multiset(before)[p])
  }

  lemma {:induction false} WithoutCounts(out: seq<Packet>, a: nat, p: Packet)
    ensures multiset(WithoutObject(out, a))[p] == if p == TokenPacket(a) then 0 else multiset(out)[p]
  {
    if out != [] {
      WithoutCounts(out[1..], a, p);
      assert out == [out[0]] + out[1..];
    }
  }

  /**
   No packet is lost, repeated or invented between two hosts: deferring, publishing and popping
   move it along in its order, and only sealing a host throws away deferred packets of the object
   being retired.
   */
  lemma PacketsFlow(s: Sys, x: Action, p: nat, c: nat)
    requires Inv(s) && Enabled(s, x) && p < |s.hosts| && c < |s.hosts|
    ensures |Next(s, x).hosts| == |s.hosts| && Shape(Next(s, x)) && s.channels[p][c].consumed <= |s.channels[p][c].log|
    ensures Next(s, x).channels[p][c].consumed <= |Next(s, x).channels[p][c].log|
    ensures Flows(s, x, p, c, Unhandled(s, p, c), Unhandled(Next(s, x), p, c))
  {
    hide Inv, Next, Enabled, Unhandled, Shape, Discards;
    StepKeeps(s, x);
    RetirementRuns.StepOnward(s, x, Next(s, x));
    ChannelOf(s, p, c);
    ChannelOf(Next(s, x), p, c);
    InvShape(s);
    InvShape(Next(s, x));
    match x
    case CloseObject(g) => CloseFlow(s, g, p, c);
    case Pop(g, from) => PopFlow(s, g, from, p, c);
    case SendOther(g, to) => OtherFlow(s, g, to, p, c);
    case SendToken(g, a, to) => SendFlow(s, g, a, to, p, c);
    case Flush(g, to) => FlushFlow(s, g, to, p, c);
    case _ => OwnFlow(s, x, p, c);
  }

  lemma InvShape(s: Sys)
    requires Inv(s)
    ensures Shape(s)
  { }

  lemma ChannelOf(s: Sys, p: nat, c: nat)
    requires Inv(s) && p < |s.hosts| && c < |s.hosts|
    ensures s.channels[p][c].consumed <= |s.channels[p][c].log|
  {
    assert ChannelLive(s.objects, s.channels[p][c]);
  }

  ghost predicate Room(s: Sys, t: Sys, p: nat, c: nat) {
    && Shape(s) && Shape(t) && p < |s.hosts| == |t.hosts| && c < |s.hosts|
    && s.channels[p][c].consumed <= |s.channels[p][c].log| && t.channels[p][c].consumed <= |t.channels[p][c].log|
  }

  lemma CloseFlow(s: Sys, g: nat, p: nat, c: nat)
    requires Enabled(s, CloseObject(g)) && Room(s, Next(s, CloseObject(g)), p, c)
    ensures Flows(s, CloseObject(g), p, c, Unhandled(s, p, c), Unhandled(Next(s, CloseObject(g)), p, c))
  {
    var t, a := Next(s, CloseObject(g)), s.hosts[g].poller.seen.obj;
    if g == p {
      var log := s.channels[p][c].log[s.channels[p][c].consumed..];
      assert Unhandled(t, p, c) == log + WithoutObject(s.hosts[p].outbound[c], a);
      hide Shape;
      forall q ensures multiset(Unhandled(t, p, c))[q] <= multiset(Unhandled(s, p, c))[q]
        && (q != TokenPacket(a) ==> multiset(Unhandled(t, p, c))[q] == multiset(Unhandled(s, p, c))[q])
      {
        WithoutCounts(s.hosts[p].outbound[c], a, q);
      }
    }
  }

  lemma PopFlow(s: Sys, g: nat, from: nat, p: nat, c: nat)
    requires Enabled(s, Pop(g, from)) && Room(s, Next(s, Pop(g, from)), p, c)
    ensures Flows(s, Pop(g, from), p, c, Unhandled(s, p, c), Unhandled(Next(s, Pop(g, from)), p, c))
  { }

  lemma OtherFlow(s: Sys, g: nat, to: nat, p: nat, c: nat)
    requires Enabled(s, SendOther(g, to)) && Room(s, Next(s, SendOther(g, to)), p, c)
    ensures Flows(s, SendOther(g, to), p, c, Unhandled(s, p, c), Unhandled(Next(s, SendOther(g, to)), p, c))
  {
    var ch := s.channels[p][c];
    assert (ch.log + [OtherPacket])[ch.consumed..] == ch.log[ch.consumed..] + [OtherPacket];
  }

  lemma SendFlow(s: Sys, g: nat, a: nat, to: nat, p: nat, c: nat)
    requires Enabled(s, SendToken(g, a, to)) && Room(s, Next(s, SendToken(g, a, to)), p, c)
    ensures Flows(s, SendToken(g, a, to), p, c, Unhandled(s, p, c), Unhandled(Next(s, SendToken(g, a, to)), p, c))
  {
    assert Unhandled(s, p, c) + [TokenPacket(a)] ==
      s.channels[p][c].log[s.channels[p][c].consumed..] + (s.hosts[p].outbound[c] + [TokenPacket(a)]);
  }

  lemma FlushFlow(s: Sys, g: nat, to: nat, p: nat, c: nat)
    requires Enabled(s, Flush(g, to)) && Room(s, Next(s, Flush(g, to)), p, c)
    ensures Unhandled(Next(s, Flush(g, to)), p, c) == Unhandled(s, p, c)
  {
    var ch, out := s.channels[p][c], s.hosts[p].outbound[c];
    if g == p && to == c {
      assert (ch.log + [out[0]])[ch.consumed..] == ch.log[ch.consumed..] + [out[0]];
      assert out == [out[0]] + out[1..];
    }
  }

  lemma OwnFlow(s: Sys, x: Action, p: nat, c: nat)
    requires Enabled(s, x) && Room(s, Next(s, x), p, c)
    requires !x.CloseObject? && !x.Pop? && !x.SendOther? && !x.SendToken? && !x.Flush?
    ensures Unhandled(Next(s, x), p, c) == Unhandled(s, p, c)
  {
    hide Acknowledge, Acknowledged;
  }
}
