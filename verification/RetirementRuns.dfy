/**
 Acknowledgements over whole runs. A progress callback reads the control slot, works without the
 extent lock and only then reports; between the two, phases and whole retirements may pass.
 */
module RetirementRuns {
  import opened Retirement

  /** Where a control slot stands in the order of all phases of all retirements. */
  function Rank(c: Snapshot): nat {
    5 * c.sequence +
    match c.phase
    case Closing => 0
    case Draining => 1
    case Cleaning => 2
    case Reclaimable => 3
    case Idle => 4
  }

  /** The slot only moves forward, and stays exactly as it is while it does not. */
  predicate Onward(c: Snapshot, c': Snapshot) {
    Rank(c) <= Rank(c') && (Rank(c) == Rank(c') ==> c == c')
  }

  lemma AcknowledgeOnward(c: Control, o: Object, seen: Snapshot, host: nat, cursors: seq<nat>, n: nat)
    ensures Onward(c.current, Acknowledge(c, o, seen, host, cursors, n).0.current)
  { }

  lemma StepOnward(s: Sys, x: Action, s': Sys)
    requires Enabled(s, x) && s' == Next(s, x)
    ensures Onward(s.control.current, s'.control.current) && |s'.hosts| == |s.hosts|
  {
    hide Acknowledge;
    if x.Ack? {
      var g := x.host;
      var p := s.hosts[g].poller;
      var cursors := if p.Sampling? then p.cursors else [];
      if p.seen.obj in s.objects { AcknowledgeOnward(s.control, s.objects[p.seen.obj], p.seen, g, cursors, |s.hosts|); }
    }
  }

  lemma {:induction false} RunOnward(run: seq<Sys>, actions: seq<Action>, i: nat, j: nat)
    requires Run(run, actions) && i <= j < |run|
    ensures Onward(run[i].control.current, run[j].control.current) && |run[j].hosts| == |run[i].hosts|
    decreases j
  {
    hide Next, Enabled;
    if i < j {
      RunOnward(run, actions, i, j - 1);
      StepOnward(run[j - 1], actions[j - 1], run[j]);
    }
  }

  /** The poller is between reading the control slot and reporting. */
  predicate Reporting(p: Poller) {
    p.Observed? || p.Sampling? || p.Swept?
  }

  function Cursors(p: Poller): seq<nat> {
    if p.Sampling? then p.cursors else []
  }

  /** Who moves a reporting poller, and how. */
  lemma StepReporting(s: Sys, x: Action, s': Sys, g: nat)
    requires Enabled(s, x) && s' == Next(s, x) && g < |s.hosts| == |s'.hosts| && Reporting(s'.hosts[g].poller)
    ensures if Reporting(s.hosts[g].poller)
            then s'.hosts[g].poller.seen == s.hosts[g].poller.seen
            else x == Observe(g) && s'.hosts[g].poller == Observed(s.control.current)
    ensures Cursors(s'.hosts[g].poller) == Cursors(s.hosts[g].poller)
      || (x == Sample(g) && Reporting(s.hosts[g].poller) && CursorTaken(s, g, Cursors(s.hosts[g].poller), Cursors(s'.hosts[g].poller)))
      || (Cursors(s'.hosts[g].poller) == [] && !s'.hosts[g].poller.Sampling?)
  {
    hide Acknowledge;
  }

  /** One more cursor, read while the host is in no handler. */
  predicate CursorTaken(s: Sys, g: nat, before: seq<nat>, after: seq<nat>) {
    && g < |s.hosts| && |after| == |before| + 1 && before == after[..|before|]
    && (s.hosts[g].poller.Observed? || s.hosts[g].poller.Sampling?)
    && (s.hosts[g].poller.seen.phase.Draining? ==>
          |before| < |s.channels| && g < |s.channels[|before|]| && after[|before|] == s.channels[|before|][g].consumed)
    && (s.hosts[g].poller.seen.phase.Closing? ==>
          g < |s.channels| && |before| < |s.channels[g]| && after[|before|] == |s.channels[g][|before|].log|)
  }

  /** Each draining cursor is a count of handled packets at some step since the slot was read. */
  ghost predicate Counted(run: seq<Sys>, i: nat, j: nat, g: nat)
    requires i < j < |run|
  {
    && g < |run[j].hosts|
    && forall p :: 0 <= p < |Cursors(run[j].hosts[g].poller)| && run[j].hosts[g].poller.seen.phase.Draining? ==>
         CountedAt(run, i, j, g, p, Cursors(run[j].hosts[g].poller)[p])
  }

  ghost predicate CountedAt(run: seq<Sys>, i: nat, j: nat, g: nat, p: nat, cursor: nat)
    requires i < j < |run|
  {
    exists k :: i < k < j && HandledUpTo(run[k], g, p, cursor)
  }

  /** The host has popped and handled exactly `cursor` packets of peer `p`. */
  predicate HandledUpTo(s: Sys, g: nat, p: nat, cursor: nat) {
    && g < |s.hosts| && !s.hosts[g].poller.Handling?
    && p < |s.channels| && g < |s.channels[p]| && s.channels[p][g].consumed == cursor
  }

  /** A reporting poller read the slot at an earlier step and has been at it since. */
  lemma {:induction false} ReadSince(run: seq<Sys>, actions: seq<Action>, n: nat, j: nat, g: nat) returns (i: nat)
    requires Run(run, actions) && run[0] == Init(n) && j < |run| && g < |run[j].hosts| && Reporting(run[j].hosts[g].poller)
    ensures i < j && actions[i] == Observe(g) && run[i].control.current == run[j].hosts[g].poller.seen
    ensures forall k :: i < k <= j ==>
      g < |run[k].hosts| && Reporting(run[k].hosts[g].poller) && run[k].hosts[g].poller.seen == run[j].hosts[g].poller.seen
    ensures Counted(run, i, j, g)
  {
    hide Next, Enabled, CountedAt, HandledUpTo;
    RunOnward(run, actions, 0, j);
    assert 0 < j;
    var s, x, s' := run[j - 1], actions[j - 1], run[j];
    StepOnward(s, x, s');
    StepReporting(s, x, s', g);
    if Reporting(s.hosts[g].poller) {
      i := ReadSince(run, actions, n, j - 1, g);
      CountedOn(run, actions, i, j, g);
    } else {
      i := j - 1;
    }
  }

  lemma CountedOn(run: seq<Sys>, actions: seq<Action>, i: nat, j: nat, g: nat)
    requires Run(run, actions) && i < j - 1 && j < |run| && Counted(run, i, j - 1, g)
    requires g < |run[j].hosts| == |run[j - 1].hosts| && Reporting(run[j].hosts[g].poller) && Reporting(run[j - 1].hosts[g].poller)
    ensures Counted(run, i, j, g)
  {
    hide Next, Enabled;
    var s, s' := run[j - 1], run[j];
    StepReporting(s, actions[j - 1], s', g);
    var before, after := Cursors(s.hosts[g].poller), Cursors(s'.hosts[g].poller);
    if s'.hosts[g].poller.seen.phase.Draining? {
      forall p | 0 <= p < |after| ensures CountedAt(run, i, j, g, p, after[p]) {
        if p < |before| && after[p] == before[p] {
          assert CountedAt(run, i, j - 1, g, p, before[p]);
          var k :| i < k < j - 1 && HandledUpTo(run[k], g, p, before[p]);
          assert HandledUpTo(run[k], g, p, after[p]);
        } else {
          assert HandledUpTo(run[j - 1], g, p, after[p]);
        }
      }
    }
  }

  /** What the allocator answers to the report of host `g`. */
  function Answer(s: Sys, g: nat): AckStatus
    requires g < |s.hosts| && Reporting(s.hosts[g].poller)
  {
    var p := s.hosts[g].poller;
    if p.seen.obj !in s.objects then Stale
    else Acknowledge(s.control, s.objects[p.seen.obj], p.seen, g, Cursors(p), |s.hosts|).2
  }

  /**
   In any state, reachable or not: a report from another phase or another retirement is stale,
   and a report that is not accepted leaves the slot and every object as they were.
   */
  lemma AnswerMeans(s: Sys, g: nat)
    requires Enabled(s, Ack(g))
    ensures Rank(s.control.current) != Rank(s.hosts[g].poller.seen) ==> Answer(s, g) == Stale
    ensures Rank(s.control.current) == Rank(s.hosts[g].poller.seen) && s.hosts[g].poller.seen.obj in s.objects ==>
      Answer(s, g) != Stale
    ensures Answer(s, g) != Acked ==> Next(s, Ack(g)).control == s.control && Next(s, Ack(g)).objects == s.objects
  { }

  /** The slot stands still between two states with equal slots. */
  lemma StoodStill(run: seq<Sys>, actions: seq<Action>, i: nat, j: nat)
    requires Run(run, actions) && i <= j < |run| && run[i].control.current == run[j].control.current
    ensures forall k :: i <= k <= j ==> run[k].control.current == run[j].control.current
  {
    hide Run, Rank;
    forall k | i <= k <= j ensures run[k].control.current == run[j].control.current {
      RunOnward(run, actions, i, k);
      RunOnward(run, actions, k, j);
    }
  }

  /** What host `g` read of the slot is what it held at every state from `i` to `j`. */
  ghost predicate StillAsRead(run: seq<Sys>, i: nat, j: nat, g: nat) {
    && i < j < |run| && g < |run[j].hosts| && Reporting(run[j].hosts[g].poller)
    && forall k :: i <= k <= j ==> run[k].control.current == run[j].hosts[g].poller.seen
  }

  /** A draining report carries one counted cursor for each peer. */
  ghost predicate AllCounted(run: seq<Sys>, i: nat, j: nat, g: nat)
    requires StillAsRead(run, i, j, g)
  {
    var poller := run[j].hosts[g].poller;
    poller.seen.phase.Draining? ==>
      && |Cursors(poller)| == |run[j].hosts|
      && forall p :: 0 <= p < |Cursors(poller)| ==> CountedAt(run, i, j, g, p, Cursors(poller)[p])
  }

  /**
   Every report of every run is for the phase it was prepared in. The control slot is what the
   host read, at every state since it read it; so the report is never stale, and when it is not
   accepted it changes nothing. The cursors of a draining report are counts of packets the host
   had popped and finished handling, each taken after the host read the slot.
   */
  lemma ReportIsCurrent(run: seq<Sys>, actions: seq<Action>, n: nat, j: nat, g: nat) returns (i: nat)
    requires Run(run, actions) && run[0] == Init(n) && j < |actions| && actions[j] == Ack(g)
    ensures StillAsRead(run, i, j, g) && AllCounted(run, i, j, g) && actions[i] == Observe(g)
    ensures Answer(run[j], g) != Stale
    ensures Answer(run[j], g) == NotYet ==> run[j + 1].control == run[j].control && run[j + 1].objects == run[j].objects
  {
    hide Next, CountedAt, Answer, Inv, Rank;
    assert Enabled(run[j], actions[j]) && run[j + 1] == Next(run[j], actions[j]);
    AckReports(run[j], g);
    hide Enabled, Run;
    i := ReadSince(run, actions, n, j, g);
    AnswerMeans(run[j], g);
    RunKeeps(run, actions, n, j);
    ReporterCurrent(run[j], g);
    StoodStill(run, actions, i, j);
  }

  lemma AckReports(s: Sys, g: nat)
    requires Enabled(s, Ack(g))
    ensures g < |s.hosts| && Reporting(s.hosts[g].poller)
    ensures !s.hosts[g].poller.Swept? ==> |Cursors(s.hosts[g].poller)| == |s.hosts|
  { }

  /** What the invariant says of a host that is about to report. */
  lemma ReporterCurrent(s: Sys, g: nat)
    requires Inv(s) && g < |s.hosts| && Reporting(s.hosts[g].poller)
    ensures s.hosts[g].poller.seen == s.control.current && s.control.current.obj in s.objects
    ensures s.hosts[g].poller.Swept? ==> s.hosts[g].poller.seen.phase.Cleaning?
  {
    hide AllLive, ClosedOk, DrainedOk, CleanedOk;
    assert Progress(s, g);
  }
}
