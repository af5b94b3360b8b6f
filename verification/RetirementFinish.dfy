/**
 A retirement can always be finished. From every state in which the hosts are between calls, hold
 nothing of the object and have handled what was sent to them, reports alone lead to the free.
 Nothing in the phases, masks and watermarks waits for anything else.
 */
module RetirementFinish {
  import opened Retirement
  import RetirementRuns
  import RetirementLaws

  // ------------------------------------------------------------------ going on

  ghost predicate Leads(s: Sys, t: Sys) {
    exists run, actions :: Goes(s, t, run, actions)
  }

  ghost predicate Goes(s: Sys, t: Sys, run: seq<Sys>, actions: seq<Action>) {
    Run(run, actions) && run[0] == s && run[|actions|] == t
  }

  lemma LeadsHere(s: Sys)
    ensures Leads(s, s)
  {
    assert Goes(s, s, [s], []);
  }

  lemma LeadsOn(s: Sys, t: Sys, x: Action)
    requires Leads(s, t) && Enabled(t, x)
    ensures Leads(s, Next(t, x))
  {
    hide Next, Enabled;
    var run, actions :| Goes(s, t, run, actions);
    var run', actions' := run + [Next(t, x)], actions + [x];
    forall i | 0 <= i < |actions'| ensures Enabled(run'[i], actions'[i]) && run'[i + 1] == Next(run'[i], actions'[i]) {
      if i < |actions| { assert Enabled(run[i], actions[i]) && run[i + 1] == Next(run[i], actions[i]); }
    }
    assert Goes(s, Next(t, x), run', actions');
  }

  lemma LeadsBoth(s: Sys, t: Sys, u: Sys)
    requires Leads(s, t) && Leads(t, u)
    ensures Leads(s, u)
  {
    hide Next, Enabled;
    var run, actions :| Goes(s, t, run, actions);
    var more, steps :| Goes(t, u, more, steps);
    var run', actions' := run + more[1..], actions + steps;
    forall i | 0 <= i < |actions'| ensures Enabled(run'[i], actions'[i]) && run'[i + 1] == Next(run'[i], actions'[i]) {
      if i < |actions| {
        assert Enabled(run[i], actions[i]) && run[i + 1] == Next(run[i], actions[i]);
      } else {
        var k := i - |actions|;
        assert Enabled(more[k], steps[k]) && more[k + 1] == Next(more[k], steps[k]);
        assert run'[i] == more[k] && run'[i + 1] == more[k + 1];
      }
    }
    assert Goes(s, u, run', actions');
  }

  // ------------------------------------------------------------------ watermarks stay within what was published

  ghost predicate MarksWithin(s: Sys) {
    (forall p :: p in s.control.closed ==> MarkWithin(s, p)) && forall h :: 0 <= h < |s.hosts| ==> CursorsWithin(s, h)
  }

  /** What host `p` recorded at closing is no more than it has published. */
  predicate MarkWithin(s: Sys, p: nat) {
    p < |s.channels| && p < |s.control.marks| ==> Within(s.control.marks[p], s.channels[p])
  }

  /** Nor is what a closing host has read so far. */
  predicate CursorsWithin(s: Sys, h: nat) {
    h < |s.hosts| && h < |s.channels| && RetirementLaws.Closes(s.hosts[h].poller) ==>
      Within(RetirementRuns.Cursors(s.hosts[h].poller), s.channels[h])
  }

  predicate Within(cursors: seq<nat>, row: seq<Channel>) {
    forall c :: 0 <= c < |cursors| && c < |row| ==> cursors[c] <= |row[c].log|
  }

  ghost predicate LogsGrow(s: Sys, s': Sys) {
    && |s'.channels| == |s.channels|
    && (forall p :: 0 <= p < |s.channels| ==> |s'.channels[p]| == |s.channels[p]|)
    && (forall p, c :: 0 <= p < |s.channels| && 0 <= c < |s.channels[p]| ==> |s.channels[p][c].log| <= |s'.channels[p][c].log|)
  }

  lemma StepLogs(s: Sys, x: Action, s': Sys)
    requires Enabled(s, x) && s' == Next(s, x) && Shape(s)
    ensures LogsGrow(s, s')
  {
    hide Acknowledge, Acknowledged;
  }

  lemma StepWithin(s: Sys, x: Action, s': Sys)
    requires Inv(s) && MarksWithin(s) && Enabled(s, x) && s' == Next(s, x)
    ensures MarksWithin(s')
  {
    hide Inv, Next, Enabled, Within, MarkWithin, CursorsWithin;
    RetirementRuns.StepOnward(s, x, s');
    InvShape(s);
    StepLogs(s, x, s');
    forall p | p in s'.control.closed ensures MarkWithin(s', p) { MarkStep(s, x, s', p); }
    forall h | 0 <= h < |s'.hosts| ensures CursorsWithin(s', h) { CursorStep(s, x, s', h); }
  }

  lemma MarkStep(s: Sys, x: Action, s': Sys, p: nat)
    requires Inv(s) && MarksWithin(s) && Enabled(s, x) && s' == Next(s, x) && LogsGrow(s, s') && p in s'.control.closed
    ensures MarkWithin(s', p)
  {
    hide Inv, Next, Enabled;
    RetirementLaws.StepMarks(s, x, s', p);
    if p in s.control.closed { assert MarkWithin(s, p); }
    if p < |s.hosts| { assert CursorsWithin(s, p); }
    if p < |s.channels| { WithinGrows(s'.control.marks[p], s, s', p); }
  }

  lemma WithinGrows(cursors: seq<nat>, s: Sys, s': Sys, p: nat)
    requires LogsGrow(s, s') && p < |s.channels| && Within(cursors, s.channels[p])
    ensures Within(cursors, s'.channels[p])
  {
    forall c | 0 <= c < |cursors| && c < |s'.channels[p]| ensures cursors[c] <= |s'.channels[p][c].log| {
      assert |s.channels[p][c].log| <= |s'.channels[p][c].log|;
    }
  }

  lemma CursorStep(s: Sys, x: Action, s': Sys, h: nat)
    requires MarksWithin(s) && Enabled(s, x) && s' == Next(s, x) && LogsGrow(s, s') && h < |s.hosts| == |s'.hosts|
    ensures CursorsWithin(s', h)
  {
    hide Next, Enabled;
    assert CursorsWithin(s, h);
    if RetirementLaws.Closes(s'.hosts[h].poller) && h < |s.channels| {
      RetirementRuns.StepReporting(s, x, s', h);
      var before, after := RetirementRuns.Cursors(s.hosts[h].poller), RetirementRuns.Cursors(s'.hosts[h].poller);
      assert Within(before, s.channels[h]);
      WithinGrows(before, s, s', h);
      forall c | 0 <= c < |after| && c < |s'.channels[h]| ensures after[c] <= |s'.channels[h][c].log| {
        assert c < |before| || |s.channels[h][c].log| <= |s'.channels[h][c].log|;
      }
    }
  }

  lemma InvShape(s: Sys)
    requires Inv(s)
    ensures Shape(s)
  { }

  // ------------------------------------------------------------------ resting

  /** Between calls, with nothing of the object held, and everything sent to the hosts handled. */
  predicate Resting(s: Sys, a: nat) {
    && s.control.current.obj == a && s.control.coordinator < |s.hosts|
    && a in s.objects && (forall i :: 0 <= i < |s.objects[a].ops| ==> s.objects[a].ops[i] == 0)
    && (forall h :: 0 <= h < |s.hosts| ==> s.hosts[h].poller.Scanning? && s.hosts[h].section.None? && s.hosts[h].held !! s.objects[a].keys)
    && (forall p, c :: 0 <= p < |s.channels| && 0 <= c < |s.channels[p]| ==> s.channels[p][c].consumed == |s.channels[p][c].log|)
  }

  ghost predicate Good(s: Sys) {
    Inv(s) && MarksWithin(s)
  }

  lemma GoodOn(s: Sys, x: Action)
    requires Good(s) && Enabled(s, x)
    ensures Good(Next(s, x))
  {
    hide Inv, Next, Enabled, MarksWithin;
    StepKeeps(s, x);
    StepWithin(s, x, Next(s, x));
  }

  /** The host is in the middle of its report: it has read `cursors` and will read the rest. */
  function Sampler(s: Sys, g: nat, cursors: seq<nat>): Sys
    requires g < |s.hosts|
  {
    SetHost(s, g, s.hosts[g].(poller := Sampling(s.control.current, cursors)))
  }

  predicate CanSample(s: Sys, g: nat) {
    && g < |s.hosts| == |s.channels| && (forall p :: 0 <= p < |s.channels| ==> |s.channels[p]| == |s.hosts|)
    && (s.control.current.phase.Closing? || s.control.current.phase.Draining?)
  }

  /** What the host reads for one peer. */
  function CursorOf(s: Sys, g: nat, c: nat): nat
    requires CanSample(s, g) && c < |s.hosts|
  {
    if s.control.current.phase.Closing? then |s.channels[g][c].log| else s.channels[c][g].consumed
  }

  lemma {:induction false} SampleRest(s: Sys, t: Sys, g: nat, cursors: seq<nat>) returns (all: seq<nat>)
    requires CanSample(t, g) && |cursors| <= |t.hosts| && Leads(s, Sampler(t, g, cursors))
    requires forall c :: 0 <= c < |cursors| ==> cursors[c] == CursorOf(t, g, c)
    ensures |all| == |t.hosts| && Leads(s, Sampler(t, g, all)) && forall c :: 0 <= c < |all| ==> all[c] == CursorOf(t, g, c)
    decreases |t.hosts| - |cursors|
  {
    hide Leads;
    if |cursors| == |t.hosts| {
      all := cursors;
    } else {
      var u := Sampler(t, g, cursors);
      LeadsOn(s, u, Sample(g));
      var more := cursors + [CursorOf(t, g, |cursors|)];
      assert Next(u, Sample(g)) == Sampler(t, g, more);
      all := SampleRest(s, t, g, more);
    }
  }

  lemma LeadsGood(s: Sys, t: Sys)
    requires Good(s) && Leads(s, t)
    ensures Good(t)
  {
    hide Good, Next, Enabled;
    var run, actions :| Goes(s, t, run, actions);
    GoodAlong(run, actions, |actions|);
  }

  lemma {:induction false} GoodAlong(run: seq<Sys>, actions: seq<Action>, i: nat)
    requires Run(run, actions) && Good(run[0]) && i < |run|
    ensures Good(run[i])
  {
    hide Good, Next, Enabled;
    if i > 0 {
      GoodAlong(run, actions, i - 1);
      GoodOn(run[i - 1], actions[i - 1]);
    }
  }

  // ------------------------------------------------------------------ one host's report

  predicate InProgress(c: Control) {
    c.current.phase.Closing? || c.current.phase.Draining? || c.current.phase.Cleaning?
  }

  /** A host that has not reported for the phase yet. */
  predicate Due(s: Sys, a: nat, g: nat) {
    Resting(s, a) && InProgress(s.control) && g < |s.hosts| && !Acknowledged(s.control, s.control.current, g)
  }

  /** The state once host `g` has reported, its own state being `host` then. */
  ghost predicate Counts(s: Sys, t: Sys, a: nat, g: nat, host: Host, o: Object, cursors: seq<nat>) {
    && g < |s.hosts| && a in s.objects && InProgress(s.control)
    && host.poller.Scanning? && host.section.None? && host.held == s.hosts[g].held
    && o == s.objects[a].(sealed := o.sealed, holders := o.holders)
    && var (c, o', status) := Acknowledge(s.control, o, s.control.current, g, cursors, |s.hosts|);
       status.Acked? && t == SetObject(SetHost(s, g, host), a, o').(control := c)
  }

  /** Reading the slot, and what is left of the host's state after the call that follows. */
  lemma Asked(s: Sys, a: nat, g: nat)
    requires Due(s, a, g)
    ensures Leads(s, SetHost(s, g, s.hosts[g].(poller := Observed(s.control.current))))
  {
    hide Leads;
    LeadsHere(s);
    LeadsOn(s, s, Observe(g));
  }

  lemma SamplesAllowed(s: Sys, g: nat)
    requires Good(s) && g < |s.hosts| && (s.control.current.phase.Closing? || s.control.current.phase.Draining?)
    ensures CanSample(s, g)
  { }

  lemma HostCloses(s: Sys, a: nat, g: nat) returns (t: Sys, host: Host, cursors: seq<nat>)
    requires Good(s) && Due(s, a, g) && s.control.current.phase.Closing?
    ensures Leads(s, t) && Counts(s, t, a, g, host, s.objects[a], cursors)
  {
    hide Good, Leads;
    Asked(s, a, g);
    var u := SetHost(s, g, s.hosts[g].(poller := Observed(s.control.current)));
    LeadsOn(s, u, CloseObject(g));
    var shut := Next(u, CloseObject(g));
    host := shut.hosts[g].(poller := Scanning);
    var rest := SetHost(s, g, host);
    assert shut == Sampler(rest, g, []);
    SamplesAllowed(s, g);
    assert CanSample(rest, g);
    cursors := SampleRest(s, rest, g, []);
    var v := Sampler(rest, g, cursors);
    LeadsOn(s, v, Ack(g));
    t := Next(v, Ack(g));
    RetirementLaws.ReportAnswered(s.control, s.objects[a], s.control.current, g, cursors, |s.hosts|);
    hide Acknowledge;
    assert SetHost(v, g, v.hosts[g].(poller := Scanning)) == rest;
  }

  lemma HostDrains(s: Sys, a: nat, g: nat) returns (t: Sys, cursors: seq<nat>)
    requires Good(s) && Due(s, a, g) && s.control.current.phase.Draining?
    ensures Leads(s, t) && Counts(s, t, a, g, s.hosts[g], s.objects[a], cursors)
  {
    hide Good, Leads;
    Asked(s, a, g);
    SamplesAllowed(s, g);
    var u := SetHost(s, g, s.hosts[g].(poller := Observed(s.control.current)));
    LeadsOn(s, u, Sample(g));
    var first := [CursorOf(s, g, 0)];
    FirstSample(s, u, g);
    cursors := SampleRest(s, s, g, first);
    var v := Sampler(s, g, cursors);
    LeadsOn(s, v, Ack(g));
    t := Next(v, Ack(g));
    NoMarkAbove(s, a, g, cursors);
    RetirementLaws.ReportAnswered(s.control, s.objects[a], s.control.current, g, cursors, |s.hosts|);
    hide Acknowledge;
    assert SetHost(v, g, v.hosts[g].(poller := Scanning)) == s;
  }

  lemma FirstSample(s: Sys, u: Sys, g: nat)
    requires CanSample(s, g) && s.control.current.phase.Draining? && u == SetHost(s, g, s.hosts[g].(poller := Observed(s.control.current)))
    ensures Enabled(u, Sample(g)) && Next(u, Sample(g)) == Sampler(s, g, [CursorOf(s, g, 0)])
  {
    assert [] + [CursorOf(s, g, 0)] == [CursorOf(s, g, 0)];
    assert u.hosts[g := Sampler(s, g, [CursorOf(s, g, 0)]).hosts[g]] == Sampler(s, g, [CursorOf(s, g, 0)]).hosts;
  }

  /** With everything handled, no cursor is below a watermark. */
  lemma NoMarkAbove(s: Sys, a: nat, g: nat, cursors: seq<nat>)
    requires Good(s) && Resting(s, a) && s.control.current.phase.Draining? && CanSample(s, g) && |cursors| == |s.hosts|
    requires forall c :: 0 <= c < |cursors| ==> cursors[c] == CursorOf(s, g, c)
    ensures forall p :: 0 <= p < |s.control.marks| && p != g && p < |cursors| && g < |s.control.marks[p]| ==> s.control.marks[p][g] <= cursors[p]
  {
    forall p | 0 <= p < |s.control.marks| && p != g && p < |cursors| && g < |s.control.marks[p]| ensures s.control.marks[p][g] <= cursors[p] {
      assert p in s.control.closed && MarkWithin(s, p);
      assert s.channels[p][g].consumed == |s.channels[p][g].log|;
    }
  }

  lemma HostCleans(s: Sys, a: nat, g: nat) returns (t: Sys, host: Host, o: Object)
    requires Good(s) && Due(s, a, g) && s.control.current.phase.Cleaning?
    ensures Leads(s, t) && Counts(s, t, a, g, host, o, [])
  {
    hide Good, Leads;
    Asked(s, a, g);
    var u := SetHost(s, g, s.hosts[g].(poller := Observed(s.control.current)));
    LeadsOn(s, u, Sweep(g));
    var v := Next(u, Sweep(g));
    LeadsOn(s, v, Ack(g));
    t := Next(v, Ack(g));
    host, o := v.hosts[g].(poller := Scanning), v.objects[a];
    RetirementLaws.ReportAnswered(s.control, o, s.control.current, g, [], |s.hosts|);
    hide Acknowledge;
    assert SetHost(v, g, host) == SetObject(SetHost(s, g, host), a, o);
  }

  lemma HostReports(s: Sys, a: nat, g: nat) returns (t: Sys, host: Host, o: Object, cursors: seq<nat>)
    requires Good(s) && Due(s, a, g)
    ensures Leads(s, t) && Counts(s, t, a, g, host, o, cursors)
  {
    hide Good, Leads, Counts;
    host, o, cursors := s.hosts[g], s.objects[a], [];
    if s.control.current.phase.Closing? {
      t, host, cursors := HostCloses(s, a, g);
    } else if s.control.current.phase.Draining? {
      t, cursors := HostDrains(s, a, g);
    } else {
      t, host, o := HostCleans(s, a, g);
    }
  }

  // ------------------------------------------------------------------ all of them

  /** Reports still missing, over all phases. */
  function Missing(s: Sys): int {
    3 * |s.hosts| - |s.control.closed| - |s.control.drained| - |s.control.cleaned|
  }

  lemma {:induction false} HostsCount(n: nat)
    ensures |Hosts(n)| == n
  {
    if n > 0 { HostsCount(n - 1); }
  }

  lemma SubsetCount(a: set<nat>, b: set<nat>)
    requires a <= b
    ensures |a| <= |b|
  {
    assert b == a + (b - a);
  }

  lemma MissingBound(s: Sys)
    requires ControlOk(s)
    ensures Missing(s) >= 0
  {
    HostsCount(|s.hosts|);
    SubsetCount(s.control.closed, Hosts(|s.hosts|));
    SubsetCount(s.control.drained, Hosts(|s.hosts|));
    SubsetCount(s.control.cleaned, Hosts(|s.hosts|));
  }

  /** Some host is due as long as the phase has not moved on. */
  lemma SomeoneDue(s: Sys, a: nat) returns (g: nat)
    requires ControlOk(s) && Resting(s, a) && InProgress(s.control)
    ensures Due(s, a, g)
  {
    var c, n := s.control, |s.hosts|;
    var mask := if c.current.phase.Closing? then c.closed else if c.current.phase.Draining? then c.drained else c.cleaned;
    assert mask <= Hosts(n) && mask != Hosts(n);
    assert Hosts(n) == mask + (Hosts(n) - mask);
    g :| g in Hosts(n) - mask;
    RetirementLaws.AskedUntilCounted(c, c.current, g, n);
  }

  /** Counting one report leaves the hosts at rest with one report fewer to come. */
  lemma CountedOne(s: Sys, t: Sys, a: nat, g: nat, host: Host, o: Object, cursors: seq<nat>)
    requires Due(s, a, g) && Counts(s, t, a, g, host, o, cursors)
    ensures Resting(t, a) && Missing(t) == Missing(s) - 1 && |t.hosts| == |s.hosts|
    ensures InProgress(t.control) || t.control.current.phase.Reclaimable?
  {
    RetirementLaws.ReportRecorded(s.control, o, s.control.current, g, cursors, |s.hosts|);
    RetirementLaws.AskedUntilCounted(s.control, s.control.current, g, |s.hosts|);
    hide Acknowledge, RetirementLaws.Full, Acknowledged;
  }

  /**
   Every retirement can be finished from every such state, by reports of the hosts and one free:
   afterwards the object is gone and the slot is ready for the next retirement.
   */
  lemma {:induction false} CanFinish(s: Sys, a: nat) returns (t: Sys)
    requires Good(s) && Resting(s, a) && (InProgress(s.control) || s.control.current.phase.Reclaimable?)
    ensures Leads(s, t) && a !in t.objects && t.control.current.phase.Idle? && t.control.current.sequence == s.control.current.sequence
    decreases MissingNat(s)
  {
    hide Leads, Next, Enabled, Counts;
    if s.control.current.phase.Reclaimable? {
      LeadsHere(s);
      FreeFinishes(s, a);
      LeadsOn(s, s, Free(s.control.coordinator, a));
      t := Next(s, Free(s.control.coordinator, a));
    } else {
      var g := SomeoneDue(s, a);
      var u, host, o, cursors := HostReports(s, a, g);
      CountedOne(s, u, a, g, host, o, cursors);
      SameSequence(s, u, a, g, host, o, cursors);
      LeadsGood(s, u);
      MissingBound(u);
      MissingBound(s);
      t := CanFinish(u, a);
      LeadsBoth(s, u, t);
    }
  }

  function MissingNat(s: Sys): nat {
    if Missing(s) >= 0 then Missing(s) else 0
  }

  lemma SameSequence(s: Sys, t: Sys, a: nat, g: nat, host: Host, o: Object, cursors: seq<nat>)
    requires Counts(s, t, a, g, host, o, cursors)
    ensures t.control.current.sequence == s.control.current.sequence
  {
    RetirementLaws.ReportRecorded(s.control, o, s.control.current, g, cursors, |s.hosts|);
    hide Acknowledge;
  }

  lemma FreeFinishes(s: Sys, a: nat)
    requires Inv(s) && Resting(s, a) && s.control.current.phase.Reclaimable?
    ensures Enabled(s, Free(s.control.coordinator, a))
    ensures var t := Next(s, Free(s.control.coordinator, a));
      a !in t.objects && t.control.current.phase.Idle? && t.control.current.sequence == s.control.current.sequence
  {
    ReclaimableIsGone(s);
  }

  lemma {:induction false} RunGood(run: seq<Sys>, actions: seq<Action>, n: nat, i: nat)
    requires Run(run, actions) && run[0] == Init(n) && i < |run|
    ensures Good(run[i])
  {
    hide Good, Next, Enabled;
    if i == 0 {
      InitInv(n);
      InitGood(n);
    } else {
      RunGood(run, actions, n, i - 1);
      GoodOn(run[i - 1], actions[i - 1]);
    }
  }

  lemma InitGood(n: nat)
    requires Inv(Init(n))
    ensures Good(Init(n))
  { }

  /** So it is in every run: a retirement that has begun can be finished from every reachable resting state. */
  lemma RetirementCanFinish(run: seq<Sys>, actions: seq<Action>, n: nat, i: nat, a: nat) returns (t: Sys)
    requires Run(run, actions) && run[0] == Init(n) && i < |run| && Resting(run[i], a) && !run[i].control.current.phase.Idle?
    ensures Leads(run[i], t) && a !in t.objects && t.control.current.phase.Idle? && t.control.current.sequence == run[i].control.current.sequence
  {
    hide Good, Leads, Resting, Next, Enabled, Init;
    RunGood(run, actions, n, i);
    t := CanFinish(run[i], a);
  }
}
