/**
 Results of remote threads over whole runs: what a joiner gets is what the execution ended with,
 or the refusal the execution host really gave; and a launch that is admitted can always be
 carried through to its join.
 */
module RemoteResults {
  import opened RemoteThreads

  // ------------------------------------------------------------------ where a result comes from

  /** The step ends thread `id` with `code`: its callback returned, or its start was refused or failed. */
  predicate EndsWith(s: Sys, x: Action, id: Id, code: int) {
    match x
    case FinishLocal(y, c) => y == id && c == code
    case FinishRemote(y, c) => y == id && c == code
    case DeliverCreate(y, resolved, started) =>
      && y == id && y in s.creates && s.creates[y] < |s.running|
      && (if !resolved then code == -1
          else if s.runningLimit != 0 && s.running[s.creates[y]] >= s.runningLimit then code == -2
          else !started && code == -1)
    case _ => false
  }

  predicate Ends(run: seq<Sys>, actions: seq<Action>, i: nat, id: Id, code: int) {
    i < |run| && i < |actions| && EndsWith(run[i], actions[i], id, code)
  }

  ghost predicate Genuine(run: seq<Sys>, actions: seq<Action>, j: nat, id: Id, code: int) {
    exists i :: 0 <= i < j && Ends(run, actions, i, id, code)
  }

  /** Everything that carries a result carries a genuine one. */
  ghost predicate AllGenuine(run: seq<Sys>, actions: seq<Action>, j: nat)
    requires j < |run|
  {
    && (forall id :: id in run[j].executions && run[j].executions[id].finished ==> Genuine(run, actions, j, id, run[j].executions[id].code))
    && (forall c :: c in run[j].completions ==> Genuine(run, actions, j, c.id, c.code))
    && (forall id :: id in run[j].records && run[j].records[id].state.Completed? ==> Genuine(run, actions, j, id, run[j].records[id].state.code))
  }

  /** One step makes a result only by ending the thread, and otherwise passes on one that is there. */
  lemma StepExecutions(s: Sys, x: Action, id: Id)
    requires Enabled(s, x)
    ensures var s' := Next(s, x); id in s'.executions && s'.executions[id].finished ==>
      || (id in s.executions && s.executions[id] == s'.executions[id])
      || EndsWith(s, x, id, s'.executions[id].code)
  { }

  lemma StepCompletions(s: Sys, x: Action, c: Completion)
    requires Enabled(s, x)
    ensures c in Next(s, x).completions ==>
      || c in s.completions || EndsWith(s, x, c.id, c.code)
      || (c.id in s.executions && s.executions[c.id].finished && s.executions[c.id].code == c.code)
  { }

  ghost predicate Sent(s: Sys, id: Id, code: int) {
    exists c :: c in s.completions && c.id == id && c.code == code
  }

  lemma StepRecords(s: Sys, x: Action, id: Id)
    requires Enabled(s, x)
    ensures var s' := Next(s, x); id in s'.records && s'.records[id].state.Completed? ==>
      || (id in s.records && s.records[id].state == s'.records[id].state)
      || EndsWith(s, x, id, s'.records[id].state.code)
      || Sent(s, id, s'.records[id].state.code)
  {
    hide Sent, EndsWith;
    match x
    case DeliverCompletion(c) => CompletionRecords(s, c, id);
    case FinishLocal(y, code) => FinishRecords(s, y, code, id);
    case _ =>
  }

  lemma FinishRecords(s: Sys, y: Id, code: int, id: Id)
    requires Enabled(s, FinishLocal(y, code))
    ensures var s' := Next(s, FinishLocal(y, code)); id in s'.records && s'.records[id].state.Completed? ==>
      (id in s.records && s.records[id].state == s'.records[id].state) || EndsWith(s, FinishLocal(y, code), id, s'.records[id].state.code)
  { }

  lemma CompletionRecords(s: Sys, c: Completion, id: Id)
    requires Enabled(s, DeliverCompletion(c))
    ensures var s' := Next(s, DeliverCompletion(c)); id in s'.records && s'.records[id].state.Completed? ==>
      (id in s.records && s.records[id].state == s'.records[id].state) || Sent(s, id, s'.records[id].state.code)
  {
    assert Sent(s, c.id, c.code);
    hide Sent;
  }

  lemma {:induction false} ResultsGenuine(run: seq<Sys>, actions: seq<Action>, hosts: nat, runningLimit: nat, pendingLimit: nat, j: nat)
    requires Run(run, actions) && run[0] == Init(hosts, runningLimit, pendingLimit) && j < |run|
    ensures AllGenuine(run, actions, j)
  {
    hide Next, Enabled, Ends, Genuine;
    if j > 0 {
      ResultsGenuine(run, actions, hosts, runningLimit, pendingLimit, j - 1);
      assert Enabled(run[j - 1], actions[j - 1]) && run[j - 1 + 1] == Next(run[j - 1], actions[j - 1]);
      hide Run;
      StepGenuine(run, actions, j - 1);
    }
  }

  lemma Passed(run: seq<Sys>, actions: seq<Action>, j: nat, id: Id, code: int)
    requires j < |run| && j < |actions|
    ensures Genuine(run, actions, j, id, code) || EndsWith(run[j], actions[j], id, code) ==> Genuine(run, actions, j + 1, id, code)
  {
    hide EndsWith;
    if EndsWith(run[j], actions[j], id, code) { assert Ends(run, actions, j, id, code); }
  }

  lemma StepGenuine(run: seq<Sys>, actions: seq<Action>, j: nat)
    requires j + 1 < |run| && j < |actions| && Enabled(run[j], actions[j]) && run[j + 1] == Next(run[j], actions[j]) && AllGenuine(run, actions, j)
    ensures AllGenuine(run, actions, j + 1)
  {
    hide Next, Enabled, EndsWith, Genuine;
    var s, s' := run[j], run[j + 1];
    forall id | id in s'.executions && s'.executions[id].finished ensures Genuine(run, actions, j + 1, id, s'.executions[id].code) {
      StepExecutions(s, actions[j], id);
      Passed(run, actions, j, id, s'.executions[id].code);
    }
    forall c | c in s'.completions ensures Genuine(run, actions, j + 1, c.id, c.code) {
      StepCompletions(s, actions[j], c);
      Passed(run, actions, j, c.id, c.code);
    }
    forall id | id in s'.records && s'.records[id].state.Completed? ensures Genuine(run, actions, j + 1, id, s'.records[id].state.code) {
      StepRecords(s, actions[j], id);
      Passed(run, actions, j, id, s'.records[id].state.code);
    }
  }

  /**
   What a join returns is how the thread really ended: the code its callback returned, or -1 or -2
   because it could not be resolved, started or admitted where it was sent. Delays, repetitions
   and reordering of messages never change it.
   */
  lemma JoinedResult(run: seq<Sys>, actions: seq<Action>, hosts: nat, runningLimit: nat, pendingLimit: nat, j: nat, id: Id)
    requires Run(run, actions) && run[0] == Init(hosts, runningLimit, pendingLimit) && j < |actions| && actions[j] == Join(id)
    ensures id in run[j].records && run[j].records[id].state.Completed? && Genuine(run, actions, j, id, run[j].records[id].state.code)
    ensures id !in run[j + 1].records
  {
    assert Enabled(run[j], actions[j]) && run[j + 1] == Next(run[j], actions[j]);
    hide Next;
    ResultsGenuine(run, actions, hosts, runningLimit, pendingLimit, j);
  }

  // ------------------------------------------------------------------ admission

  /** A remote launch is admitted exactly while the host's number of outstanding ones is below its limit. */
  lemma LaunchAdmitted(s: Sys, h: nat, target: nat)
    requires Enabled(s, LaunchRemote(h, target))
    ensures var id, s' := Id(h, s.nextTid[h]), Next(s, LaunchRemote(h, target));
      && s'.nextTid[h] == s.nextTid[h] + 1
      && if s.pendingLimit == 0 || s.pending[h] < s.pendingLimit then
           && s'.pending[h] == s.pending[h] + 1 && s'.records == s.records[id := Record(target, Launching, false)]
           && s'.creates == s.creates[id := target]
         else s'.records == s.records && s'.creates == s.creates && s'.pending == s.pending
  { }

  /** So that number never exceeds a limit that is not zero. */
  lemma {:induction false} PendingBounded(run: seq<Sys>, actions: seq<Action>, hosts: nat, runningLimit: nat, pendingLimit: nat, j: nat)
    requires Run(run, actions) && run[0] == Init(hosts, runningLimit, pendingLimit) && j < |run|
    ensures run[j].pendingLimit == pendingLimit && |run[j].pending| == hosts
    ensures pendingLimit != 0 ==> forall h :: 0 <= h < hosts ==> run[j].pending[h] <= pendingLimit
  {
    hide Next, Enabled;
    if j > 0 {
      PendingBounded(run, actions, hosts, runningLimit, pendingLimit, j - 1);
      StepPending(run[j - 1], actions[j - 1]);
    }
  }

  lemma StepPending(s: Sys, x: Action)
    requires Enabled(s, x)
    ensures var s' := Next(s, x);
      && s'.pendingLimit == s.pendingLimit && |s'.pending| == |s.pending|
      && forall h :: 0 <= h < |s.pending| ==>
           s'.pending[h] <= s.pending[h] || (s'.pending[h] == s.pending[h] + 1 && (s.pendingLimit == 0 || s.pending[h] < s.pendingLimit))
  { }

  // ------------------------------------------------------------------ one thread from launch to join

  /** A launch from `h` to `t` that finds a free slot there and room under the limit here. */
  ghost predicate Launchable(s: Sys, h: nat, t: nat, id: Id) {
    && Inv(s) && h < s.hosts && t < s.hosts && h != t && id == Id(h, s.nextTid[h])
    && (s.pendingLimit == 0 || s.pending[h] < s.pendingLimit)
    && (s.runningLimit == 0 || s.running[t] < s.runningLimit)
  }

  lemma FreshId(s: Sys, h: nat, id: Id)
    requires Inv(s) && h < s.hosts && id == Id(h, s.nextTid[h])
    ensures id !in s.records && id !in s.executions && id !in s.creates
    ensures |s.pending| == |s.running| == |s.nextTid| == s.hosts
  {
    assert ThreadOk(s, id);
  }

  /** Launched and started: the home record and one execution with its slot exist, and an acknowledgement is out. */
  predicate Started(s: Sys, u: Sys, h: nat, t: nat, id: Id) {
    && h < |s.pending| && t < |s.running|
    && u.records == s.records[id := Record(t, Launching, false)]
    && u.executions == s.executions[id := Execution(t, false, 0)]
    && u.creates == s.creates - {id} && u.completions == s.completions && Acknowledgement(id, t) in u.acks
    && u.pending == s.pending[h := s.pending[h] + 1] && u.running == s.running[t := s.running[t] + 1]
  }

  lemma LaunchStarts(s: Sys, h: nat, t: nat, id: Id) returns (u: Sys)
    requires Launchable(s, h, t, id)
    ensures Enabled(s, LaunchRemote(h, t)) && Enabled(Next(s, LaunchRemote(h, t)), DeliverCreate(id, true, true))
    ensures u == Next(Next(s, LaunchRemote(h, t)), DeliverCreate(id, true, true)) && Started(s, u, h, t, id)
  {
    FreshId(s, h, id);
    hide Inv;
    u := Next(Next(s, LaunchRemote(h, t)), DeliverCreate(id, true, true));
  }

  /** The execution has ended and was reaped: its slot is free again, and its completion is out. */
  lemma ExecutionEnds(s: Sys, u: Sys, h: nat, t: nat, id: Id, code: int) returns (v: Sys)
    requires Started(s, u, h, t, id) && id !in s.executions
    ensures Enabled(u, DeliverAck(Acknowledgement(id, t)))
    ensures var w := Next(u, DeliverAck(Acknowledgement(id, t)));
      && w.records == s.records[id := Record(t, Running, false)] && Enabled(w, FinishRemote(id, code))
      && Enabled(Next(w, FinishRemote(id, code)), Reap(id)) && v == Next(Next(w, FinishRemote(id, code)), Reap(id))
    ensures v.records == s.records[id := Record(t, Running, false)] && v.executions == s.executions && v.running == s.running
    ensures v.pending == u.pending && v.completions == s.completions + {Completion(id, t, code)}
  {
    var w := Next(u, DeliverAck(Acknowledgement(id, t)));
    v := Next(Next(w, FinishRemote(id, code)), Reap(id));
    assert s.executions[id := Execution(t, true, code)] - {id} == s.executions;
    assert v.running == s.running;
  }

  /** What the two hosts do, in order. */
  function Round(h: nat, t: nat, id: Id, code: int): seq<Action> {
    [LaunchRemote(h, t), DeliverCreate(id, true, true), DeliverAck(Acknowledgement(id, t)), FinishRemote(id, code),
     Reap(id), DeliverCompletion(Completion(id, t, code)), Join(id)]
  }

  /**
   A launch that is admitted and finds a slot can be carried through: the join returns the code
   the callback ended with, and afterwards every counter and table is as before the launch.
   */
  lemma RemoteRound(s: Sys, h: nat, t: nat, id: Id, code: int) returns (run: seq<Sys>)
    requires Launchable(s, h, t, id)
    ensures Run(run, Round(h, t, id, code)) && run[0] == s
    ensures id in run[6].records && run[6].records[id].state == Completed(code)
    ensures run[7].records == s.records && run[7].executions == s.executions && run[7].pending == s.pending && run[7].running == s.running
  {
    hide Inv, Enabled, Next, Started;
    FreshId(s, h, id);
    var u := LaunchStarts(s, h, t, id);
    var v := ExecutionEnds(s, u, h, t, id, code);
    StartedPending(s, u, h, t, id);
    CompletionJoins(s, v, h, t, id, code);
    var started, acked := Next(s, LaunchRemote(h, t)), Next(u, DeliverAck(Acknowledgement(id, t)));
    var joined := Next(v, DeliverCompletion(Completion(id, t, code)));
    run := [s, started, u, acked, Next(acked, FinishRemote(id, code)), v, joined, Next(joined, Join(id))];
  }

  lemma StartedPending(s: Sys, u: Sys, h: nat, t: nat, id: Id)
    requires Started(s, u, h, t, id)
    ensures h < |s.pending| && u.pending == s.pending[h := s.pending[h] + 1]
  { }

  lemma CompletionJoins(s: Sys, v: Sys, h: nat, t: nat, id: Id, code: int)
    requires id.home == h < |s.pending| && id !in s.records && Completion(id, t, code) in v.completions
    requires v.records == s.records[id := Record(t, Running, false)] && v.executions == s.executions && v.running == s.running
    requires v.pending == s.pending[h := s.pending[h] + 1]
    ensures Enabled(v, DeliverCompletion(Completion(id, t, code)))
    ensures var j := Next(v, DeliverCompletion(Completion(id, t, code)));
      && id in j.records && j.records[id].state == Completed(code) && Enabled(j, Join(id))
      && var e := Next(j, Join(id));
         e.records == s.records && e.executions == s.executions && e.pending == s.pending && e.running == s.running
  {
    assert s.records[id := Record(t, Completed(code), false)] - {id} == s.records;
    assert s.pending[h := s.pending[h] + 1][h := s.pending[h]] == s.pending;
  }

  /** A local launch that finds a slot runs at once. */
  lemma LocalStarts(s: Sys, h: nat, id: Id)
    requires Inv(s) && h < s.hosts && id == Id(h, s.nextTid[h]) && (s.runningLimit == 0 || s.running[h] < s.runningLimit)
    ensures Enabled(s, LaunchLocal(h, true)) && id !in s.records
    ensures var u := Next(s, LaunchLocal(h, true));
      && u.records == s.records[id := Record(h, Running, false)] && u.running == s.running[h := s.running[h] + 1] && id in u.locals
  {
    FreshId(s, h, id);
    hide Inv;
  }

  /** When its callback returns, the record has the code and the slot is free. */
  lemma LocalEnds(s: Sys, u: Sys, h: nat, id: Id, code: int)
    requires id.home == h < |s.running| && id in u.locals
    requires u.records == s.records[id := Record(h, Running, false)] && u.running == s.running[h := s.running[h] + 1]
    ensures Enabled(u, FinishLocal(id, code))
    ensures var v := Next(u, FinishLocal(id, code));
      v.records == s.records[id := Record(h, Completed(code), false)] && v.running == s.running && Enabled(v, Join(id))
  {
    assert s.running[h := s.running[h] + 1][h := s.running[h]] == s.running;
  }

  /** Without a slot, or when it cannot start, a local launch leaves no record and no slot taken. */
  lemma LocalRefused(s: Sys, h: nat, started: bool)
    requires Inv(s) && h < s.hosts && (!started || (s.runningLimit != 0 && s.running[h] >= s.runningLimit))
    ensures Enabled(s, LaunchLocal(h, started))
    ensures var u := Next(s, LaunchLocal(h, started)); u.records == s.records && u.locals == s.locals && u.running == s.running
  {
    FreshId(s, h, Id(h, s.nextTid[h]));
    hide Inv;
    assert s.running[h := s.running[h] + 1][h := s.running[h]] == s.running;
  }

  /** Detaching reclaims a completed record, and marks one that is still out for reclaiming when it completes. */
  lemma DetachReclaims(s: Sys, id: Id)
    requires Enabled(s, Detach(id))
    ensures s.records[id].state.Completed? ==> Next(s, Detach(id)).records == s.records - {id}
    ensures !s.records[id].state.Completed? ==> Next(s, Detach(id)).records == s.records[id := s.records[id].(detached := true)]
  { }

  lemma DetachedGoes(s: Sys, id: Id, code: int)
    requires id in s.records && s.records[id].detached
    ensures Complete(s, id, code).records == s.records - {id}
  { }
}
