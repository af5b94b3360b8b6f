/**
 A barrier that everybody has reached opens for everybody. The messages that have to arrive are
 always on their way already, so nobody waits for anything but their delivery.
 */
module BarrierRounds {
  import opened BarrierSpec
  import opened Barrier

  // ------------------------------------------------------------------ what one call does

  /** A call that keeps the count waits; the last one of its host reports, to everybody's counter at the coordinator. */
  lemma WaitCounts(e: Entry, h: nat, n: nat, participants: nat)
    requires participants > 0 && !e.broken && !e.reported && (e.participants == 0 || e.participants == participants)
    ensures var o := Wait(e, h, n, participants);
      && o.status == Parked
      && (e.arrivals + 1 != participants ==>
            o.sent == {} && o.entry == Entry(e.generation, participants, e.arrivals + 1, e.hosts, false, false))
      && (e.arrivals + 1 == participants && h != 0 ==>
            && o.sent == {Message(Arrive, h, 0, e.generation, false)}
            && o.entry == Entry(e.generation, participants, participants, e.hosts, true, false))
      && (e.arrivals + 1 == participants && h == 0 && !Everyone(e.hosts + {0}, n) ==>
            o.sent == {} && o.entry == Entry(e.generation, participants, participants, e.hosts + {0}, true, false))
      && (e.arrivals + 1 == participants && h == 0 && Everyone(e.hosts + {0}, n) ==>
            && o.entry == Entry(e.generation + 1, participants, 0, {}, false, false)
            && forall m :: m in o.sent <==> 1 <= m.target < n && m == Message(Release, 0, m.target, e.generation, false))
  {
    WorldIs(e.hosts + {0}, n);
    hide World;
  }

  predicate Everyone(hosts: set<nat>, n: nat) {
    (forall k :: 0 <= k < n ==> k in hosts) && forall k :: k in hosts ==> k < n
  }

  lemma WorldIs(hosts: set<nat>, n: nat)
    ensures hosts == World(n) <==> Everyone(hosts, n)
  {
    if Everyone(hosts, n) {
      forall k: nat ensures k in hosts <==> k in World(n) { }
    }
  }

  /** Calls that break the rules: each is refused, and a wrong count or an extra caller breaks the barrier for all hosts. */
  lemma WaitRefused(e: Entry, h: nat, n: nat, participants: nat)
    ensures var o := Wait(e, h, n, participants);
      && (participants == 0 ==> o == Effect(e, {}, Invalid))
      && (participants > 0 && e.broken ==> o == Effect(e, {}, Failed))
      && (participants > 0 && !e.broken && e.participants != 0 && e.participants != participants ==>
            o.status == Invalid && o.entry.broken && o.entry.generation == e.generation && Told(o.sent, h, n, e.generation))
      && (participants > 0 && !e.broken && (e.participants == 0 || e.participants == participants) && e.reported ==>
            o.status == Failed && o.entry.broken && o.entry.generation == e.generation && Told(o.sent, h, n, e.generation))
  { }

  /** The failure goes to every other host. */
  ghost predicate Told(sent: set<Message>, h: nat, n: nat, generation: nat) {
    forall m :: m in sent <==> m.target < n && m.target != h && m == Message(Release, h, m.target, generation, true)
  }

  /** What a delivered message does to a barrier in use. */
  lemma HandleCases(e: Entry, h: nat, n: nat, m: Message)
    requires m.source < n
    ensures var o := Handle(e, h, n, m);
      && (m.failed && m.kind == Arrive ==> o == Effect(e, {}, Invalid))
      && (m.failed && m.kind == Release ==> o == Effect(e.(broken := true), {}, Ok))
      && (!m.failed && (e.broken || m.generation < e.generation) ==> o == Effect(e, {}, Ok))
      && (!m.failed && !e.broken && m.generation == e.generation && m.kind == Release && h != 0 && m.source == 0 && e.reported ==>
            o == Effect(Entry(e.generation + 1, e.participants, 0, {}, false, false), {}, Ok))
      && (!m.failed && !e.broken && m.generation == e.generation && m.kind == Arrive && h == 0 && m.source != 0 ==>
            if Everyone(e.hosts + {m.source}, n) then
              && o.entry == Entry(e.generation + 1, e.participants, 0, {}, false, false) && o.status == Ok
              && forall k :: k in o.sent <==> 1 <= k.target < n && k == Message(Release, 0, k.target, e.generation, false)
            else o == Effect(e.(hosts := e.hosts + {m.source}), {}, Ok))
      && (!m.failed && !e.broken && m.generation > e.generation ==> o.entry == e.(broken := true) && Told(o.sent, h, n, e.generation))
  {
    WorldIs(e.hosts + {m.source}, n);
    hide World;
  }

  // ------------------------------------------------------------------ what is on its way

  /** Every report travels to the coordinator or is counted, and every opened round is announced. */
  ghost predicate OnTheWay(s: Sys) {
    && |s.entries| > 0 && !Everyone(s.entries[0].hosts, |s.entries|)
    && (s.entries[0].reported ==> 0 in s.entries[0].hosts)
    && (forall h, g :: (h, g) in s.reports && h != 0 ==> Message(Arrive, h, 0, g, false) in s.net)
    && (forall g, k :: 0 <= g < s.entries[0].generation && 1 <= k < |s.entries| ==> Message(Release, 0, k, g, false) in s.net)
  }

  ghost predicate Good(s: Sys) {
    Inv(s) && MembersOk(s) && Sound(s) && OnTheWay(s)
  }

  lemma StepOnTheWay(s: Sys, x: Action)
    requires Good(s) && Enabled(s, x) && Disciplined(s, x)
    ensures OnTheWay(Next(s, x))
  {
    match x
    case CallWait(h, m, p) => CallOnTheWay(s, h, m, p);
    case Deliver(msg) => DeliverOnTheWay(s, msg);
    case Return(h, m) =>
  }

  lemma CallOnTheWay(s: Sys, h: nat, m: nat, p: nat)
    requires Good(s) && Enabled(s, CallWait(h, m, p)) && Disciplined(s, CallWait(h, m, p))
    ensures OnTheWay(Next(s, CallWait(h, m, p)))
  {
    CallParks(s, h, m, p);
    hide Inv, MembersOk, Sound;
    WaitCounts(s.entries[h], h, |s.entries|, p);
    hide Wait;
  }

  /** A caller that takes part for the first time in a round is never refused. */
  lemma CallParks(s: Sys, h: nat, m: nat, p: nat)
    requires Inv(s) && MembersOk(s) && Sound(s) && Enabled(s, CallWait(h, m, p)) && Disciplined(s, CallWait(h, m, p))
    ensures var e := s.entries[h];
      p > 0 && !e.broken && !e.reported && (e.participants == 0 || e.participants == p) && e.arrivals < p
    ensures Wait(s.entries[h], h, |s.entries|, p).status == Parked
  {
    assert HostSound(s, h) && EntryOk(s, h);
    CountBound(s.members[h], m, s.entries[h].generation);
    hide CountWaiting;
  }

  lemma DeliverOnTheWay(s: Sys, m: Message)
    requires Good(s) && Enabled(s, Deliver(m))
    ensures OnTheWay(Next(s, Deliver(m)))
  {
    assert MessageOk(s, m) && HostSound(s, m.target) && EntryOk(s, m.target);
    hide Inv, MembersOk, CountWaiting;
    HandleCases(s.entries[m.target], m.target, |s.entries|, m);
    hide Handle;
  }

  // ------------------------------------------------------------------ going on

  /** Deliveries alone lead from one state to the other. */
  ghost predicate Leads(s: Sys, t: Sys) {
    exists run, actions :: Goes(s, t, run, actions)
  }

  ghost predicate Goes(s: Sys, t: Sys, run: seq<Sys>, actions: seq<Action>) {
    Run(run, actions) && run[0] == s && run[|actions|] == t && forall x :: x in actions ==> x.Deliver?
  }

  lemma LeadsHere(s: Sys)
    ensures Leads(s, s)
  {
    assert Goes(s, s, [s], []);
  }

  lemma LeadsOn(s: Sys, t: Sys, x: Action)
    requires Leads(s, t) && Enabled(t, x) && x.Deliver?
    ensures Leads(s, Next(t, x))
  {
    hide Next, Enabled;
    var run, actions :| Goes(s, t, run, actions);
    var run', actions' := run + [Next(t, x)], actions + [x];
    forall i | 0 <= i < |actions'| ensures Enabled(run'[i], actions'[i]) && run'[i + 1] == Next(run'[i], actions'[i]) {
      if i < |actions| { assert Enabled(run[i], actions[i]) && run[i + 1] == Next(run[i], actions[i]); }
    }
    assert Goes(s, Next(t, x), run', actions');
  }

  lemma GoodOn(s: Sys, x: Action)
    requires Good(s) && Enabled(s, x) && Disciplined(s, x)
    ensures Good(Next(s, x))
  {
    hide Inv, MembersOk, Sound, OnTheWay, Next, Enabled, Disciplined;
    StepKeeps(s, x);
    StepSound(s, x);
    StepOnTheWay(s, x);
  }

  /** Every disciplined run stays in such states. */
  lemma {:induction false} RunGood(run: seq<Sys>, actions: seq<Action>, sizes: seq<nat>, i: nat)
    requires sizes != [] && DisciplinedRun(run, actions) && run[0] == Init(sizes) && i < |run|
    ensures Good(run[i])
  {
    hide Good, Next, Enabled, Disciplined;
    if i == 0 {
      InitInv(sizes);
      InitSound(sizes);
      InitGood(sizes);
    } else {
      RunGood(run, actions, sizes, i - 1);
      GoodOn(run[i - 1], actions[i - 1]);
    }
  }

  lemma InitGood(sizes: seq<nat>)
    requires sizes != [] && Inv(Init(sizes)) && MembersOk(Init(sizes)) && Sound(Init(sizes))
    ensures Good(Init(sizes))
  {
    assert 0 !in Init(sizes).entries[0].hosts;
  }

  // ------------------------------------------------------------------ the round opens

  /** The messages are the same or more, and only entries have changed. */
  predicate OnlyEntries(s: Sys, t: Sys) {
    && |t.entries| == |s.entries| && t.members == s.members && t.reports == s.reports && t.calls == s.calls && t.passed == s.passed
    && s.net <= t.net
  }

  /** All hosts have reported the round the coordinator is in. */
  ghost predicate Complete(s: Sys, g: nat) {
    Good(s) && AllReported(s, g) && s.entries[0].generation == g
  }

  /** Counting the report of one more host: one bit more, or the round opens. */
  lemma CountOne(s: Sys, g: nat, h: nat)
    requires Complete(s, g) && h < |s.entries| && h !in s.entries[0].hosts
    ensures Enabled(s, Deliver(Message(Arrive, h, 0, g, false)))
    ensures var t := Next(s, Deliver(Message(Arrive, h, 0, g, false)));
      && Good(t) && OnlyEntries(s, t) && (forall k :: 1 <= k < |s.entries| ==> t.entries[k] == s.entries[k])
      && (t.entries[0].generation == g + 1 || (Complete(t, g) && t.entries[0].hosts == s.entries[0].hosts + {h}))
  {
    var m := Message(Arrive, h, 0, g, false);
    assert (h, g) in s.reports && (0, g) in s.reports;
    assert EntryOk(s, 0) && HostSound(s, 0);
    GoodOn(s, Deliver(m));
    hide Inv, MembersOk, Sound, CountWaiting;
    HandleCases(s.entries[0], 0, |s.entries|, m);
    hide Handle;
  }

  function Left(s: Sys): set<nat>
    requires |s.entries| > 0
  {
    World(|s.entries|) - s.entries[0].hosts
  }

  lemma SomeLeft(s: Sys, g: nat) returns (h: nat)
    requires Complete(s, g)
    ensures h < |s.entries| && h !in s.entries[0].hosts
  {
    CoordinatorHosts(s);
    WorldIs(s.entries[0].hosts, |s.entries|);
    h :| 0 <= h < |s.entries| && h !in s.entries[0].hosts;
  }

  lemma CoordinatorHosts(s: Sys)
    requires Good(s)
    ensures |s.entries| > 0 && forall h :: h in s.entries[0].hosts ==> h < |s.entries|
    ensures !Everyone(s.entries[0].hosts, |s.entries|)
  {
    forall h | h in s.entries[0].hosts ensures h < |s.entries| { assert (h, s.entries[0].generation) in s.reports; }
  }

  lemma {:induction false} CountRest(s: Sys, g: nat) returns (t: Sys)
    requires Complete(s, g)
    ensures Leads(s, t) && Good(t) && OnlyEntries(s, t) && t.entries[0].generation == g + 1
    ensures forall k :: 1 <= k < |s.entries| ==> t.entries[k] == s.entries[k]
    decreases if |s.entries| > 0 then Left(s) else {}
  {
    hide Leads, Next, Enabled, Good;
    var h := SomeLeft(s, g);
    var m := Message(Arrive, h, 0, g, false);
    CountOne(s, g, h);
    LeadsHere(s);
    LeadsOn(s, s, Deliver(m));
    var u := Next(s, Deliver(m));
    if u.entries[0].generation == g + 1 {
      t := u;
    } else {
      assert h in Left(s) && h !in Left(u) && Left(u) < Left(s);
      t := CountRest(u, g);
      LeadsBoth(s, u, t);
    }
  }

  lemma LeadsBoth(s: Sys, t: Sys, u: Sys)
    requires Leads(s, t) && Leads(t, u)
    ensures Leads(s, u)
  {
    hide Next, Enabled;
    var run, actions :| Goes(s, t, run, actions);
    var more, steps :| Goes(t, u, more, steps);
    var run', actions' := run + more[1..], actions + steps;
    forall i | 0 <= i < |actions'| ensures Enabled(run'[i], actions'[i]) && run'[i + 1] == Next(run'[i], actions'[i]) {
      if i < |actions| {
        assert Enabled(run[i], actions[i]) && run[i + 1] == Next(run[i], actions[i]);
      } else {
        var k := i - |actions|;
        assert Enabled(more[k], steps[k]) && more[k + 1] == Next(more[k], steps[k]);
        assert run'[i] == more[k] && run'[i + 1] == more[k + 1];
      }
    }
    assert Goes(s, u, run', actions');
  }

  // ------------------------------------------------------------------ everybody hears of it

  /** The coordinator has opened round `g`, and the hosts below `k` have heard. */
  ghost predicate Opened(s: Sys, g: nat, k: nat) {
    && Good(s) && AllReported(s, g) && s.entries[0].generation == g + 1
    && forall h :: 0 <= h < k && h < |s.entries| ==> s.entries[h].generation == g + 1
  }

  /** Telling one more host. */
  lemma TellOne(s: Sys, g: nat, k: nat)
    requires Opened(s, g, k) && 1 <= k < |s.entries| && s.entries[k].generation != g + 1
    ensures Enabled(s, Deliver(Message(Release, 0, k, g, false)))
    ensures var t := Next(s, Deliver(Message(Release, 0, k, g, false))); Opened(t, g, k + 1) && OnlyEntries(s, t)
  {
    var m := Message(Release, 0, k, g, false);
    assert (k, g) in s.reports && EntryOk(s, k) && HostSound(s, k);
    GoodOn(s, Deliver(m));
    hide Inv, MembersOk, Sound, CountWaiting;
    HandleCases(s.entries[k], k, |s.entries|, m);
    hide Handle;
  }

  lemma {:induction false} TellRest(s: Sys, g: nat, k: nat) returns (t: Sys)
    requires Opened(s, g, k) && 1 <= k <= |s.entries|
    ensures Leads(s, t) && Opened(t, g, |s.entries|) && OnlyEntries(s, t)
    decreases |s.entries| - k
  {
    hide Leads, Next, Enabled, Good, AllReported;
    LeadsHere(s);
    if k == |s.entries| {
      t := s;
    } else if s.entries[k].generation == g + 1 {
      t := TellRest(s, g, k + 1);
    } else {
      var m := Message(Release, 0, k, g, false);
      TellOne(s, g, k);
      LeadsOn(s, s, Deliver(m));
      var u := Next(s, Deliver(m));
      t := TellRest(u, g, k + 1);
      LeadsBoth(s, u, t);
    }
  }

  /**
   A barrier that everybody has reached opens for everybody: when all hosts have reported round
   `g`, deliveries alone bring every host to the next round, and every caller waiting in round
   `g` can then return with success.
   */
  lemma RoundOpens(run: seq<Sys>, actions: seq<Action>, sizes: seq<nat>, i: nat, g: nat) returns (t: Sys)
    requires sizes != [] && DisciplinedRun(run, actions) && run[0] == Init(sizes) && i < |run|
    requires AllReported(run[i], g) && |run[i].entries| > 0 && run[i].entries[0].generation <= g + 1
    ensures Leads(run[i], t) && |t.entries| == |run[i].entries| && t.members == run[i].members
    ensures forall h :: 0 <= h < |t.entries| ==> t.entries[h].generation == g + 1 && !t.entries[h].broken
    ensures forall h, m :: 0 <= h < |t.members| && 0 <= m < |t.members[h]| && t.members[h][m] == Waiting(g) ==> CanReturn(t, h, m, g)
  {
    hide Leads, Next, Enabled, Good, AllReported, Disciplined, Init;
    RunGood(run, actions, sizes, i);
    var s := run[i];
    ReportedReached(s, g);
    LeadsHere(s);
    var u := s;
    if s.entries[0].generation == g {
      u := CountRest(s, g);
      StillReported(s, u, g);
    }
    t := TellRest(u, g, 1);
    LeadsBoth(s, u, t);
    AllReturn(t, g);
  }

  lemma StillReported(s: Sys, t: Sys, g: nat)
    requires AllReported(s, g) && OnlyEntries(s, t)
    ensures AllReported(t, g)
  { }

  /** A host that has reported a round has reached it. */
  lemma ReportedReached(s: Sys, g: nat)
    requires Good(s) && AllReported(s, g)
    ensures |s.entries| > 0 && s.entries[0].generation >= g
  {
    assert EntryOk(s, 0) && (0, g) in s.reports;
  }

  /** The caller can return now, and its round counts as passed. */
  predicate CanReturn(s: Sys, h: nat, m: nat, g: nat) {
    Enabled(s, Return(h, m)) && (h, g) in Next(s, Return(h, m)).passed
  }

  lemma AllReturn(t: Sys, g: nat)
    requires Opened(t, g, |t.entries|)
    ensures forall h :: 0 <= h < |t.entries| ==> t.entries[h].generation == g + 1 && !t.entries[h].broken
    ensures forall h, m :: 0 <= h < |t.members| && 0 <= m < |t.members[h]| && t.members[h][m] == Waiting(g) ==> CanReturn(t, h, m, g)
  {
    forall h | 0 <= h < |t.entries| ensures !t.entries[h].broken { assert HostSound(t, h); }
    hide Inv, MembersOk, OnTheWay, AllReported, HostSound;
  }
}
