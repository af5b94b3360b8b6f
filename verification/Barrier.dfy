/**
 The world barrier: a coordinator counts one report per host and releases the generation. The
 per-host calls are functions of a host's entry; the machine runs them over a network that may
 delay, reorder and duplicate.
 */
module BarrierSpec {

  datatype Kind = Arrive | Release

  datatype Message = Message(kind: Kind, source: nat, target: nat, generation: nat, failed: bool)

  datatype Entry = Entry(generation: nat, participants: nat, arrivals: nat, hosts: set<nat>, reported: bool, broken: bool)

  const Fresh := Entry(0, 0, 0, {}, false, false)

  datatype Status = Parked | Ok | Invalid | Failed

  datatype Effect = Effect(entry: Entry, sent: set<Message>, status: Status)

  function World(n: nat): (r: set<nat>)
    ensures forall k: nat :: k in r <==> k < n
  {
    if n == 0 then {} else World(n - 1) + {n - 1}
  }

  function Advance(e: Entry): Entry {
    e.(generation := e.generation + 1, arrivals := 0, hosts := {}, reported := false)
  }

  function Alarms(h: nat, n: nat, generation: nat): set<Message> {
    set k | 0 <= k < n && k != h :: Message(Release, h, k, generation, true)
  }

  function Releases(n: nat, generation: nat): set<Message> {
    set k | 1 <= k < n :: Message(Release, 0, k, generation, false)
  }

  function Break(e: Entry, h: nat, n: nat, status: Status): Effect {
    if e.broken then Effect(e, {}, status)
    else Effect(e.(broken := true), Alarms(h, n, e.generation), status)
  }

  function Count(e: Entry, source: nat, n: nat, status: Status): Effect {
    var hosts := e.hosts + {source};
    if hosts != World(n) then Effect(e.(hosts := hosts), {}, status)
    else Effect(Advance(e), Releases(n, e.generation), status)
  }

  /** The part of a wait call before it blocks. */
  function Wait(e: Entry, h: nat, n: nat, participants: nat): Effect {
    if participants == 0 then Effect(e, {}, Invalid)
    else if e.broken then Effect(e, {}, Failed)
    else if e.participants != 0 && e.participants != participants then Break(e, h, n, Invalid)
    else
      var joined := e.(participants := participants);
      if joined.reported then Break(joined, h, n, Failed)
      else
        var here := joined.(arrivals := joined.arrivals + 1);
        if here.arrivals != participants then Effect(here, {}, Parked)
        else
          var full := here.(reported := true);
          if h == 0 then Count(full, 0, n, Parked)
          else Effect(full, {Message(Arrive, h, 0, e.generation, false)}, Parked)
  }

  function Handle(e: Entry, h: nat, n: nat, m: Message): Effect {
    if m.source >= n then Effect(e, {}, Invalid)
    else if m.failed then
      if m.kind != Release then Effect(e, {}, Invalid) else Effect(e.(broken := true), {}, Ok)
    else if e.broken || m.generation < e.generation then Effect(e, {}, Ok)
    else if m.generation != e.generation then Break(e, h, n, Ok)
    else if m.kind == Arrive && h == 0 && m.source != 0 then Count(e, m.source, n, Ok)
    else if m.kind == Release && h != 0 && m.source == 0 && e.reported then Effect(Advance(e), {}, Ok)
    else Break(e, h, n, Ok)
  }
}

module Barrier {
  import opened BarrierSpec

  datatype Member = Idle | Waiting(generation: nat)

  /**
   `net` holds every message ever sent: any of them may be delivered at any time, again and
   again, or never. `calls` counts accepted wait calls, `reports` the full rounds, `passed` the
   successful returns, each by host and generation.
   */
  datatype Sys = Sys(
    entries: seq<Entry>,
    members: seq<seq<Member>>,
    net: set<Message>,
    calls: multiset<(nat, nat)>,
    reports: set<(nat, nat)>,
    passed: set<(nat, nat)>)

  datatype Action =
    | CallWait(host: nat, member: nat, participants: nat)
    | Return(host: nat, member: nat)
    | Deliver(message: Message)
    | CallBreak(host: nat)

  predicate Enabled(s: Sys, x: Action) {
    && |s.members| == |s.entries|
    && match x
       case CallWait(h, m, p) => h < |s.entries| && m < |s.members[h]| && s.members[h][m].Idle?
       case Return(h, m) =>
         && h < |s.entries| && m < |s.members[h]| && s.members[h][m].Waiting?
         && (s.entries[h].broken || s.entries[h].generation != s.members[h][m].generation)
       case Deliver(msg) => msg in s.net && msg.target < |s.entries|
       case CallBreak(h) => h < |s.entries|
  }

  function SetMember(s: Sys, h: nat, m: nat, to: Member): Sys
    requires h < |s.members| && m < |s.members[h]|
  {
    s.(members := s.members[h := s.members[h][m := to]])
  }

  function Apply(s: Sys, h: nat, o: Effect): Sys
    requires h < |s.entries|
  {
    s.(entries := s.entries[h := o.entry], net := s.net + o.sent)
  }

  /** A wait call was counted and filled its host's round. */
  predicate Fills(e: Entry, participants: nat) {
    e.arrivals + 1 == participants
  }

  function Next(s: Sys, x: Action): Sys
    requires Enabled(s, x)
  {
    var n := |s.entries|;
    match x
    case CallWait(h, m, p) =>
      var e := s.entries[h];
      var o := Wait(e, h, n, p);
      var t := Apply(s, h, o);
      if o.status != Parked then t
      else
        SetMember(t, h, m, Waiting(e.generation))
          .(calls := s.calls + multiset{(h, e.generation)},
            reports := if Fills(e, p) then s.reports + {(h, e.generation)} else s.reports)
    case Return(h, m) =>
      var g := s.members[h][m].generation;
      SetMember(s, h, m, Idle).(passed := if s.entries[h].broken then s.passed else s.passed + {(h, g)})
    case Deliver(msg) => Apply(s, msg.target, Handle(s.entries[msg.target], msg.target, n, msg))
    case CallBreak(h) => Apply(s, h, Break(s.entries[h], h, n, Ok))
  }

  function Init(sizes: seq<nat>): Sys {
    Sys(seq(|sizes|, _ => Fresh), seq(|sizes|, h requires 0 <= h < |sizes| => seq(sizes[h], _ => Idle)), {}, multiset{}, {}, {})
  }

  // ------------------------------------------------------------------ safety, whatever the callers do

  /** One host's counters against the history of its calls and reports. */
  ghost predicate EntryOk(s: Sys, h: nat)
    requires h < |s.entries|
  {
    var e := s.entries[h];
    && (forall g :: 0 <= g < e.generation ==> (h, g) in s.reports)
    && (e.reported <==> (h, e.generation) in s.reports)
    && (!e.reported ==> s.calls[(h, e.generation)] == e.arrivals && (e.arrivals == 0 || e.arrivals < e.participants))
    && (forall g :: g > e.generation ==> (h, g) !in s.reports && s.calls[(h, g)] == 0)
    && (forall g :: (h, g) in s.reports ==> s.calls[(h, g)] == e.participants && e.participants > 0)
    && (forall g :: (h, g) in s.passed ==> g < e.generation)
  }

  ghost predicate AllReported(s: Sys, g: nat) {
    forall h :: 0 <= h < |s.entries| ==> (h, g) in s.reports
  }

  ghost predicate MessageOk(s: Sys, m: Message) {
    && m.source < |s.entries|
    && (!m.failed && m.kind == Arrive ==> m.source != 0 && m.target == 0 && (m.source, m.generation) in s.reports)
    && (!m.failed && m.kind == Release ==>
          m.source == 0 && m.target != 0 && AllReported(s, m.generation) && m.generation < s.entries[0].generation)
  }

  ghost predicate Inv(s: Sys) {
    && |s.entries| == |s.members| > 0
    && (forall h :: 0 <= h < |s.entries| ==> EntryOk(s, h))
    && (forall h :: 0 <= h < |s.entries| ==> s.entries[h].generation <= s.entries[0].generation)
    && (forall h :: h in s.entries[0].hosts ==> (h, s.entries[0].generation) in s.reports)
    && (forall g :: 0 <= g < s.entries[0].generation ==> AllReported(s, g))
    && (forall m :: m in s.net ==> MessageOk(s, m))
    && (forall r :: r in s.reports || r in s.passed ==> r.0 < |s.entries|)
  }

  /** Another host's call leaves a host's books alone. */
  lemma EntryFrame(s: Sys, s': Sys, h: nat, other: nat, g: nat)
    requires h < |s.entries| == |s'.entries| && EntryOk(s, h) && h != other && s'.entries[h] == s.entries[h]
    requires s'.passed <= s.passed + {(other, g)}
    requires s'.reports == s.reports || s'.reports == s.reports + {(other, g)}
    requires s'.calls == s.calls || s'.calls == s.calls + multiset{(other, g)}
    ensures EntryOk(s', h)
  { }

  /** A host may move to the next generation once its report for this one is in. */
  lemma AdvanceOk(s: Sys, s': Sys, h: nat)
    requires h < |s.entries| == |s'.entries| && EntryOk(s, h) && (h, s.entries[h].generation) in s.reports
    requires s'.entries[h] == Advance(s.entries[h]) && s'.calls == s.calls && s'.reports == s.reports && s'.passed == s.passed
    ensures EntryOk(s', h)
  { }

  lemma MessagesKeep(s: Sys, s': Sys)
    requires |s'.entries| == |s.entries| > 0 && s.reports <= s'.reports && s.entries[0].generation <= s'.entries[0].generation
    requires forall m :: m in s.net ==> MessageOk(s, m)
    ensures forall m :: m in s.net ==> MessageOk(s', m)
  {
    forall m | m in s.net ensures MessageOk(s', m) { assert MessageOk(s, m); }
  }

  /** Counting a report at the coordinator: either one more bit, or everyone has reported and the round opens. */
  lemma CountKeeps(s: Sys, s': Sys, source: nat)
    requires Inv(s) && source < |s.entries| && (source, s.entries[0].generation) in s.reports
    requires s' == Apply(s, 0, Count(s.entries[0], source, |s.entries|, Ok))
    ensures Inv(s')
  {
    var e, n := s.entries[0], |s.entries|;
    var o := Count(e, source, n, Ok);
    assert EntryOk(s, 0);
    MessagesKeep(s, s');
    if e.hosts + {source} == World(n) {
      forall h | 0 <= h < n ensures (h, e.generation) in s.reports {
        assert h in e.hosts + {source};
      }
      assert AllReported(s, e.generation);
      AdvanceOk(s, s', 0);
    }
    forall h | 0 <= h < n ensures EntryOk(s', h) { assert EntryOk(s, h); }
    forall m | m in s'.net ensures MessageOk(s', m) { }
    forall g | 0 <= g < s'.entries[0].generation ensures AllReported(s', g) {
      assert AllReported(s, g);
    }
  }

  lemma BreakKeeps(s: Sys, s': Sys, h: nat)
    requires Inv(s) && h < |s.entries| && s' == Apply(s, h, Break(s.entries[h], h, |s.entries|, Ok))
    ensures Inv(s')
  {
    MessagesKeep(s, s');
    forall k | 0 <= k < |s.entries| ensures EntryOk(s', k) { assert EntryOk(s, k); }
    forall m | m in s'.net ensures MessageOk(s', m) { }
    forall g | 0 <= g < s'.entries[0].generation ensures AllReported(s', g) { assert AllReported(s, g); }
  }

  /** The state after an accepted call was counted, before the coordinator looks at it. */
  function Joined(s: Sys, h: nat, m: nat, p: nat): Sys
    requires h < |s.entries| == |s.members| && m < |s.members[h]|
  {
    var e := s.entries[h];
    var full := Fills(e, p);
    SetMember(s.(entries := s.entries[h := e.(participants := p, arrivals := e.arrivals + 1, reported := full)]), h, m, Waiting(e.generation))
      .(calls := s.calls + multiset{(h, e.generation)},
        reports := if full then s.reports + {(h, e.generation)} else s.reports)
  }

  predicate Accepted(e: Entry, p: nat) {
    p > 0 && !e.broken && !e.reported && (e.participants == 0 || e.participants == p)
  }

  lemma JoinedKeeps(s: Sys, h: nat, m: nat, p: nat)
    requires Inv(s) && h < |s.entries| && m < |s.members[h]| && Accepted(s.entries[h], p)
    ensures Inv(Joined(s, h, m, p))
  {
    var s', e := Joined(s, h, m, p), s.entries[h];
    MessagesKeep(s, s');
    assert EntryOk(s, h);
    forall k | 0 <= k < |s.entries| ensures EntryOk(s', k) {
      assert EntryOk(s, k);
      if k != h { EntryFrame(s, s', k, h, e.generation); }
    }
    forall g | 0 <= g < s'.entries[0].generation ensures AllReported(s', g) { assert AllReported(s, g); }
  }

  lemma WaitKeeps(s: Sys, h: nat, m: nat, p: nat)
    requires Inv(s) && Enabled(s, CallWait(h, m, p))
    ensures Inv(Next(s, CallWait(h, m, p)))
  {
    var e, n := s.entries[h], |s.entries|;
    var s' := Next(s, CallWait(h, m, p));
    if Accepted(e, p) {
      JoinedKeeps(s, h, m, p);
      var t := Joined(s, h, m, p);
      if Fills(e, p) && h == 0 {
        CountKeeps(t, Apply(t, 0, Count(t.entries[0], 0, n, Ok)), 0);
        assert s' == Apply(t, 0, Count(t.entries[0], 0, n, Ok));
      } else if Fills(e, p) {
        assert s' == t.(net := t.net + {Message(Arrive, h, 0, e.generation, false)});
        SentKeeps(t, Message(Arrive, h, 0, e.generation, false));
      } else {
        assert s' == t;
      }
    } else if p == 0 || e.broken {
      assert s'.entries == s.entries && s'.net == s.net;
    } else if e.participants != 0 && e.participants != p {
      BreakKeeps(s, s', h);
    } else {
      var t := s.(entries := s.entries[h := e.(participants := p)]);
      SameParticipants(s, h, p);
      BreakKeeps(t, s', h);
    }
  }

  /** A reported round has its participant count fixed already. */
  lemma SameParticipants(s: Sys, h: nat, p: nat)
    requires Inv(s) && h < |s.entries| && s.entries[h].reported && (s.entries[h].participants == 0 || s.entries[h].participants == p)
    ensures s.entries[h := s.entries[h].(participants := p)] == s.entries
  {
    assert EntryOk(s, h);
  }

  lemma SentKeeps(s: Sys, m: Message)
    requires Inv(s) && MessageOk(s, m)
    ensures Inv(s.(net := s.net + {m}))
  {
    var s' := s.(net := s.net + {m});
    forall k | 0 <= k < |s.entries| ensures EntryOk(s', k) { assert EntryOk(s, k); }
    forall g | 0 <= g < s'.entries[0].generation ensures AllReported(s', g) { assert AllReported(s, g); }
    forall x | x in s'.net ensures MessageOk(s', x) { assert MessageOk(s, x); }
  }

  lemma ReturnKeeps(s: Sys, h: nat, m: nat)
    requires Inv(s) && Enabled(s, Return(h, m)) && s.members[h][m].generation <= s.entries[h].generation
    ensures Inv(Next(s, Return(h, m)))
  {
    var s' := Next(s, Return(h, m));
    forall k | 0 <= k < |s.entries| ensures EntryOk(s', k) { assert EntryOk(s, k); }
    MessagesKeep(s, s');
    forall g | 0 <= g < s'.entries[0].generation ensures AllReported(s', g) { assert AllReported(s, g); }
  }

  lemma ReleasedKeeps(s: Sys, h: nat)
    requires Inv(s) && 0 < h < |s.entries| && s.entries[h].reported && s.entries[h].generation < s.entries[0].generation
    ensures Inv(s.(entries := s.entries[h := Advance(s.entries[h])]))
  {
    var s' := s.(entries := s.entries[h := Advance(s.entries[h])]);
    assert EntryOk(s, h);
    AdvanceOk(s, s', h);
    forall k | 0 <= k < |s.entries| ensures EntryOk(s', k) { assert EntryOk(s, k); }
    MessagesKeep(s, s');
    forall g | 0 <= g < s'.entries[0].generation ensures AllReported(s', g) { assert AllReported(s, g); }
  }

  lemma SilentKeeps(s: Sys, h: nat)
    requires Inv(s) && h < |s.entries|
    ensures Inv(s.(entries := s.entries[h := s.entries[h].(broken := true)]))
  {
    var s' := s.(entries := s.entries[h := s.entries[h].(broken := true)]);
    forall k | 0 <= k < |s.entries| ensures EntryOk(s', k) { assert EntryOk(s, k); }
    MessagesKeep(s, s');
    forall g | 0 <= g < s'.entries[0].generation ensures AllReported(s', g) { assert AllReported(s, g); }
  }

  lemma DeliverKeeps(s: Sys, m: Message)
    requires Inv(s) && Enabled(s, Deliver(m))
    ensures Inv(Next(s, Deliver(m)))
  {
    var h, n := m.target, |s.entries|;
    var e := s.entries[h];
    var s' := Next(s, Deliver(m));
    assert MessageOk(s, m);
    if m.failed && m.kind == Arrive {
      assert s' == s;
    } else if m.failed {
      SilentKeeps(s, h);
      assert s' == s.(entries := s.entries[h := e.(broken := true)]);
    } else if e.broken || m.generation < e.generation {
      assert s' == s;
    } else if m.generation == e.generation && m.kind == Arrive && h == 0 && m.source != 0 {
      CountKeeps(s, s', m.source);
    } else if m.generation == e.generation && m.kind == Release && h != 0 && m.source == 0 && e.reported {
      ReleasedKeeps(s, h);
      assert s' == s.(entries := s.entries[h := Advance(e)]);
    } else {
      BreakKeeps(s, s', h);
    }
  }

  /** Nobody waits for a generation its host has not reached. */
  ghost predicate MembersOk(s: Sys) {
    && |s.members| == |s.entries|
    && forall h, m :: 0 <= h < |s.members| && 0 <= m < |s.members[h]| && s.members[h][m].Waiting? ==>
         s.members[h][m].generation <= s.entries[h].generation
  }

  lemma GenerationsGrow(s: Sys, x: Action, s': Sys)
    requires Inv(s) && Enabled(s, x) && s' == Next(s, x)
    ensures |s'.entries| == |s.entries| && forall h :: 0 <= h < |s.entries| ==> s.entries[h].generation <= s'.entries[h].generation
  {
    hide EntryOk, MessageOk;
  }

  lemma MembersKeep(s: Sys, x: Action, s': Sys)
    requires Inv(s) && MembersOk(s) && Enabled(s, x) && s' == Next(s, x)
    ensures MembersOk(s')
  {
    GenerationsGrow(s, x, s');
    hide Inv;
  }

  lemma StepKeeps(s: Sys, x: Action)
    requires Inv(s) && MembersOk(s) && Enabled(s, x)
    ensures Inv(Next(s, x)) && MembersOk(Next(s, x))
  {
    MembersKeep(s, x, Next(s, x));
    match x
    case CallWait(h, m, p) => WaitKeeps(s, h, m, p);
    case Return(h, m) => ReturnKeeps(s, h, m);
    case Deliver(m) => DeliverKeeps(s, m);
    case CallBreak(h) => BreakKeeps(s, Next(s, x), h);
  }

  lemma InitInv(sizes: seq<nat>)
    requires sizes != []
    ensures Inv(Init(sizes)) && MembersOk(Init(sizes))
  { }

  ghost predicate Run(run: seq<Sys>, actions: seq<Action>) {
    && |run| == |actions| + 1
    && (forall i :: 0 <= i < |actions| ==> Enabled(run[i], actions[i]) && run[i + 1] == Next(run[i], actions[i]))
  }

  lemma {:induction false} RunKeeps(run: seq<Sys>, actions: seq<Action>, sizes: seq<nat>, i: nat)
    requires sizes != [] && Run(run, actions) && run[0] == Init(sizes) && i < |run|
    ensures Inv(run[i]) && MembersOk(run[i])
  {
    hide Inv, MembersOk, Next, Enabled, Init;
    if i == 0 {
      InitInv(sizes);
    } else {
      RunKeeps(run, actions, sizes, i - 1);
      StepKeeps(run[i - 1], actions[i - 1]);
    }
  }

  /**
   A wait call returns success for a generation only after every host had all its local calls of
   that generation: as many as its fixed participant count, none missing and none extra. This
   holds whatever the callers do, broken barriers and wrong counts included.
   */
  lemma PassedMeansAllArrived(run: seq<Sys>, actions: seq<Action>, sizes: seq<nat>, i: nat, h: nat, g: nat, k: nat)
    requires sizes != [] && Run(run, actions) && run[0] == Init(sizes) && i < |run|
    requires (h, g) in run[i].passed && k < |run[i].entries|
    ensures run[i].entries[k].participants > 0 && run[i].calls[(k, g)] == run[i].entries[k].participants
  {
    RunKeeps(run, actions, sizes, i);
    var s := run[i];
    assert EntryOk(s, h) && EntryOk(s, k);
    assert g < s.entries[h].generation <= s.entries[0].generation;
    assert AllReported(s, g);
    assert (k, g) in s.reports;
  }

  /** No host is ahead of the coordinator, and none is more than one generation behind. */
  lemma WithinOne(run: seq<Sys>, actions: seq<Action>, sizes: seq<nat>, i: nat, h: nat)
    requires sizes != [] && Run(run, actions) && run[0] == Init(sizes) && i < |run| && h < |run[i].entries|
    ensures |run[i].entries| > 0 && run[i].entries[h].generation <= run[i].entries[0].generation <= run[i].entries[h].generation + 1
  {
    RunKeeps(run, actions, sizes, i);
    var s := run[i];
    assert EntryOk(s, h);
    if s.entries[0].generation > 0 {
      var g := s.entries[0].generation - 1;
      assert AllReported(s, g);
      assert (h, g) in s.reports;
    }
  }

  // ------------------------------------------------------------------ no disciplined run breaks

  /** A step of well-behaved callers: every member of a host takes part, with the right count, and nobody calls break. */
  predicate Disciplined(s: Sys, x: Action) {
    match x
    case CallWait(h, m, p) => h < |s.members| && p == |s.members[h]|
    case CallBreak(_) => false
    case _ => true
  }

  function CountWaiting(ms: seq<Member>, g: nat): nat {
    if ms == [] then 0 else CountWaiting(ms[1..], g) + (if ms[0] == Waiting(g) then 1 else 0)
  }

  lemma {:induction false} CountChange(ms: seq<Member>, m: nat, to: Member, g: nat)
    requires m < |ms|
    ensures CountWaiting(ms[m := to], g) == CountWaiting(ms, g) - (if ms[m] == Waiting(g) then 1 else 0) + (if to == Waiting(g) then 1 else 0)
  {
    if m == 0 {
      assert ms[m := to][1..] == ms[1..];
    } else {
      assert ms[m := to][1..] == ms[1..][m - 1 := to];
      CountChange(ms[1..], m - 1, to, g);
    }
  }

  lemma {:induction false} CountBound(ms: seq<Member>, m: nat, g: nat)
    requires m < |ms| && ms[m] != Waiting(g)
    ensures CountWaiting(ms, g) < |ms|
  {
    CountLimit(ms[1..], g);
    if m > 0 { CountBound(ms[1..], m - 1, g); }
  }

  lemma {:induction false} CountLimit(ms: seq<Member>, g: nat)
    ensures CountWaiting(ms, g) <= |ms|
  {
    if ms != [] { CountLimit(ms[1..], g); }
  }

  lemma {:induction false} CountNone(ms: seq<Member>, g: nat)
    requires forall m :: 0 <= m < |ms| ==> ms[m] != Waiting(g)
    ensures CountWaiting(ms, g) == 0
  {
    if ms != [] { CountNone(ms[1..], g); }
  }

  ghost predicate HostSound(s: Sys, h: nat)
    requires h < |s.entries| == |s.members|
  {
    var e := s.entries[h];
    && !e.broken && (e.participants == 0 || e.participants == |s.members[h]|)
    && CountWaiting(s.members[h], e.generation) == (if e.reported then e.participants else e.arrivals)
  }

  ghost predicate Sound(s: Sys) {
    && |s.members| == |s.entries|
    && (forall h :: 0 <= h < |s.entries| ==> HostSound(s, h))
    && (forall m :: m in s.net ==> !m.failed)
  }

  /** After an advance nobody waits for the new generation yet. */
  lemma NoneAhead(s: Sys, h: nat, g: nat)
    requires MembersOk(s) && h < |s.entries| && s.entries[h].generation < g
    ensures CountWaiting(s.members[h], g) == 0
  {
    CountNone(s.members[h], g);
  }

  lemma WaitSound(s: Sys, h: nat, m: nat, p: nat)
    requires Inv(s) && MembersOk(s) && Sound(s) && Enabled(s, CallWait(h, m, p)) && Disciplined(s, CallWait(h, m, p))
    ensures Sound(Next(s, CallWait(h, m, p)))
  {
    var e := s.entries[h];
    var s' := Next(s, CallWait(h, m, p));
    assert HostSound(s, h) && EntryOk(s, h);
    CountBound(s.members[h], m, e.generation);
    CountChange(s.members[h], m, Waiting(e.generation), e.generation);
    var t := Joined(s, h, m, p);
    CountNone(t.members[h], e.generation + 1) by {
      assert forall j :: 0 <= j < |s.members[h]| ==> s.members[h][j] != Waiting(e.generation + 1);
    }
    hide Inv, MembersOk, CountWaiting;
    forall k | 0 <= k < |s.entries| ensures HostSound(s', k) {
      assert HostSound(s, k);
    }
  }

  lemma ReturnSound(s: Sys, h: nat, m: nat)
    requires Inv(s) && MembersOk(s) && Sound(s) && Enabled(s, Return(h, m))
    ensures Sound(Next(s, Return(h, m)))
  {
    var s' := Next(s, Return(h, m));
    assert HostSound(s, h);
    CountChange(s.members[h], m, Idle, s.entries[h].generation);
    hide Inv, MembersOk, CountWaiting;
    forall k | 0 <= k < |s.entries| ensures HostSound(s', k) { assert HostSound(s, k); }
  }

  lemma DeliverSound(s: Sys, m: Message)
    requires Inv(s) && MembersOk(s) && Sound(s) && Enabled(s, Deliver(m))
    ensures Sound(Next(s, Deliver(m)))
  {
    var h := m.target;
    var e := s.entries[h];
    var s' := Next(s, Deliver(m));
    assert HostSound(s, h) && EntryOk(s, h) && MessageOk(s, m) && EntryOk(s, m.source);
    NoneAhead(s, h, e.generation + 1);
    assert m.kind == Release ==> (h, m.generation) in s.reports;
    hide MembersOk, CountWaiting;
    forall k | 0 <= k < |s.entries| ensures HostSound(s', k) { assert HostSound(s, k); }
  }

  ghost predicate DisciplinedRun(run: seq<Sys>, actions: seq<Action>) {
    Run(run, actions) && forall i :: 0 <= i < |actions| ==> Disciplined(run[i], actions[i])
  }

  lemma StepSound(s: Sys, x: Action)
    requires Inv(s) && MembersOk(s) && Sound(s) && Enabled(s, x) && Disciplined(s, x)
    ensures Sound(Next(s, x))
  {
    match x
    case CallWait(h, m, p) => WaitSound(s, h, m, p);
    case Return(h, m) => ReturnSound(s, h, m);
    case Deliver(m) => DeliverSound(s, m);
  }

  /** Callers that keep their counts and wait for their turn never see a broken barrier, on any network. */
  lemma {:induction false} NeverBroken(run: seq<Sys>, actions: seq<Action>, sizes: seq<nat>, i: nat)
    requires sizes != [] && DisciplinedRun(run, actions) && run[0] == Init(sizes) && i < |run|
    ensures Sound(run[i]) && forall h :: 0 <= h < |run[i].entries| ==> !run[i].entries[h].broken
  {
    hide Inv, MembersOk, Next, Enabled, Disciplined;
    if i == 0 {
      InitSound(sizes);
    } else {
      NeverBroken(run, actions, sizes, i - 1);
      RunKeeps(run, actions, sizes, i - 1);
      StepSound(run[i - 1], actions[i - 1]);
    }
    forall h | 0 <= h < |run[i].entries| ensures !run[i].entries[h].broken { assert HostSound(run[i], h); }
  }

  lemma InitSound(sizes: seq<nat>)
    ensures Sound(Init(sizes))
  {
    var s := Init(sizes);
    forall h | 0 <= h < |s.entries| ensures HostSound(s, h) { CountNone(s.members[h], 0); }
  }
}
