/**
 Remote thread creation and completion: a home record per thread, an execution entry on the host
 that runs it, and acknowledgements and completions that may be reordered and repeated. Migration
 is not part of this model.
 */
module RemoteThreads {

  datatype Id = Id(home: nat, tid: nat)

  datatype State = Launching | Running | Completed(code: int)

  /** A home record; `target` is the execution host. */
  datatype Record = Record(target: nat, state: State, detached: bool)

  /** An entry of the execution host's list of remote executions. */
  datatype Execution = Execution(host: nat, finished: bool, code: int)

  datatype Completion = Completion(id: Id, from: nat, code: int)

  datatype Acknowledgement = Acknowledgement(id: Id, from: nat)

  /**
   `creates` are requests in flight, delivered at most once. `acks` and `completions` hold every
   such message ever sent; any of them may be delivered again and again. `reserved`, `released`
   and `ended` record every slot taken, every slot given back, and every record completed.
   */
  datatype Sys = Sys(
    hosts: nat,
    runningLimit: nat,
    pendingLimit: nat,
    nextTid: seq<nat>,
    records: map<Id, Record>,
    locals: set<Id>,
    executions: map<Id, Execution>,
    creates: map<Id, nat>,
    acks: set<Acknowledgement>,
    completions: set<Completion>,
    running: seq<nat>,
    pending: seq<nat>,
    reserved: multiset<(nat, Id)>,
    released: multiset<(nat, Id)>,
    ended: multiset<Id>)

  datatype Action =
    | LaunchLocal(host: nat, started: bool)
    | FinishLocal(id: Id, code: int)
    | LaunchRemote(host: nat, target: nat)
    | DeliverCreate(id: Id, resolved: bool, started: bool)
    | FinishRemote(id: Id, code: int)
    | Reap(id: Id)
    | DeliverAck(ack: Acknowledgement)
    | DeliverCompletion(completion: Completion)
    | Join(id: Id)
    | Detach(id: Id)

  predicate Active(r: Record) {
    r.state.Launching? || r.state.Running?
  }

  predicate Enabled(s: Sys, x: Action) {
    match x
    case LaunchLocal(h, _) => h < s.hosts && h < |s.nextTid| && h < |s.running|
    case FinishLocal(id, _) => id in s.locals && id in s.records && id.home < |s.running|
    case LaunchRemote(h, t) => h < s.hosts && t < s.hosts && h != t && h < |s.nextTid| && h < |s.pending|
    case DeliverCreate(id, _, _) => id in s.creates && s.creates[id] < |s.running|
    case FinishRemote(id, _) => id in s.executions && !s.executions[id].finished
    case Reap(id) => id in s.executions && s.executions[id].finished && s.executions[id].host < |s.running|
    case DeliverAck(a) => a in s.acks
    case DeliverCompletion(c) => c in s.completions && c.id.home < |s.pending|
    case Join(id) => id in s.records && s.records[id].state.Completed? && !s.records[id].detached
    case Detach(id) => id in s.records && !s.records[id].detached
  }

  /** One unit less; the source's unsigned counter must be positive. */
  function Minus(n: nat): nat {
    if n == 0 then 0 else n - 1
  }

  /** A slot is free when there is no limit or the limit is not reached. */
  predicate SlotFree(s: Sys, h: nat)
    requires h < |s.running|
  {
    s.runningLimit == 0 || s.running[h] < s.runningLimit
  }

  function Reserve(s: Sys, h: nat, id: Id): Sys
    requires h < |s.running|
  {
    s.(running := s.running[h := s.running[h] + 1], reserved := s.reserved + multiset{(h, id)})
  }

  function Release(s: Sys, h: nat, id: Id): Sys
    requires h < |s.running|
  {
    s.(running := s.running[h := Minus(s.running[h])], released := s.released + multiset{(h, id)})
  }

  /** The record becomes completed; a detached one is reclaimed at once. */
  function Complete(s: Sys, id: Id, code: int): Sys
    requires id in s.records
  {
    var r := s.records[id];
    s.(records := if r.detached then s.records - {id} else s.records[id := r.(state := Completed(code))],
       ended := s.ended + multiset{id})
  }

  function Next(s: Sys, x: Action): Sys
    requires Enabled(s, x)
  {
    match x
    case LaunchLocal(h, started) =>
      var id := Id(h, s.nextTid[h]);
      var t := s.(nextTid := s.nextTid[h := s.nextTid[h] + 1]);
      if !SlotFree(s, h) then t
      else if !started then Release(Reserve(t, h, id), h, id)
      else Reserve(t, h, id).(records := s.records[id := Record(h, Running, false)], locals := s.locals + {id})
    case FinishLocal(id, code) =>
      Complete(Release(s.(locals := s.locals - {id}), id.home, id), id, code)
    case LaunchRemote(h, target) =>
      var id := Id(h, s.nextTid[h]);
      var t := s.(nextTid := s.nextTid[h := s.nextTid[h] + 1]);
      if s.pendingLimit != 0 && s.pending[h] >= s.pendingLimit then t
      else t.(records := s.records[id := Record(target, Launching, false)],
              pending := s.pending[h := s.pending[h] + 1],
              creates := s.creates[id := target])
    case DeliverCreate(id, resolved, started) =>
      var h := s.creates[id];
      var t := s.(creates := s.creates - {id});
      if id in s.executions then t
      else if !resolved then t.(completions := s.completions + {Completion(id, h, -1)})
      else if !SlotFree(s, h) then t.(completions := s.completions + {Completion(id, h, -2)})
      else Reserve(t, h, id).(executions := s.executions[id := Execution(h, !started, if started then 0 else -1)],
                              acks := if started then s.acks + {Acknowledgement(id, h)} else s.acks)
    case FinishRemote(id, code) =>
      s.(executions := s.executions[id := s.executions[id].(finished := true, code := code)])
    case Reap(id) =>
      var e := s.executions[id];
      Release(s, e.host, id).(executions := s.executions - {id}, completions := s.completions + {Completion(id, e.host, e.code)})
    case DeliverAck(a) =>
      if a.id !in s.records || s.records[a.id].target != a.from || s.records[a.id].state.Completed? then s
      else s.(records := s.records[a.id := s.records[a.id].(state := Running)])
    case DeliverCompletion(c) =>
      if c.id !in s.records || s.records[c.id].target != c.from || s.records[c.id].state.Completed? then s
      else Complete(s.(pending := s.pending[c.id.home := Minus(s.pending[c.id.home])]), c.id, c.code)
    case Join(id) => s.(records := s.records - {id})
    case Detach(id) =>
      if s.records[id].state.Completed? then s.(records := s.records - {id})
      else s.(records := s.records[id := s.records[id].(detached := true)])
  }

  function Init(hosts: nat, runningLimit: nat, pendingLimit: nat): Sys {
    var zero := seq(hosts, _ => 0);
    Sys(hosts, runningLimit, pendingLimit, zero, map[], {}, map[], map[], {}, {}, zero, zero, multiset{}, multiset{}, multiset{})
  }

  // ------------------------------------------------------------------ invariant

  /** Remote home records of a host that are still launching or running. */
  function Outstanding(records: map<Id, Record>, h: nat): set<Id> {
    set id | id in records && id.home == h && records[id].target != h && Active(records[id])
  }

  /** Who holds a running slot of a host: its own running threads and the remote ones it executes. */
  function Holders(locals: set<Id>, executions: map<Id, Execution>, h: nat): set<Id> {
    (set id | id in locals && id.home == h) + (set id | id in executions && executions[id].host == h)
  }

  ghost predicate PendingOk(pending: seq<nat>, records: map<Id, Record>) {
    forall h :: 0 <= h < |pending| ==> pending[h] == |Outstanding(records, h)|
  }

  ghost predicate RunningOk(running: seq<nat>, locals: set<Id>, executions: map<Id, Execution>, limit: nat) {
    && (forall h :: 0 <= h < |running| ==> running[h] == |Holders(locals, executions, h)|)
    && (limit != 0 ==> forall h :: 0 <= h < |running| ==> running[h] <= limit)
  }

  ghost predicate Counters(s: Sys) {
    && |s.running| == |s.pending| == |s.nextTid| == s.hosts
    && PendingOk(s.pending, s.records)
    && RunningOk(s.running, s.locals, s.executions, s.runningLimit)
  }

  /** The identifier was handed out already. */
  predicate Issued(s: Sys, id: Id) {
    id.home < |s.nextTid| && id.tid < s.nextTid[id.home]
  }

  /** A slot is taken at most once per thread, and given back exactly when it is no longer held. */
  ghost predicate SlotOk(s: Sys, h: nat, id: Id) {
    && s.released[(h, id)] <= s.reserved[(h, id)] <= 1
    && (s.reserved[(h, id)] - s.released[(h, id)] == if id in Holders(s.locals, s.executions, h) then 1 else 0)
    && (!Issued(s, id) || id in s.creates ==> s.reserved[(h, id)] == 0)
  }

  ghost predicate Slots(s: Sys) {
    forall h, id :: SlotOk(s, h, id)
  }

  /** A thread whose record is out is on its way, executing, or its completion has been sent. */
  predicate Somewhere(s: Sys, id: Id) {
    id in s.creates || id in s.executions || exists c :: c in s.completions && c.id == id
  }

  ghost predicate Progressing(s: Sys, id: Id) {
    && !(id in s.creates && id in s.executions)
    && (forall c :: c in s.completions && c.id == id ==> id !in s.creates && id !in s.executions)
    && (forall c, d :: c in s.completions && d in s.completions && c.id == id && d.id == id ==> c == d)
  }

  ghost predicate RecordOk(s: Sys, id: Id) {
    && (id in s.locals ==> id in s.records && Active(s.records[id]) && s.records[id].target == id.home)
    && (id in s.records && Active(s.records[id]) ==> if s.records[id].target == id.home then id in s.locals else Somewhere(s, id))
    && (id in s.creates ==> id in s.records && s.records[id].target == s.creates[id] != id.home && Active(s.records[id]) && s.creates[id] < s.hosts)
    && (id in s.executions ==>
          id in s.records && s.records[id].target == s.executions[id].host != id.home && Active(s.records[id]) && s.executions[id].host < s.hosts)
    && (forall c :: c in s.completions && c.id == id && id in s.records ==> s.records[id].target == c.from != id.home)
  }

  /** A record completes at most once, and only reclaiming takes it out of the completed state. */
  ghost predicate EndOk(s: Sys, id: Id) {
    && s.ended[id] <= 1
    && (id in s.records ==> (s.ended[id] == 1 <==> s.records[id].state.Completed?))
    && (id in s.records || s.ended[id] > 0 || Somewhere(s, id) ==> Issued(s, id))
  }

  ghost predicate ThreadOk(s: Sys, id: Id) {
    Progressing(s, id) && RecordOk(s, id) && EndOk(s, id)
  }

  ghost predicate Threads(s: Sys) {
    forall id :: ThreadOk(s, id)
  }

  ghost predicate Inv(s: Sys) {
    Counters(s) && Slots(s) && Threads(s)
  }

  lemma InitInv(hosts: nat, runningLimit: nat, pendingLimit: nat)
    ensures Inv(Init(hosts, runningLimit, pendingLimit))
  {
    var s := Init(hosts, runningLimit, pendingLimit);
    assert forall h :: Outstanding(s.records, h) == {};
    assert forall h :: Holders(s.locals, s.executions, h) == {};
  }

  // ------------------------------------------------------------------ counters

  /** Adding or completing one remote record changes only its home's count. */
  lemma OutstandingWith(records: map<Id, Record>, id: Id, r: Record, h: nat)
    requires id !in records
    ensures |Outstanding(records[id := r], h)| == |Outstanding(records, h)| + (if h == id.home && r.target != h && Active(r) then 1 else 0)
  {
    var before, after := Outstanding(records, h), Outstanding(records[id := r], h);
    if h == id.home && r.target != h && Active(r) {
      assert after == before + {id};
    } else {
      assert after == before;
    }
  }

  lemma OutstandingWithout(records: map<Id, Record>, id: Id, h: nat)
    requires id in records
    ensures |Outstanding(records, h)| == |Outstanding(records - {id}, h)| + (if h == id.home && records[id].target != h && Active(records[id]) then 1 else 0)
  {
    OutstandingWith(records - {id}, id, records[id], h);
    assert (records - {id})[id := records[id]] == records;
  }

  lemma HoldersLocal(locals: set<Id>, executions: map<Id, Execution>, id: Id, h: nat)
    requires id !in locals && id !in executions
    ensures |Holders(locals + {id}, executions, h)| == |Holders(locals, executions, h)| + (if h == id.home then 1 else 0)
  {
    var before, after := Holders(locals, executions, h), Holders(locals + {id}, executions, h);
    assert after == if h == id.home then before + {id} else before;
  }

  lemma HoldersRemote(locals: set<Id>, executions: map<Id, Execution>, id: Id, e: Execution, h: nat)
    requires id !in locals && id !in executions
    ensures |Holders(locals, executions[id := e], h)| == |Holders(locals, executions, h)| + (if h == e.host then 1 else 0)
  {
    var before, after := Holders(locals, executions, h), Holders(locals, executions[id := e], h);
    assert after == if h == e.host then before + {id} else before;
  }

  function Weight(id: Id, r: Record): nat {
    if r.target != id.home && Active(r) then 1 else 0
  }

  /** A record appears or changes: its home's count moves by the difference. */
  lemma PendingWith(pending: seq<nat>, pending': seq<nat>, records: map<Id, Record>, id: Id, r: Record)
    requires PendingOk(pending, records) && id !in records && id.home < |pending|
    requires pending' == pending[id.home := pending[id.home] + Weight(id, r)]
    ensures PendingOk(pending', records[id := r])
  {
    hide Outstanding;
    forall h | 0 <= h < |pending'| ensures pending'[h] == |Outstanding(records[id := r], h)| { OutstandingWith(records, id, r, h); }
  }

  lemma PendingWithout(pending: seq<nat>, pending': seq<nat>, records: map<Id, Record>, id: Id)
    requires PendingOk(pending, records) && id in records && id.home < |pending|
    requires pending' == pending[id.home := if Weight(id, records[id]) == 1 then Minus(pending[id.home]) else pending[id.home]]
    ensures PendingOk(pending', records - {id})
    ensures Weight(id, records[id]) == 1 ==> pending[id.home] > 0
  {
    hide Outstanding;
    OutstandingWithout(records, id, id.home);
    forall h | 0 <= h < |pending'| ensures pending'[h] == |Outstanding(records - {id}, h)| { OutstandingWithout(records, id, h); }
  }

  lemma PendingSet(pending: seq<nat>, pending': seq<nat>, records: map<Id, Record>, id: Id, r: Record)
    requires PendingOk(pending, records) && id in records && id.home < |pending| && Weight(id, r) <= Weight(id, records[id])
    requires pending' == pending[id.home := if Weight(id, r) < Weight(id, records[id]) then Minus(pending[id.home]) else pending[id.home]]
    ensures PendingOk(pending', records[id := r])
  {
    var middle := pending[id.home := if Weight(id, records[id]) == 1 then Minus(pending[id.home]) else pending[id.home]];
    PendingWithout(pending, middle, records, id);
    assert (records - {id})[id := r] == records[id := r];
    hide PendingOk, Outstanding;
    assert pending' == middle[id.home := middle[id.home] + Weight(id, r)];
    PendingWith(middle, pending', records - {id}, id, r);
  }

  lemma RunningLocal(running: seq<nat>, locals: set<Id>, executions: map<Id, Execution>, limit: nat, id: Id)
    requires RunningOk(running, locals, executions, limit) && id !in locals && id !in executions && id.home < |running|
    ensures limit == 0 || running[id.home] < limit ==> RunningOk(running[id.home := running[id.home] + 1], locals + {id}, executions, limit)
  {
    hide Holders;
    forall h | 0 <= h < |running| ensures |Holders(locals + {id}, executions, h)| == running[h] + (if h == id.home then 1 else 0) {
      HoldersLocal(locals, executions, id, h);
    }
  }

  lemma RunningRemote(running: seq<nat>, locals: set<Id>, executions: map<Id, Execution>, limit: nat, id: Id, e: Execution)
    requires RunningOk(running, locals, executions, limit) && id !in locals && id !in executions && e.host < |running|
    ensures limit == 0 || running[e.host] < limit ==> RunningOk(running[e.host := running[e.host] + 1], locals, executions[id := e], limit)
  {
    hide Holders;
    forall h | 0 <= h < |running| ensures |Holders(locals, executions[id := e], h)| == running[h] + (if h == e.host then 1 else 0) {
      HoldersRemote(locals, executions, id, e, h);
    }
  }

  lemma RunningLocalDone(running: seq<nat>, locals: set<Id>, executions: map<Id, Execution>, limit: nat, id: Id)
    requires RunningOk(running, locals, executions, limit) && id in locals && id !in executions && id.home < |running|
    ensures running[id.home] > 0 && RunningOk(running[id.home := Minus(running[id.home])], locals - {id}, executions, limit)
  {
    assert locals - {id} + {id} == locals;
    forall h | 0 <= h < |running| ensures |Holders(locals - {id}, executions, h)| + (if h == id.home then 1 else 0) == running[h] {
      HoldersLocal(locals - {id}, executions, id, h);
    }
    hide Holders;
  }

  lemma RunningRemoteDone(running: seq<nat>, locals: set<Id>, executions: map<Id, Execution>, limit: nat, id: Id)
    requires RunningOk(running, locals, executions, limit) && id !in locals && id in executions && executions[id].host < |running|
    ensures running[executions[id].host] > 0
    ensures RunningOk(running[executions[id].host := Minus(running[executions[id].host])], locals, executions - {id}, limit)
  {
    var e := executions[id];
    assert (executions - {id})[id := e] == executions;
    forall h | 0 <= h < |running| ensures |Holders(locals, executions - {id}, h)| + (if h == e.host then 1 else 0) == running[h] {
      HoldersRemote(locals, executions - {id}, id, e, h);
    }
    hide Holders;
  }

  lemma HoldersMarked(locals: set<Id>, executions: map<Id, Execution>, id: Id, e: Execution, h: nat)
    requires id in executions && executions[id].host == e.host
    ensures Holders(locals, executions[id := e], h) == Holders(locals, executions, h)
  {
    var after := executions[id := e];
    assert (set j | j in after && after[j].host == h) == (set j | j in executions && executions[j].host == h);
  }

  lemma RunningMarked(running: seq<nat>, locals: set<Id>, executions: map<Id, Execution>, limit: nat, id: Id, e: Execution)
    requires RunningOk(running, locals, executions, limit) && id in executions && executions[id].host == e.host
    ensures RunningOk(running, locals, executions[id := e], limit)
  {
    hide Holders;
    var after := executions[id := e];
    forall h: nat ensures Holders(locals, after, h) == Holders(locals, executions, h) { HoldersMarked(locals, executions, id, e, h); }
  }

  lemma CompleteCounts(s: Sys, s': Sys, id: Id, code: int)
    requires id in s.records && Active(s.records[id]) && id.home < |s.pending| && PendingOk(s.pending, s.records)
    requires s' == Complete(s.(pending := if s.records[id].target == id.home then s.pending else s.pending[id.home := Minus(s.pending[id.home])]), id, code)
    ensures PendingOk(s'.pending, s'.records)
  {
    hide PendingOk;
    if s.records[id].detached {
      PendingWithout(s.pending, s'.pending, s.records, id);
    } else {
      PendingSet(s.pending, s'.pending, s.records, id, s.records[id].(state := Completed(code)));
    }
  }

  /** The next identifier of a host is used nowhere yet. */
  lemma NewId(s: Sys, h: nat)
    requires Threads(s) && h < |s.nextTid|
    ensures var id := Id(h, s.nextTid[h]);
      && id !in s.records && id !in s.locals && id !in s.creates && id !in s.executions && s.ended[id] == 0
      && (forall c :: c in s.completions ==> c.id != id)
  {
    var id := Id(h, s.nextTid[h]);
    assert ThreadOk(s, id) && !Issued(s, id);
    assert !Somewhere(s, id);
  }

  lemma CreateFacts(s: Sys, id: Id)
    requires Threads(s) && id in s.creates
    ensures id in s.records && Active(s.records[id]) && s.records[id].target == s.creates[id] != id.home
    ensures id !in s.locals && id !in s.executions && s.ended[id] == 0 && Issued(s, id)
    ensures forall c :: c in s.completions ==> c.id != id
  {
    assert ThreadOk(s, id);
  }

  lemma LaunchLocalCounts(s: Sys, h: nat, started: bool)
    requires Counters(s) && Threads(s) && Enabled(s, LaunchLocal(h, started))
    ensures Counters(Next(s, LaunchLocal(h, started)))
  {
    hide PendingOk, RunningOk, Threads;
    NewId(s, h);
    var id := Id(h, s.nextTid[h]);
    if SlotFree(s, h) && started {
      RunningLocal(s.running, s.locals, s.executions, s.runningLimit, id);
      assert s.pending[h := s.pending[h] + 0] == s.pending;
      PendingWith(s.pending, s.pending, s.records, id, Record(h, Running, false));
    } else {
      assert s.running[h := s.running[h] + 1][h := s.running[h]] == s.running;
    }
  }

  lemma FinishLocalCounts(s: Sys, id: Id, code: int)
    requires Counters(s) && Threads(s) && Enabled(s, FinishLocal(id, code))
    ensures Counters(Next(s, FinishLocal(id, code)))
  {
    var s' := Next(s, FinishLocal(id, code));
    assert ThreadOk(s, id);
    hide PendingOk, RunningOk, Threads;
    RunningLocalDone(s.running, s.locals, s.executions, s.runningLimit, id);
    CompleteCounts(Release(s.(locals := s.locals - {id}), id.home, id), s', id, code);
  }

  lemma LaunchRemoteCounts(s: Sys, h: nat, target: nat)
    requires Counters(s) && Threads(s) && Enabled(s, LaunchRemote(h, target))
    ensures Counters(Next(s, LaunchRemote(h, target)))
  {
    var s' := Next(s, LaunchRemote(h, target));
    var id := Id(h, s.nextTid[h]);
    hide PendingOk, RunningOk, Threads;
    NewId(s, h);
    PendingWith(s.pending, s.pending[h := s.pending[h] + 1], s.records, id, Record(target, Launching, false));
  }

  lemma DeliverCreateCounts(s: Sys, id: Id, resolved: bool, started: bool)
    requires Counters(s) && Threads(s) && Enabled(s, DeliverCreate(id, resolved, started))
    ensures Counters(Next(s, DeliverCreate(id, resolved, started)))
  {
    var s' := Next(s, DeliverCreate(id, resolved, started));
    hide PendingOk, RunningOk, Threads;
    CreateFacts(s, id);
    var h := s.creates[id];
    RunningRemote(s.running, s.locals, s.executions, s.runningLimit, id, Execution(h, !started, if started then 0 else -1));
  }

  lemma FinishRemoteCounts(s: Sys, id: Id, code: int)
    requires Counters(s) && Threads(s) && Enabled(s, FinishRemote(id, code))
    ensures Counters(Next(s, FinishRemote(id, code)))
  {
    var s' := Next(s, FinishRemote(id, code));
    hide PendingOk, RunningOk, Threads;
    RunningMarked(s.running, s.locals, s.executions, s.runningLimit, id, s.executions[id].(finished := true, code := code));
  }

  lemma ReapCounts(s: Sys, id: Id)
    requires Counters(s) && Threads(s) && Enabled(s, Reap(id))
    ensures Counters(Next(s, Reap(id)))
  {
    var s' := Next(s, Reap(id));
    assert ThreadOk(s, id);
    hide PendingOk, RunningOk, Threads;
    RunningRemoteDone(s.running, s.locals, s.executions, s.runningLimit, id);
  }

  lemma DeliverAckCounts(s: Sys, a: Acknowledgement)
    requires Counters(s) && Threads(s) && Enabled(s, DeliverAck(a))
    ensures Counters(Next(s, DeliverAck(a)))
  {
    var s' := Next(s, DeliverAck(a));
    assert ThreadOk(s, a.id);
    hide PendingOk, RunningOk, Threads;
    if s' != s { PendingSet(s.pending, s.pending, s.records, a.id, s.records[a.id].(state := Running)); }
  }

  lemma DeliverCompletionCounts(s: Sys, c: Completion)
    requires Counters(s) && Threads(s) && Enabled(s, DeliverCompletion(c))
    ensures Counters(Next(s, DeliverCompletion(c)))
  {
    var s' := Next(s, DeliverCompletion(c));
    assert ThreadOk(s, c.id);
    hide PendingOk, RunningOk, Threads;
    if s' != s { CompleteCounts(s, s', c.id, c.code); }
  }

  lemma JoinCounts(s: Sys, id: Id)
    requires Counters(s) && Threads(s) && Enabled(s, Join(id))
    ensures Counters(Next(s, Join(id)))
  {
    var s' := Next(s, Join(id));
    assert ThreadOk(s, id);
    hide PendingOk, RunningOk, Threads;
    PendingWithout(s.pending, s.pending, s.records, id);
  }

  lemma DetachCounts(s: Sys, id: Id)
    requires Counters(s) && Threads(s) && Enabled(s, Detach(id))
    ensures Counters(Next(s, Detach(id)))
  {
    var s' := Next(s, Detach(id));
    assert ThreadOk(s, id);
    hide PendingOk, RunningOk, Threads;
    if s.records[id].state.Completed? {
      PendingWithout(s.pending, s.pending, s.records, id);
    } else {
      PendingSet(s.pending, s.pending, s.records, id, s.records[id].(detached := true));
    }
  }

  lemma CountersKeep(s: Sys, x: Action)
    requires Counters(s) && Threads(s) && Enabled(s, x)
    ensures Counters(Next(s, x))
  {
    hide Counters, Threads, Next, Enabled;
    match x
    case LaunchLocal(h, started) => LaunchLocalCounts(s, h, started);
    case FinishLocal(id, code) => FinishLocalCounts(s, id, code);
    case LaunchRemote(h, target) => LaunchRemoteCounts(s, h, target);
    case DeliverCreate(id, resolved, started) => DeliverCreateCounts(s, id, resolved, started);
    case FinishRemote(id, code) => FinishRemoteCounts(s, id, code);
    case Reap(id) => ReapCounts(s, id);
    case DeliverAck(a) => DeliverAckCounts(s, a);
    case DeliverCompletion(c) => DeliverCompletionCounts(s, c);
    case Join(id) => JoinCounts(s, id);
    case Detach(id) => DetachCounts(s, id);
  }

  // ------------------------------------------------------------------ slots

  /** Slots of every other thread are untouched by a step on `id`. */
  ghost predicate SlotsAside(s: Sys, s': Sys, id: Id) {
    && (forall j :: j != id ==> (j in s'.locals <==> j in s.locals) && (j in s'.creates ==> j in s.creates))
    && (forall j :: j != id ==> (j in s'.executions <==> j in s.executions) && (j in s.executions ==> s'.executions[j].host == s.executions[j].host))
    && (forall h, j :: j != id ==> s'.reserved[(h, j)] == s.reserved[(h, j)] && s'.released[(h, j)] == s.released[(h, j)])
    && (forall j :: Issued(s, j) ==> Issued(s', j))
  }

  lemma SlotsFrom(s: Sys, s': Sys, id: Id)
    requires Slots(s) && SlotsAside(s, s', id) && (forall h: nat :: SlotOk(s', h, id))
    ensures Slots(s')
  {
    forall h: nat, j ensures SlotOk(s', h, j) { assert SlotOk(s, h, j); }
  }

  function Subject(s: Sys, x: Action): Id
    requires Enabled(s, x)
  {
    match x
    case LaunchLocal(h, _) => Id(h, s.nextTid[h])
    case LaunchRemote(h, _) => Id(h, s.nextTid[h])
    case FinishLocal(id, _) => id
    case DeliverCreate(id, _, _) => id
    case FinishRemote(id, _) => id
    case Reap(id) => id
    case DeliverAck(a) => a.id
    case DeliverCompletion(c) => c.id
    case Join(id) => id
    case Detach(id) => id
  }

  /** A new thread takes a slot, and keeps it or gives it straight back. */
  lemma NewSlot(s: Sys, s': Sys, h: nat, id: Id, kept: bool)
    requires Slots(s) && !Issued(s, id) && id !in s.locals && id !in s.executions && id.home == h
    requires s'.locals == (if kept then s.locals + {id} else s.locals) && s'.executions == s.executions && s'.creates == s.creates
    requires id !in s.creates && Issued(s', id) && (forall j :: Issued(s, j) ==> Issued(s', j))
    requires s'.reserved == s.reserved + multiset{(h, id)} && s'.released == (if kept then s.released else s.released + multiset{(h, id)})
    ensures Slots(s')
  {
    hide Issued;
    forall g: nat, j ensures SlotOk(s', g, j) {
      assert SlotOk(s, g, j) && SlotOk(s, g, id);
    }
  }

  lemma LaunchLocalSlots(s: Sys, h: nat, started: bool)
    requires Counters(s) && Slots(s) && Threads(s) && Enabled(s, LaunchLocal(h, started))
    ensures Slots(Next(s, LaunchLocal(h, started)))
  {
    hide Counters, Slots, Threads;
    var s' := Next(s, LaunchLocal(h, started));
    var id := Id(h, s.nextTid[h]);
    NewId(s, h);
    if SlotFree(s, h) {
      NewSlot(s, s', h, id, started);
    } else {
      MoreIssued(s, s', id);
    }
  }

  lemma MoreIssued(s: Sys, s': Sys, id: Id)
    requires Slots(s) && s'.locals == s.locals && s'.executions == s.executions && s'.creates == s.creates
    requires s'.reserved == s.reserved && s'.released == s.released
    requires forall j :: Issued(s, j) ==> Issued(s', j)
    ensures Slots(s')
  {
    forall h: nat, j ensures SlotOk(s', h, j) { assert SlotOk(s, h, j); }
  }

  lemma FinishLocalSlots(s: Sys, id: Id, code: int)
    requires Counters(s) && Slots(s) && Threads(s) && Enabled(s, FinishLocal(id, code))
    ensures Slots(Next(s, FinishLocal(id, code)))
  {
    hide Counters;
    var s' := Next(s, FinishLocal(id, code));
    assert ThreadOk(s, id);
    hide Threads;
    forall j: nat ensures SlotOk(s', j, id) { assert SlotOk(s, j, id); }
    SlotsFrom(s, s', id);
  }

  lemma LaunchRemoteSlots(s: Sys, h: nat, target: nat)
    requires Counters(s) && Slots(s) && Threads(s) && Enabled(s, LaunchRemote(h, target))
    ensures Slots(Next(s, LaunchRemote(h, target)))
  {
    hide Counters;
    var s' := Next(s, LaunchRemote(h, target));
    var id := Id(h, s.nextTid[h]);
    NewId(s, h);
    hide Threads;
    forall j: nat ensures SlotOk(s', j, id) { assert SlotOk(s, j, id); }
    SlotsFrom(s, s', id);
  }

  lemma DeliverCreateSlots(s: Sys, id: Id, resolved: bool, started: bool)
    requires Counters(s) && Slots(s) && Threads(s) && Enabled(s, DeliverCreate(id, resolved, started))
    ensures Slots(Next(s, DeliverCreate(id, resolved, started)))
  {
    hide Counters;
    var s' := Next(s, DeliverCreate(id, resolved, started));
    CreateFacts(s, id);
    hide Threads;
    forall j: nat ensures SlotOk(s', j, id) { assert SlotOk(s, j, id); }
    SlotsFrom(s, s', id);
  }

  lemma ReapSlots(s: Sys, id: Id)
    requires Counters(s) && Slots(s) && Threads(s) && Enabled(s, Reap(id))
    ensures Slots(Next(s, Reap(id)))
  {
    hide Counters;
    var s' := Next(s, Reap(id));
    assert ThreadOk(s, id);
    hide Threads;
    forall j: nat ensures SlotOk(s', j, id) { assert SlotOk(s, j, id); }
    SlotsFrom(s, s', id);
  }

  lemma FinishRemoteSlots(s: Sys, id: Id, code: int)
    requires Slots(s) && Enabled(s, FinishRemote(id, code))
    ensures Slots(Next(s, FinishRemote(id, code)))
  {
    var s' := Next(s, FinishRemote(id, code));
    forall j: nat ensures SlotOk(s', j, id) { assert SlotOk(s, j, id); }
    SlotsFrom(s, s', id);
  }

  lemma SlotsKeep(s: Sys, x: Action)
    requires Counters(s) && Slots(s) && Threads(s) && Enabled(s, x)
    ensures Slots(Next(s, x))
  {
    hide Counters, Threads;
    match x
    case LaunchLocal(h, started) => LaunchLocalSlots(s, h, started);
    case FinishLocal(id, code) => FinishLocalSlots(s, id, code);
    case LaunchRemote(h, target) => LaunchRemoteSlots(s, h, target);
    case DeliverCreate(id, resolved, started) => DeliverCreateSlots(s, id, resolved, started);
    case Reap(id) => ReapSlots(s, id);
    case FinishRemote(id, code) => FinishRemoteSlots(s, id, code);
    case _ => SlotsSame(s, Next(s, x));
  }

  lemma SlotsSame(s: Sys, s': Sys)
    requires Slots(s) && s'.locals == s.locals && s'.executions == s.executions && s'.creates == s.creates
    requires s'.reserved == s.reserved && s'.released == s.released && s'.nextTid == s.nextTid
    ensures Slots(s')
  {
    forall h: nat, j ensures SlotOk(s', h, j) { assert SlotOk(s, h, j); }
  }

  // ------------------------------------------------------------------ threads

  /** Everything about other threads is untouched by a step on `id`. */
  ghost predicate AsideAt(s: Sys, s': Sys, j: Id) {
    && (j in s'.locals <==> j in s.locals)
    && (j in s'.records <==> j in s.records) && (j in s.records ==> s'.records[j] == s.records[j])
    && (j in s'.creates <==> j in s.creates) && (j in s.creates ==> s'.creates[j] == s.creates[j])
    && (j in s'.executions <==> j in s.executions) && (j in s.executions ==> s'.executions[j] == s.executions[j])
    && s'.ended[j] == s.ended[j]
    && (Issued(s, j) ==> Issued(s', j))
  }

  ghost predicate ThreadsAside(s: Sys, s': Sys, id: Id) {
    && s'.hosts == s.hosts
    && (forall j :: j != id ==> AsideAt(s, s', j))
    && (forall c: Completion :: c.id != id ==> (c in s'.completions <==> c in s.completions))
  }

  lemma ThreadsFrom(s: Sys, s': Sys, id: Id)
    requires Threads(s) && ThreadsAside(s, s', id) && ThreadOk(s', id)
    ensures Threads(s')
  {
    forall j ensures ThreadOk(s', j) {
      if j != id {
        assert ThreadOk(s, j) && AsideAt(s, s', j);
        SomewhereAside(s, s', id, j);
      }
    }
  }

  lemma SomewhereAside(s: Sys, s': Sys, id: Id, j: Id)
    requires ThreadsAside(s, s', id) && j != id
    ensures Somewhere(s', j) <==> Somewhere(s, j)
  {
    assert AsideAt(s, s', j);
    if c :| c in s.completions && c.id == j { assert c in s'.completions; }
    if c :| c in s'.completions && c.id == j { assert c in s.completions; }
  }

  /** A step touches only its own thread. */
  lemma AsideKeep(s: Sys, x: Action)
    requires Enabled(s, x)
    ensures ThreadsAside(s, Next(s, x), Subject(s, x))
  {
    hide Next, Enabled, ThreadsAside, Subject;
    if x.LaunchLocal? || x.LaunchRemote? {
      AsideLaunch(s, x);
    } else if x.DeliverCreate? {
      AsideCreate(s, x);
    } else if x.FinishLocal? || x.FinishRemote? || x.Reap? {
      AsideExecute(s, x);
    } else {
      AsideRecord(s, x);
    }
  }

  lemma AsideLaunch(s: Sys, x: Action)
    requires Enabled(s, x) && (x.LaunchLocal? || x.LaunchRemote?)
    ensures ThreadsAside(s, Next(s, x), Subject(s, x))
  {
    hide AsideAt, ThreadsAside;
    if x.LaunchLocal? { AsideLocal(s, x.host, x.started); } else { AsideRemote(s, x.host, x.target); }
  }

  lemma AsideLocal(s: Sys, h: nat, started: bool)
    requires Enabled(s, LaunchLocal(h, started))
    ensures ThreadsAside(s, Next(s, LaunchLocal(h, started)), Id(h, s.nextTid[h]))
  {
    var s', id := Next(s, LaunchLocal(h, started)), Id(h, s.nextTid[h]);
    forall j | j != id ensures AsideAt(s, s', j) { }
  }

  lemma AsideRemote(s: Sys, h: nat, target: nat)
    requires Enabled(s, LaunchRemote(h, target))
    ensures ThreadsAside(s, Next(s, LaunchRemote(h, target)), Id(h, s.nextTid[h]))
  {
    var s', id := Next(s, LaunchRemote(h, target)), Id(h, s.nextTid[h]);
    forall j | j != id ensures AsideAt(s, s', j) { }
  }

  lemma AsideCreate(s: Sys, x: Action)
    requires Enabled(s, x) && x.DeliverCreate?
    ensures ThreadsAside(s, Next(s, x), Subject(s, x))
  {
    var s', id := Next(s, x), Subject(s, x);
    forall j | j != id ensures AsideAt(s, s', j) { }
  }

  lemma AsideExecute(s: Sys, x: Action)
    requires Enabled(s, x) && (x.FinishLocal? || x.FinishRemote? || x.Reap?)
    ensures ThreadsAside(s, Next(s, x), Subject(s, x))
  {
    var s', id := Next(s, x), Subject(s, x);
    forall j | j != id ensures AsideAt(s, s', j) { }
  }

  lemma AsideRecord(s: Sys, x: Action)
    requires Enabled(s, x) && (x.DeliverAck? || x.DeliverCompletion? || x.Join? || x.Detach?)
    ensures ThreadsAside(s, Next(s, x), Subject(s, x))
  {
    var s', id := Next(s, x), Subject(s, x);
    forall j | j != id ensures AsideAt(s, s', j) { }
  }

  lemma LaunchLocalThreads(s: Sys, h: nat, started: bool)
    requires |s.nextTid| == s.hosts && Threads(s) && Enabled(s, LaunchLocal(h, started))
    ensures Threads(Next(s, LaunchLocal(h, started)))
  {
    hide ThreadsAside;
    AsideKeep(s, LaunchLocal(h, started));
    var s' := Next(s, LaunchLocal(h, started));
    var id := Id(h, s.nextTid[h]);
    NewId(s, h);
    assert ThreadOk(s, id);
    hide Threads;
    ThreadsFrom(s, s', id);
  }

  lemma FinishLocalThreads(s: Sys, id: Id, code: int)
    requires |s.nextTid| == s.hosts && Threads(s) && Enabled(s, FinishLocal(id, code))
    ensures Threads(Next(s, FinishLocal(id, code)))
  {
    hide ThreadsAside;
    AsideKeep(s, FinishLocal(id, code));
    var s' := Next(s, FinishLocal(id, code));
    assert ThreadOk(s, id);
    hide Threads;
    ThreadsFrom(s, s', id);
  }

  lemma LaunchRemoteThreads(s: Sys, h: nat, target: nat)
    requires |s.nextTid| == s.hosts && Threads(s) && Enabled(s, LaunchRemote(h, target))
    ensures Threads(Next(s, LaunchRemote(h, target)))
  {
    hide ThreadsAside;
    AsideKeep(s, LaunchRemote(h, target));
    var s' := Next(s, LaunchRemote(h, target));
    var id := Id(h, s.nextTid[h]);
    NewId(s, h);
    assert ThreadOk(s, id);
    hide Threads;
    ThreadsFrom(s, s', id);
  }

  lemma DeliverCreateThreads(s: Sys, id: Id, resolved: bool, started: bool)
    requires |s.nextTid| == s.hosts && Threads(s) && Enabled(s, DeliverCreate(id, resolved, started))
    ensures Threads(Next(s, DeliverCreate(id, resolved, started)))
  {
    hide ThreadsAside;
    AsideKeep(s, DeliverCreate(id, resolved, started));
    var s' := Next(s, DeliverCreate(id, resolved, started));
    CreateFacts(s, id);
    assert ThreadOk(s, id);
    hide Threads;
    ThreadsFrom(s, s', id);
  }

  lemma FinishRemoteThreads(s: Sys, id: Id, code: int)
    requires |s.nextTid| == s.hosts && Threads(s) && Enabled(s, FinishRemote(id, code))
    ensures Threads(Next(s, FinishRemote(id, code)))
  {
    hide ThreadsAside;
    AsideKeep(s, FinishRemote(id, code));
    var s' := Next(s, FinishRemote(id, code));
    assert ThreadOk(s, id);
    hide Threads;
    ThreadsFrom(s, s', id);
  }

  lemma ReapThreads(s: Sys, id: Id)
    requires |s.nextTid| == s.hosts && Threads(s) && Enabled(s, Reap(id))
    ensures Threads(Next(s, Reap(id)))
  {
    hide ThreadsAside;
    AsideKeep(s, Reap(id));
    var s' := Next(s, Reap(id));
    assert ThreadOk(s, id);
    hide Threads;
    assert Completion(id, s.executions[id].host, s.executions[id].code) in s'.completions;
    ThreadsFrom(s, s', id);
  }

  lemma DeliverAckThreads(s: Sys, a: Acknowledgement)
    requires |s.nextTid| == s.hosts && Threads(s) && Enabled(s, DeliverAck(a))
    ensures Threads(Next(s, DeliverAck(a)))
  {
    hide ThreadsAside;
    AsideKeep(s, DeliverAck(a));
    var s' := Next(s, DeliverAck(a));
    var id := a.id;
    assert ThreadOk(s, id);
    hide Threads;
    ThreadsFrom(s, s', id);
  }

  lemma DeliverCompletionThreads(s: Sys, c: Completion)
    requires |s.nextTid| == s.hosts && Threads(s) && Enabled(s, DeliverCompletion(c))
    ensures Threads(Next(s, DeliverCompletion(c)))
  {
    hide ThreadsAside;
    AsideKeep(s, DeliverCompletion(c));
    var s' := Next(s, DeliverCompletion(c));
    var id := c.id;
    assert ThreadOk(s, id);
    hide Threads;
    ThreadsFrom(s, s', id);
  }

  lemma JoinThreads(s: Sys, id: Id)
    requires |s.nextTid| == s.hosts && Threads(s) && Enabled(s, Join(id))
    ensures Threads(Next(s, Join(id)))
  {
    hide ThreadsAside;
    AsideKeep(s, Join(id));
    var s' := Next(s, Join(id));
    assert ThreadOk(s, id);
    hide Threads;
    ThreadsFrom(s, s', id);
  }

  lemma DetachThreads(s: Sys, id: Id)
    requires |s.nextTid| == s.hosts && Threads(s) && Enabled(s, Detach(id))
    ensures Threads(Next(s, Detach(id)))
  {
    hide ThreadsAside;
    AsideKeep(s, Detach(id));
    var s' := Next(s, Detach(id));
    assert ThreadOk(s, id);
    hide Threads;
    ThreadsFrom(s, s', id);
  }

  lemma ThreadsKeep(s: Sys, x: Action)
    requires Counters(s) && Threads(s) && Enabled(s, x)
    ensures Threads(Next(s, x))
  {
    hide PendingOk, RunningOk, Threads, Next, Enabled;
    match x
    case LaunchLocal(h, started) => LaunchLocalThreads(s, h, started);
    case FinishLocal(id, code) => FinishLocalThreads(s, id, code);
    case LaunchRemote(h, target) => LaunchRemoteThreads(s, h, target);
    case DeliverCreate(id, resolved, started) => DeliverCreateThreads(s, id, resolved, started);
    case FinishRemote(id, code) => FinishRemoteThreads(s, id, code);
    case Reap(id) => ReapThreads(s, id);
    case DeliverAck(a) => DeliverAckThreads(s, a);
    case DeliverCompletion(c) => DeliverCompletionThreads(s, c);
    case Join(id) => JoinThreads(s, id);
    case Detach(id) => DetachThreads(s, id);
  }

  lemma StepKeeps(s: Sys, x: Action)
    requires Inv(s) && Enabled(s, x)
    ensures Inv(Next(s, x))
  {
    hide Counters, Slots, Threads, Next, Enabled;
    CountersKeep(s, x);
    SlotsKeep(s, x);
    ThreadsKeep(s, x);
  }

  ghost predicate Run(run: seq<Sys>, actions: seq<Action>) {
    && |run| == |actions| + 1
    && (forall i :: 0 <= i < |actions| ==> Enabled(run[i], actions[i]) && run[i + 1] == Next(run[i], actions[i]))
  }

  lemma {:induction false} RunKeeps(run: seq<Sys>, actions: seq<Action>, hosts: nat, runningLimit: nat, pendingLimit: nat, i: nat)
    requires Run(run, actions) && run[0] == Init(hosts, runningLimit, pendingLimit) && i < |run|
    ensures Inv(run[i])
  {
    hide Inv, Next, Enabled, Init;
    if i == 0 {
      InitInv(hosts, runningLimit, pendingLimit);
    } else {
      RunKeeps(run, actions, hosts, runningLimit, pendingLimit, i - 1);
      StepKeeps(run[i - 1], actions[i - 1]);
    }
  }

  // ------------------------------------------------------------------ what it means

  /** The pending counter of a host is exactly the number of its remote threads still launching or running. */
  lemma PendingExact(run: seq<Sys>, actions: seq<Action>, hosts: nat, runningLimit: nat, pendingLimit: nat, i: nat, h: nat)
    requires Run(run, actions) && run[0] == Init(hosts, runningLimit, pendingLimit) && i < |run| && h < run[i].hosts
    ensures |run[i].pending| == run[i].hosts && run[i].pending[h] == |Outstanding(run[i].records, h)|
  {
    hide Next, Enabled, Init, Slots, Threads;
    RunKeeps(run, actions, hosts, runningLimit, pendingLimit, i);
  }

  /**
   Every running slot a thread took is given back exactly once: at any time the slots taken and
   not given back are those of threads now holding one, and their number respects the limit.
   */
  lemma SlotsExact(run: seq<Sys>, actions: seq<Action>, hosts: nat, runningLimit: nat, pendingLimit: nat, i: nat, h: nat, id: Id)
    requires Run(run, actions) && run[0] == Init(hosts, runningLimit, pendingLimit) && i < |run| && h < run[i].hosts
    ensures |run[i].running| == run[i].hosts && run[i].running[h] == |Holders(run[i].locals, run[i].executions, h)|
    ensures run[i].runningLimit != 0 ==> run[i].running[h] <= run[i].runningLimit
    ensures run[i].reserved[(h, id)] <= 1
    ensures run[i].reserved[(h, id)] == run[i].released[(h, id)] + if id in Holders(run[i].locals, run[i].executions, h) then 1 else 0
  {
    hide Next, Enabled, Init, Threads;
    RunKeeps(run, actions, hosts, runningLimit, pendingLimit, i);
    assert SlotOk(run[i], h, id);
  }

  /** Counters never go below zero: whatever gives a unit back finds one. */
  lemma CountersPositive(run: seq<Sys>, actions: seq<Action>, hosts: nat, runningLimit: nat, pendingLimit: nat, i: nat)
    requires Run(run, actions) && run[0] == Init(hosts, runningLimit, pendingLimit) && i < |actions|
    ensures var s, x := run[i], actions[i];
      && (x.Reap? ==> s.executions[x.id].host < |s.running| && s.running[s.executions[x.id].host] > 0)
      && (x.FinishLocal? ==> x.id.home < |s.running| && s.running[x.id.home] > 0)
      && (x.DeliverCompletion? && Next(s, x) != s ==> x.completion.id.home < |s.pending| && s.pending[x.completion.id.home] > 0)
  {
    RunKeeps(run, actions, hosts, runningLimit, pendingLimit, i);
    var s, x := run[i], actions[i];
    assert Enabled(s, x);
    assert ThreadOk(s, Subject(s, x));
    hide Slots, Threads, PendingOk, RunningOk, Outstanding;
    if x.Reap? { RunningRemoteDone(s.running, s.locals, s.executions, s.runningLimit, x.id); }
    if x.FinishLocal? { RunningLocalDone(s.running, s.locals, s.executions, s.runningLimit, x.id); }
    if x.DeliverCompletion? && Next(s, x) != s {
      var id := x.completion.id;
      PendingWithout(s.pending, s.pending[id.home := Minus(s.pending[id.home])], s.records, id);
    }
  }

  lemma StepEnds(s: Sys, x: Action, s': Sys, id: Id)
    requires Inv(s) && Enabled(s, x) && s' == Next(s, x)
    ensures s.ended[id] <= s'.ended[id]
    ensures id in s.records && s.records[id].state.Completed? ==> id !in s'.records || s'.records[id] == s.records[id]
    ensures Issued(s, id) ==> Issued(s', id)
    ensures Issued(s, id) && id !in s.records ==> id !in s'.records
  {
    if id != Subject(s, x) {
      AsideKeep(s, x);
      hide Inv, Next, Enabled, Subject;
      assert AsideAt(s, s', id);
    } else {
      assert |s.nextTid| == s.hosts && ThreadOk(s, id);
      hide Inv, Threads, Progressing, Somewhere;
      EndsAt(s, x, s', id);
    }
  }

  lemma EndsAt(s: Sys, x: Action, s': Sys, id: Id)
    requires |s.nextTid| == s.hosts && ThreadOk(s, id) && Enabled(s, x) && s' == Next(s, x) && id == Subject(s, x)
    ensures s.ended[id] <= s'.ended[id]
    ensures id in s.records && s.records[id].state.Completed? ==> id !in s'.records || s'.records[id] == s.records[id]
    ensures Issued(s, id) ==> Issued(s', id)
    ensures Issued(s, id) && id !in s.records ==> id !in s'.records
  {
    hide Progressing, Somewhere;
  }

  /** A completed record keeps its result until it is reclaimed, and a reclaimed one never comes back. */
  lemma {:induction false} CompletedIsFinal(run: seq<Sys>, actions: seq<Action>, hosts: nat, runningLimit: nat, pendingLimit: nat, i: nat, j: nat, id: Id)
    requires Run(run, actions) && run[0] == Init(hosts, runningLimit, pendingLimit) && i <= j < |run|
    requires id in run[i].records && run[i].records[id].state.Completed?
    ensures id !in run[j].records || run[j].records[id] == run[i].records[id]
    ensures run[j].ended[id] == 1 && Issued(run[j], id)
    decreases j
  {
    hide Next, Enabled, Init;
    RunKeeps(run, actions, hosts, runningLimit, pendingLimit, j);
    assert ThreadOk(run[j], id);
    hide Inv, ThreadOk;
    if i < j {
      CompletedIsFinal(run, actions, hosts, runningLimit, pendingLimit, i, j - 1, id);
      RunKeeps(run, actions, hosts, runningLimit, pendingLimit, j - 1);
      StepEnds(run[j - 1], actions[j - 1], run[j], id);
    }
  }

  /** All completions ever sent for a thread carry the same result, so repeats and delays cannot change it. */
  lemma OneResult(run: seq<Sys>, actions: seq<Action>, hosts: nat, runningLimit: nat, pendingLimit: nat, i: nat, c: Completion, d: Completion)
    requires Run(run, actions) && run[0] == Init(hosts, runningLimit, pendingLimit) && i < |run|
    requires c in run[i].completions && d in run[i].completions && c.id == d.id
    ensures c == d
  {
    hide Next, Enabled, Init;
    RunKeeps(run, actions, hosts, runningLimit, pendingLimit, i);
    assert ThreadOk(run[i], c.id);
  }
}
