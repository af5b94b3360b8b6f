/**
 The thread tables of one host, changed in place: the records of a thread manager, and the list
 of remote executions with its running-slot counter and outgoing messages. `RemoteThreads` shows
 what these calls add up to over a network.
 */
module ThreadRuntime {

  datatype State = Allocated | Launching | Running | Completed

  datatype Entry = Entry(target: nat, state: State, code: int, result: nat, detached: bool, joining: bool)

  datatype Status = Ok | NotFound | FailedPrecondition | Unavailable | Waiting | Internal

  /** No joiner is accepted any more, or yet. */
  predicate Refuses(e: Entry) {
    e.joining || e.detached || e.state.Allocated?
  }

  /** Records by thread number; numbers are never reused. */
  class ThreadManager {
    const self: nat
    var nextTid: nat
    var records: map<nat, Entry>

    ghost predicate Valid()
      reads this
    {
      forall t :: t in records ==>
        && t < nextTid && (records[t].detached ==> !records[t].state.Completed?)
        && (records[t].joining ==> !records[t].detached && !records[t].state.Allocated?)
    }

    constructor (self: nat)
      ensures Valid() && this.self == self && nextTid == 0 && records == map[]
    {
      this.self, nextTid, records := self, 0, map[];
    }

    method AllocateThread(target: nat) returns (tid: nat)
      requires Valid()
      modifies this
      ensures Valid() && tid == old(nextTid) && tid !in old(records) && nextTid == tid + 1
      ensures records == old(records)[tid := Entry(target, Allocated, 0, 0, false, false)]
    {
      tid := nextTid;
      nextTid := nextTid + 1;
      records := records[tid := Entry(target, Allocated, 0, 0, false, false)];
    }

    method MarkLaunching(home: nat, tid: nat) returns (status: Status)
      requires Valid()
      modifies this`records
      ensures Valid()
      ensures status == Ok <==> home == self && tid in old(records) && old(records)[tid].state.Allocated?
      ensures records == if status == Ok then old(records)[tid := old(records)[tid].(state := Launching)] else old(records)
    {
      if home != self || tid !in records { return NotFound; }
      if !records[tid].state.Allocated? { return FailedPrecondition; }
      records := records[tid := records[tid].(state := Launching)];
      return Ok;
    }

    /** A late acknowledgement never takes a thread out of the completed state. */
    method MarkRunning(home: nat, tid: nat) returns (status: Status)
      requires Valid()
      modifies this`records
      ensures Valid()
      ensures records == if home == self && tid in old(records) && (old(records)[tid].state.Launching? || old(records)[tid].state.Running?)
                         then old(records)[tid := old(records)[tid].(state := Running)] else old(records)
      ensures status == NotFound <==> home != self || tid !in old(records)
      ensures status == FailedPrecondition <==> home == self && tid in old(records) && old(records)[tid].state.Allocated?
    {
      if home != self || tid !in records { return NotFound; }
      var state := records[tid].state;
      if state.Completed? { return Ok; }
      if !state.Launching? && !state.Running? { return FailedPrecondition; }
      records := records[tid := records[tid].(state := Running)];
      return Ok;
    }

    /** The first completion fixes the result; later ones change nothing. A detached record goes at once. */
    method MarkCompleted(home: nat, tid: nat, code: int, result: nat) returns (status: Status)
      requires Valid()
      modifies this`records
      ensures Valid()
      ensures records ==
        if home != self || tid !in old(records) || old(records)[tid].state.Completed? || old(records)[tid].state.Allocated? then old(records)
        else if old(records)[tid].detached then old(records) - {tid}
        else old(records)[tid := old(records)[tid].(state := Completed, code := code, result := result)]
      ensures status == NotFound <==> home != self || tid !in old(records)
      ensures status == FailedPrecondition <==> home == self && tid in old(records) && old(records)[tid].state.Allocated?
    {
      if home != self || tid !in records { return NotFound; }
      var e := records[tid];
      if e.state.Completed? { return Ok; }
      if e.state.Allocated? { return FailedPrecondition; }
      records := records[tid := e.(state := Completed, code := code, result := result)];
      if e.detached { records := records - {tid}; }
      assert e.detached ==> records == old(records) - {tid};
      return Ok;
    }

    /**
     A join up to its wait. The thread itself, a second joiner and a detached or unlaunched record
     are refused; otherwise the record belongs to this joiner, and is handed over at once when it
     is completed already.
     */
    method Join(home: nat, tid: nat, own: bool, acquired: bool) returns (status: Status, result: nat)
      requires Valid()
      modifies this`records
      ensures Valid()
      ensures status == NotFound <==> home != self || tid !in old(records)
      ensures status == FailedPrecondition <==> home == self && tid in old(records) && (own || old(records)[tid].joining || old(records)[tid].detached || old(records)[tid].state == Allocated)
      ensures status in {NotFound, FailedPrecondition} ==> records == old(records)
      ensures status == Waiting ==> records == old(records)[tid := old(records)[tid].(joining := true)]
      ensures status !in {NotFound, FailedPrecondition} ==> (status == Waiting <==> old(records)[tid].state != Completed)
      ensures status in {Ok, Internal, Unavailable} ==> result == old(records)[tid].result
      ensures status in {Ok, Internal, Unavailable} ==>
        status == if !acquired then Unavailable else if old(records)[tid].code == 0 then Ok else Internal
      ensures status in {Ok, Internal, Unavailable} ==> records == old(records) - {tid}
    {
      if home != self || tid !in records { return NotFound, 0; }
      var e := records[tid];
      if own || Refuses(e) { return FailedPrecondition, 0; }
      records := records[tid := e.(joining := true)];
      status, result := FinishJoin(tid, acquired);
    }

    /**
     A join after its wait: the completed record gives its result and goes, whether or not memory
     could be acquired.
     */
    method FinishJoin(tid: nat, acquired: bool) returns (status: Status, result: nat)
      requires Valid() && tid in records && records[tid].joining
      modifies this`records
      ensures Valid()
      ensures status == Waiting <==> old(records)[tid].state != Completed
      ensures status != Waiting ==> result == old(records)[tid].result
      ensures status != Waiting ==> status == if !acquired then Unavailable else if old(records)[tid].code == 0 then Ok else Internal
      ensures records == if status == Waiting then old(records) else old(records) - {tid}
    {
      var e := records[tid];
      if !e.state.Completed? { return Waiting, 0; }
      records := records - {tid};
      return (if !acquired then Unavailable else if e.code == 0 then Ok else Internal), e.result;
    }

    method Detach(home: nat, tid: nat) returns (status: Status)
      requires Valid()
      modifies this`records
      ensures Valid()
      ensures status == Ok <==>
        home == self && tid in old(records) && !old(records)[tid].joining && !old(records)[tid].detached && old(records)[tid].state != Allocated
      ensures records ==
        if status != Ok then old(records)
        else if old(records)[tid].state.Completed? then old(records) - {tid}
        else old(records)[tid := old(records)[tid].(detached := true)]
    {
      if home != self || tid !in records { return NotFound; }
      var e := records[tid];
      if Refuses(e) { return FailedPrecondition; }
      if e.state.Completed? { records := records - {tid}; } else { records := records[tid := e.(detached := true)]; }
      return Ok;
    }
  }

  datatype Id = Id(home: nat, tid: nat)

  datatype Execution = Execution(home: Id, local: nat)

  datatype Outgoing = Create(id: Id, target: nat) | Acknowledge(id: Id) | Complete(id: Id, code: int, result: nat)

  predicate Finished(records: map<nat, Entry>, x: Execution) {
    x.local in records && records[x.local].state.Completed?
  }

  /** The entries still executing, in their order. */
  function Unfinished(records: map<nat, Entry>, list: seq<Execution>): (r: seq<Execution>)
    ensures forall x :: x in r <==> x in list && !Finished(records, x)
  {
    if list == [] then []
    else Unfinished(records, list[..|list| - 1]) + (if Finished(records, list[|list| - 1]) then [] else [list[|list| - 1]])
  }

  function CompletionOf(records: map<nat, Entry>, x: Execution): seq<Outgoing> {
    if Finished(records, x) then [Complete(x.home, records[x.local].code, records[x.local].result)] else []
  }

  /** The completions to send for the finished entries, in their order. */
  function Completions(records: map<nat, Entry>, list: seq<Execution>): (r: seq<Outgoing>)
    ensures |r| + |Unfinished(records, list)| == |list|
    ensures forall x :: x in list && Finished(records, x) ==> Complete(x.home, records[x.local].code, records[x.local].result) in r
  {
    if list == [] then []
    else
      var x := list[|list| - 1];
      Completions(records, list[..|list| - 1]) + CompletionOf(records, x)
  }

  lemma FinishedExactly(records: map<nat, Entry>, x: Execution)
    ensures Finished(records, x) <==> x.local in records && records[x.local].state == Completed
  { }

  function Flags(records: map<nat, Entry>, list: seq<Execution>): (r: seq<bool>)
    ensures |r| == |list| && forall k :: 0 <= k < |r| ==> r[k] == Finished(records, list[k])
  {
    seq(|list|, k requires 0 <= k < |list| => Finished(records, list[k]))
  }

  /** What a finished execution is reported with. */
  predicate Reports(records: map<nat, Entry>, x: Execution, m: Outgoing) {
    x.local in records && m == Complete(x.home, records[x.local].code, records[x.local].result)
  }

  ghost predicate AllReported(records: map<nat, Entry>, done: seq<Execution>, messages: seq<Outgoing>) {
    |messages| == |done| && forall j :: 0 <= j < |done| ==> Reports(records, done[j], messages[j])
  }

  /** The same of the list's last entry and the ones before it. */
  lemma LastReaped(records: map<nat, Entry>, list: seq<Execution>)
    requires list != []
    ensures var n := |list| - 1; var flags := Flags(records, list);
      && flags[n] == Finished(records, list[n]) && flags[..n] == Flags(records, list[..n])
      && Unfinished(records, list) == Unfinished(records, list[..n]) + (if flags[n] then [] else [list[n]])
      && Completions(records, list) == Completions(records, list[..n]) + CompletionOf(records, list[n])
      && (forall which :: Chosen(list, flags, which) ==
            Chosen(list[..n], flags[..n], which) + (if flags[n] == which then [list[n]] else []))
  {
    assert Flags(records, list)[..|list| - 1] == Flags(records, list[..|list| - 1]);
  }

  lemma ReportNext(records: map<nat, Entry>, done: seq<Execution>, messages: seq<Outgoing>, x: Execution)
    requires AllReported(records, done, messages)
    ensures AllReported(records, done + (if Finished(records, x) then [x] else []), messages + CompletionOf(records, x))
  {
    hide Reports, CompletionOf;
    CompletionIs(records, x);
  }

  lemma CompletionIs(records: map<nat, Entry>, x: Execution)
    ensures |CompletionOf(records, x)| == (if Finished(records, x) then 1 else 0)
    ensures Finished(records, x) ==> Reports(records, x, CompletionOf(records, x)[0])
  { }

  /** Those still executing stay, and each finished one is reported with its own code and result. */
  lemma {:induction false} ReapedAre(records: map<nat, Entry>, list: seq<Execution>)
    ensures Unfinished(records, list) == Chosen(list, Flags(records, list), false)
    ensures AllReported(records, Chosen(list, Flags(records, list), true), Completions(records, list))
  {
    if list != [] {
      hide Flags, Chosen, Unfinished, Completions, CompletionOf, AllReported, Finished;
      var n := |list| - 1;
      ReapedAre(records, list[..n]);
      LastReaped(records, list);
      ReportNext(records, Chosen(list[..n], Flags(records, list[..n]), true), Completions(records, list[..n]), list[n]);
    }
  }

  lemma NoneYet(records: map<nat, Entry>, list: seq<Execution>)
    ensures Unfinished(records, list[..0]) == [] && Completions(records, list[..0]) == []
  { }

  lemma OneMore(records: map<nat, Entry>, list: seq<Execution>, i: nat)
    requires i < |list|
    ensures Unfinished(records, list[..i + 1]) == Unfinished(records, list[..i]) + (if Finished(records, list[i]) then [] else [list[i]])
    ensures Completions(records, list[..i + 1]) == Completions(records, list[..i]) + CompletionOf(records, list[i])
  {
    assert list[..i + 1][..i] == list[..i];
  }

  predicate SameEntry(a: map<nat, Entry>, b: map<nat, Entry>, t: nat) {
    (t in a <==> t in b) && (t in a ==> a[t] == b[t])
  }

  predicate Listed(list: seq<Execution>, t: nat) {
    exists i :: 0 <= i < |list| && list[i].local == t
  }

  lemma ListedAt(list: seq<Execution>, i: nat)
    requires i < |list|
    ensures Listed(list, list[i].local)
  { }

  predicate DistinctLocals(list: seq<Execution>) {
    forall i, j :: 0 <= i < j < |list| ==> list[i].local != list[j].local
  }

  /** Messages the queues accepted, and those to try again, by one pass. */
  function Chosen<T>(messages: seq<T>, accepted: seq<bool>, which: bool): (r: seq<T>)
    requires |accepted| == |messages|
  {
    if messages == [] then []
    else
      var n := |messages| - 1;
      Chosen(messages[..n], accepted[..n], which) + (if accepted[n] == which then [messages[n]] else [])
  }

  lemma NoneChosen(messages: seq<Outgoing>, accepted: seq<bool>)
    requires |accepted| == |messages|
    ensures forall which :: Chosen(messages[..0], accepted[..0], which) == []
  { }

  /** Taking the front of the queue, and putting it back behind the others. */
  lemma QueueTurns(all: seq<Outgoing>, i: nat, behind: seq<Outgoing>)
    requires i < |all|
    ensures var queue := all[i..] + behind;
      queue[0] == all[i] && queue[1..] == all[i + 1..] + behind && queue[1..] + [all[i]] == all[i + 1..] + (behind + [all[i]])
  { }

  lemma ChosenNext(messages: seq<Outgoing>, accepted: seq<bool>, i: nat)
    requires i < |messages| == |accepted|
    ensures Chosen(messages[..i + 1], accepted[..i + 1], accepted[i]) == Chosen(messages[..i], accepted[..i], accepted[i]) + [messages[i]]
    ensures Chosen(messages[..i + 1], accepted[..i + 1], !accepted[i]) == Chosen(messages[..i], accepted[..i], !accepted[i])
  {
    assert messages[..i + 1][..i] == messages[..i] && accepted[..i + 1][..i] == accepted[..i];
  }

  /** These are the places of the accepted messages, or of the refused ones, each once and in order. */
  ghost predicate Places(at: seq<nat>, accepted: seq<bool>, which: bool) {
    && (forall i, j :: 0 <= i < j < |at| ==> at[i] < at[j])
    && (forall k: nat :: k in at <==> k < |accepted| && accepted[k] == which)
  }

  /** The messages at these places, in their order. */
  ghost predicate TakenFrom<T>(chosen: seq<T>, messages: seq<T>, at: seq<nat>) {
    |chosen| == |at| && forall j :: 0 <= j < |at| ==> at[j] < |messages| && chosen[j] == messages[at[j]]
  }

  lemma {:induction false} ChosenExactly<T>(messages: seq<T>, accepted: seq<bool>, which: bool) returns (at: seq<nat>)
    requires |accepted| == |messages|
    ensures Places(at, accepted, which) && TakenFrom(Chosen(messages, accepted, which), messages, at)
  {
    if messages == [] {
      at := [];
    } else {
      var n := |messages| - 1;
      at := ChosenExactly(messages[..n], accepted[..n], which);
      assert forall j :: 0 <= j < |at| ==> at[j] in at;
      if accepted[n] == which { at := at + [n]; }
    }
  }

  /** A pass neither loses nor duplicates a message. */
  lemma {:induction false} ChosenSplits(messages: seq<Outgoing>, accepted: seq<bool>)
    requires |accepted| == |messages|
    ensures multiset(Chosen(messages, accepted, true)) + multiset(Chosen(messages, accepted, false)) == multiset(messages)
  {
    if messages != [] {
      var n := |messages| - 1;
      ChosenSplits(messages[..n], accepted[..n]);
      assert messages == messages[..n] + [messages[n]];
    }
  }

  /** The execution side of a host. */
  class Executor {
    const self: nat
    const limit: nat
    const threads: ThreadManager
    var remote: seq<Execution>
    var running: nat
    var outgoing: seq<Outgoing>

    ghost predicate Valid()
      reads this, threads
    {
      threads.Valid() && DistinctLocals(remote) && |remote| <= running && (limit != 0 ==> running <= limit)
    }

    constructor (self: nat, limit: nat, threads: ThreadManager)
      requires threads.Valid()
      ensures Valid() && this.self == self && this.limit == limit && this.threads == threads && remote == [] && running == 0 && outgoing == []
    {
      this.self, this.limit, this.threads, remote, running, outgoing := self, limit, threads, [], 0, [];
    }

    method ReserveExecution() returns (status: Status)
      requires Valid()
      modifies this`running
      ensures Valid()
      ensures status == Ok <==> limit == 0 || old(running) < limit
      ensures running == old(running) + (if status == Ok then 1 else 0)
    {
      if limit != 0 && running >= limit { return Unavailable; }
      running := running + 1;
      return Ok;
    }

    /**
     A create request: at most one execution per thread, at most one slot, and an answer in every
     case but a repeated request.
     */
    method HandleCreate(id: Id, resolved: bool, started: bool) returns (status: Status)
      requires Valid() && (forall x :: x in remote ==> x.local < threads.nextTid)
      modifies this, threads
      ensures Valid() && status == Ok
      ensures (exists x :: x in old(remote) && x.home == id) ==>
        remote == old(remote) && running == old(running) && outgoing == old(outgoing)
      ensures (forall x :: x in old(remote) ==> x.home != id) ==>
        var full := limit != 0 && old(running) >= limit;
        && remote == old(remote) + (if resolved && !full then [Execution(id, old(threads.nextTid))] else [])
        && running == old(running) + (if resolved && !full then 1 else 0)
        && outgoing == old(outgoing) +
           (if !resolved then [Complete(id, -1, 0)] else if full then [Complete(id, -2, 0)] else if started then [Acknowledge(id)] else [])
    {
      for i := 0 to |remote|
        invariant forall j :: 0 <= j < i ==> remote[j].home != id
      {
        if remote[i].home == id { return Ok; }
      }
      if !resolved {
        outgoing := outgoing + [Complete(id, -1, 0)];
        return Ok;
      }
      status := ReserveExecution();
      if status != Ok {
        outgoing := outgoing + [Complete(id, -2, 0)];
        return Ok;
      }
      var local := threads.AllocateThread(self);
      status := threads.MarkLaunching(threads.self, local);
      if started {
        status := threads.MarkRunning(threads.self, local);
      } else {
        status := threads.MarkCompleted(threads.self, local, -1, 0);
      }
      assert forall i :: 0 <= i < |remote| ==> remote[i] in remote;
      remote := remote + [Execution(id, local)];
      if started { outgoing := outgoing + [Acknowledge(id)]; }
      return Ok;
    }

    /** One reaping pass: every finished execution gives its slot back once and reports its result once. */
    method Reap()
      requires Valid()
      modifies this, threads
      ensures Valid()
      ensures remote == Unfinished(old(threads.records), old(remote))
      ensures running == old(running) - (|old(remote)| - |remote|)
      ensures outgoing == old(outgoing) + Completions(old(threads.records), old(remote))
      ensures forall t :: !Listed(old(remote), t) ==> SameEntry(old(threads.records), threads.records, t)
    {
      hide Completions, Unfinished, Listed;
      ghost var records := threads.records;
      var list, kept, i := remote, [], 0;
      NoneYet(records, list);
      while i < |list|
        invariant i <= |list| && remote == list && threads.Valid()
        invariant kept == Unfinished(records, list[..i]) && |kept| <= i
        invariant running == old(running) - (i - |kept|)
        invariant outgoing == old(outgoing) + Completions(records, list[..i])
        invariant forall j :: i <= j < |list| ==> SameEntry(records, threads.records, list[j].local)
        invariant forall t :: !Listed(list, t) ==> SameEntry(records, threads.records, t)
      {
        OneMore(records, list, i);
        ListedAt(list, i);
        ghost var before := threads.records;
        kept := ReapOne(list[i], kept);
        forall j | i < j < |list| ensures SameEntry(records, threads.records, list[j].local) {
          assert list[j].local != list[i].local && SameEntry(records, before, list[j].local);
        }
        forall t | !Listed(list, t) ensures SameEntry(records, threads.records, t) {
          assert t != list[i].local && SameEntry(records, before, t);
        }
        i := i + 1;
      }
      assert list[..|list|] == list;
      KeepsDistinct(records, list);
      remote := kept;
    }

    /** Reaps one entry if it is finished, and keeps it otherwise. */
    method ReapOne(x: Execution, kept: seq<Execution>) returns (kept': seq<Execution>)
      requires threads.Valid() && running > 0
      modifies this`running, this`outgoing, threads
      ensures threads.Valid()
      ensures kept' == kept + (if Finished(old(threads.records), x) then [] else [x])
      ensures running == old(running) - (if Finished(old(threads.records), x) then 1 else 0)
      ensures outgoing == old(outgoing) + CompletionOf(old(threads.records), x)
      ensures forall t :: t != x.local ==> SameEntry(old(threads.records), threads.records, t)
    {
      if x.local in threads.records && threads.records[x.local].state.Completed? {
        var e := threads.records[x.local];
        var status, result := threads.Join(threads.self, x.local, false, true);
        running := running - 1;
        outgoing := outgoing + [Complete(x.home, e.code, e.result)];
        return kept;
      }
      return kept + [x];
    }

    /**
     One attempt per waiting message. Exactly the accepted ones have gone out, exactly the refused
     ones wait again, both in their order; new messages will queue behind the refused ones.
     */
    method FlushOutgoing(accepted: seq<bool>) returns (pushed: seq<Outgoing>, ghost gone: seq<nat>, ghost kept: seq<nat>)
      requires Valid() && |accepted| == |outgoing|
      modifies this`outgoing
      ensures Valid()
      ensures Places(gone, accepted, true) && TakenFrom(pushed, old(outgoing), gone)
      ensures Places(kept, accepted, false) && TakenFrom(outgoing, old(outgoing), kept)
      ensures multiset(pushed) + multiset(outgoing) == multiset(old(outgoing))
    {
      hide Chosen, Places, TakenFrom;
      var all := outgoing;
      pushed := [];
      NoneChosen(all, accepted);
      for i := 0 to |all|
        invariant outgoing == all[i..] + Chosen(all[..i], accepted[..i], false)
        invariant pushed == Chosen(all[..i], accepted[..i], true)
      {
        QueueTurns(all, i, Chosen(all[..i], accepted[..i], false));
        ChosenNext(all, accepted, i);
        var m := outgoing[0];
        outgoing := outgoing[1..];
        if accepted[i] { pushed := pushed + [m]; } else { outgoing := outgoing + [m]; }
      }
      assert all[..|all|] == all && accepted[..|all|] == accepted && all[|all|..] == [];
      assert outgoing == Chosen(all, accepted, false);
      ChosenSplits(all, accepted);
      gone := ChosenExactly(all, accepted, true);
      kept := ChosenExactly(all, accepted, false);
    }
  }

  lemma {:induction false} KeepsDistinct(records: map<nat, Entry>, list: seq<Execution>)
    requires DistinctLocals(list)
    ensures DistinctLocals(Unfinished(records, list))
  {
    if list != [] {
      var n := |list| - 1;
      KeepsDistinct(records, list[..n]);
      var rest := Unfinished(records, list[..n]);
      forall i | 0 <= i < |rest| ensures rest[i].local != list[n].local {
        assert rest[i] in rest && rest[i] in list[..n];
      }
    }
  }
}
