/**
 The queue poller of one host: one scan visits every inbound queue in turn, pops at most a batch
 from each and hands every packet to the handler before it looks at the next. Producers append
 to all queues while it runs, a pop may fail, and another thread may stop it. The retirement cut
 rests on this: whoever reads a queue's cursor between scans knows those packets were handled.
 */
module Poller {

  type Packet = nat

  /** Everything ever published to a queue, and how much of it was popped. */
  datatype Queue = Queue(sent: seq<Packet>, consumed: nat)

  /** Why the poller ended, if it did on its own account. */
  datatype Terminal = Fine | PopError | HandlerError

  datatype Handled = Handled(queue: nat, packet: Packet)

  /** The packets of one queue among those handled, in order. */
  function Of(log: seq<Handled>, queue: nat): seq<Packet> {
    if log == [] then []
    else
      var last := log[|log| - 1];
      Of(log[..|log| - 1], queue) + (if last.queue == queue then [last.packet] else [])
  }

  lemma OfNext(log: seq<Handled>, x: Handled, queue: nat)
    ensures Of(log + [x], queue) == Of(log, queue) + (if x.queue == queue then [x.packet] else [])
  {
    assert (log + [x])[..|log|] == log;
  }

  lemma NoneOf()
    ensures forall k :: Of([], k) == []
  { }

  lemma {:induction false} OfConcat(a: seq<Handled>, b: seq<Handled>, queue: nat)
    ensures Of(a + b, queue) == Of(a, queue) + Of(b, queue)
  {
    if b == [] {
      assert a + b == a;
    } else {
      var n := |b| - 1;
      OfConcat(a, b[..n], queue);
      OfNext(a + b[..n], b[n], queue);
      OfNext(b[..n], b[n], queue);
      assert a + b == a + b[..n] + [b[n]] && b == b[..n] + [b[n]];
    }
  }

  function Min(a: nat, b: nat): nat { if a < b then a else b }

  function Backlog(q: Queue): nat {
    if q.consumed <= |q.sent| then |q.sent| - q.consumed else 0
  }

  /** Producers have appended, and exactly `taken` was popped, in its order and without a gap. */
  predicate Took(before: Queue, after: Queue, taken: seq<Packet>) {
    && before.sent <= after.sent && before.consumed <= after.consumed <= |after.sent|
    && taken == after.sent[before.consumed..after.consumed]
  }

  lemma TookBoth(a: Queue, b: Queue, c: Queue, first: seq<Packet>, second: seq<Packet>)
    requires Took(a, b, first) && Took(b, c, second)
    ensures Took(a, c, first + second)
  {
    assert b.sent[a.consumed..b.consumed] == c.sent[a.consumed..b.consumed];
    assert c.sent[a.consumed..c.consumed] == c.sent[a.consumed..b.consumed] + c.sent[b.consumed..c.consumed];
  }

  /** A visited queue gives up to a batch, and less only if it has no more. */
  predicate Batched(before: Queue, taken: seq<Packet>, batch: nat) {
    Min(batch, Backlog(before)) <= |taken| <= batch
  }

  class QueuePoller {
    const batch: nat
    var queues: seq<Queue>
    var next: nat
    var running: bool
    var terminal: Terminal
    var messages: nat
    /** Every packet a handler was called with, oldest first. */
    var log: seq<Handled>

    ghost predicate Valid()
      reads this
    {
      && batch > 0 && |queues| > 0 && next < |queues|
      && (forall k :: 0 <= k < |queues| ==> queues[k].consumed <= |queues[k].sent|)
      && (running ==> terminal.Fine?)
    }

    constructor (count: nat, batch: nat)
      requires batch > 0 && count > 0
      ensures Valid() && queues == seq(count, _ => Queue([], 0)) && this.batch == batch && running && log == [] && messages == 0
    {
      this.batch := batch;
      queues, next, running, terminal, messages, log := seq(count, _ => Queue([], 0)), 0, true, Fine, 0, [];
    }

    /** Other hosts publish any packets to any queues. */
    method Produce()
      requires Valid()
      modifies this`queues
      ensures Valid() && |queues| == |old(queues)|
      ensures forall k :: 0 <= k < |queues| ==> Took(old(queues)[k], queues[k], [])
    {
      var more: seq<seq<Packet>> := *;
      var was := queues;
      queues := seq(|was|, k requires 0 <= k < |was| =>
        if k < |more| then was[k].(sent := was[k].sent + more[k]) else was[k]);
    }

    /** The oldest packet of a queue, nothing from an empty one, or an error that leaves the queue alone. */
    method TryPop(q: nat) returns (ok: bool, popped: bool, p: Packet)
      requires Valid() && q < |queues|
      modifies this`queues
      ensures Valid() && |queues| == |old(queues)|
      ensures forall k :: 0 <= k < |queues| && k != q ==> Took(old(queues)[k], queues[k], [])
      ensures Took(old(queues)[q], queues[q], if popped then [p] else [])
      ensures ok && !popped ==> queues[q].consumed == |queues[q].sent|
      ensures popped ==> ok
    {
      Produce();
      popped, p := false, 0;
      ok := *;
      if ok && queues[q].consumed < |queues[q].sent| {
        popped, p := true, queues[q].sent[queues[q].consumed];
        ghost var was := queues[q];
        queues := queues[q := queues[q].(consumed := queues[q].consumed + 1)];
        assert Took(was, queues[q], [p]);
      }
    }

    /** Pops from one queue until it is empty, the batch is full, or a pop or the handler fails. */
    method DrainQueue(q: nat, refused: set<Packet>) returns (drained: nat, ghost added: seq<Handled>)
      requires Valid() && running && q < |queues|
      modifies this`queues, this`running, this`terminal, this`messages, this`log
      ensures Valid() && |queues| == |old(queues)| && log == old(log) + added
      ensures forall k :: 0 <= k < |queues| ==> Took(old(queues)[k], queues[k], Of(added, k))
      ensures forall k :: k != q ==> Of(added, k) == []
      ensures |Of(added, q)| == |added| == drained + (if terminal.HandlerError? then 1 else 0) <= batch
      ensures messages == old(messages) + drained && running == terminal.Fine?
      ensures running ==> Batched(old(queues)[q], Of(added, q), batch)
      ensures forall i :: 0 <= i < |added| ==> (added[i].packet in refused <==> terminal.HandlerError? && i == |added| - 1)
    {
      hide Of, Took;
      drained, added := 0, [];
      NoneOf();
      TookNothing(queues);
      while drained < batch
        invariant Valid() && running && |queues| == |old(queues)| && log == old(log) + added && |added| == drained <= batch
        invariant forall k :: 0 <= k < |queues| ==> Took(old(queues)[k], queues[k], Of(added, k))
        invariant forall k :: k != q ==> Of(added, k) == []
        invariant |Of(added, q)| == drained && messages == old(messages) + drained
        invariant forall i :: 0 <= i < |added| ==> added[i].packet !in refused
        decreases batch - drained
      {
        ghost var held := queues;
        var ok, popped, p := TryPop(q);
        TookMore(old(queues), held, queues, added, q, if popped then [Handled(q, p)] else []);
        if !ok {
          running, terminal := false, PopError;
          return;
        }
        if !popped {
          Emptied(old(queues)[q], queues[q], Of(added, q), batch);
          return;
        }
        log := log + [Handled(q, p)];
        added := added + [Handled(q, p)];
        if p in refused {
          running, terminal := false, HandlerError;
          return;
        }
        drained := drained + 1;
        messages := messages + 1;
      }
    }

    /**
     One scan. Packets of each queue are handled in their order and none is skipped, whatever
     arrives meanwhile. Unless something fails or the poller is stopped, every queue gives all it
     had up to a batch and never more than a batch; the next scan starts one queue further,
     except after a failed handler.
     */
    method ScanOnce(refused: set<Packet>) returns (progressed: bool)
      requires Valid() && running
      modifies this
      ensures Valid() && |queues| == |old(queues)| && old(log) <= log
      ensures forall k :: 0 <= k < |queues| ==> Took(old(queues)[k], queues[k], Of(log[|old(log)|..], k))
      ensures forall k :: 0 <= k < |queues| ==> |Of(log[|old(log)|..], k)| <= batch
      ensures running ==> forall k :: 0 <= k < |queues| ==> Batched(old(queues)[k], Of(log[|old(log)|..], k), batch)
      ensures next == if terminal.HandlerError? then old(next) else At(old(next), 1, |queues|)
      ensures progressed <==> log != old(log)
      ensures forall i :: |old(log)| <= i < |log| ==> (log[i].packet in refused <==> terminal.HandlerError? && i == |log| - 1)
      ensures terminal.HandlerError? ==> progressed
    {
      hide At, Visited, ScanState, Of, Took, Batched;
      var n, start := |queues|, next;
      progressed := false;
      ghost var was := queues;
      ghost var all: seq<Handled> := [];
      StartState(start, n, was, batch);
      var offset := 0;
      while offset < n && running
        invariant offset <= n && Valid() && |queues| == n && next == start && log == old(log) + all
        invariant !terminal.HandlerError?
        invariant Conserved(was, queues, all, batch)
        invariant running ==> ScanState(start, offset, n, was, queues, all, batch)
        invariant progressed <==> all != []
        invariant forall i :: 0 <= i < |all| ==> all[i].packet !in refused
        decreases n - offset, running
      {
        AtBound(start, offset, n);
        ghost var held, earlier := queues, all;
        var drained;
        ghost var added;
        drained, added := DrainQueue(At(start, offset, n), refused);
        ScanStep(start, offset, n, was, held, queues, all, added, batch);
        all := all + added;
        LogSplit(old(log), earlier, added, all);
        progressed := progressed || drained > 0 || terminal.HandlerError?;
        if terminal.HandlerError? {
          LogSplit(old(log), all, [], all);
          return;
        }
        var stopped: bool := *;
        if stopped { running := false; }
        offset := offset + 1;
      }
      AtBound(start, 1, n);
      next := At(start, 1, n);
      if running { EndState(start, n, was, queues, all, batch); }
      LogSplit(old(log), all, [], all);
    }
  }

  lemma TookNothing(queues: seq<Queue>)
    requires forall k :: 0 <= k < |queues| ==> queues[k].consumed <= |queues[k].sent|
    ensures forall k :: 0 <= k < |queues| ==> Took(queues[k], queues[k], Of([], k))
  { }

  /** One more packet of queue `q`, or none, after those in `added`. */
  lemma TookMore(was: seq<Queue>, held: seq<Queue>, queues: seq<Queue>, added: seq<Handled>, q: nat, one: seq<Handled>)
    requires |was| == |held| == |queues| && q < |was| && |one| <= 1 && (one != [] ==> one[0].queue == q)
    requires forall k :: 0 <= k < |queues| ==> Took(was[k], held[k], Of(added, k))
    requires forall k :: 0 <= k < |queues| && k != q ==> Took(held[k], queues[k], [])
    requires Took(held[q], queues[q], if one == [] then [] else [one[0].packet])
    ensures forall k :: 0 <= k < |queues| ==> Took(was[k], queues[k], Of(added + one, k))
    ensures added + [] == added
    ensures forall k :: k != q ==> Of(added + one, k) == Of(added, k)
    ensures |Of(added + one, q)| == |Of(added, q)| + |one|
  {
    hide Of, Took;
    assert added + [] == added;
    forall k
      ensures Of(added + one, k) == Of(added, k) + (if k == q && one != [] then [one[0].packet] else [])
    {
      if one == [] { assert added + one == added; } else { assert one == [one[0]]; OfNext(added, one[0], k); }
    }
    forall k | 0 <= k < |queues| ensures Took(was[k], queues[k], Of(added + one, k)) {
      TookBoth(was[k], held[k], queues[k], Of(added, k), if k == q && one != [] then [one[0].packet] else []);
    }
  }

  /** A queue found empty has given everything it had before. */
  lemma Emptied(before: Queue, after: Queue, taken: seq<Packet>, batch: nat)
    requires Took(before, after, taken) && after.consumed == |after.sent| && |taken| <= batch
    ensures Batched(before, taken, batch)
  { }

  lemma LogSplit(old_: seq<Handled>, a: seq<Handled>, b: seq<Handled>, all: seq<Handled>)
    requires all == a + b
    ensures old_ + a + b == old_ + all && (old_ + all)[|old_|..] == all && old_ <= old_ + all
    ensures b != [] ==> (old_ + all)[|old_ + all| - 1] == b[|b| - 1]
  { }

  lemma StartState(start: nat, n: nat, was: seq<Queue>, batch: nat)
    requires 0 < n == |was| && forall k :: 0 <= k < n ==> was[k].consumed <= |was[k].sent|
    ensures ScanState(start, 0, n, was, was, [], batch) && Conserved(was, was, [], batch)
  {
    NoneVisited(start, n);
    TookNothing(was);
  }

  lemma EndState(start: nat, n: nat, was: seq<Queue>, queues: seq<Queue>, all: seq<Handled>, batch: nat)
    requires ScanState(start, n, n, was, queues, all, batch) && start < n
    ensures forall k :: 0 <= k < n ==> Batched(was[k], Of(all, k), batch)
  {
    forall k | 0 <= k < n ensures Batched(was[k], Of(all, k), batch) { AllVisited(start, n, k); }
  }

  /** Nothing lost, repeated or reordered in any queue, and at most a batch taken from each. */
  ghost predicate Conserved(was: seq<Queue>, queues: seq<Queue>, log: seq<Handled>, batch: nat) {
    |was| == |queues| && forall k :: 0 <= k < |was| ==> Took(was[k], queues[k], Of(log, k)) && |Of(log, k)| <= batch
  }

  /** After looking at `offset` queues: visited queues gave their batch, others nothing. */
  ghost predicate ScanState(start: nat, offset: nat, n: nat, was: seq<Queue>, queues: seq<Queue>, log: seq<Handled>, batch: nat) {
    && 0 < n == |was| == |queues|
    && (forall k :: 0 <= k < n ==> if Visited(start, offset, n, k) then Batched(was[k], Of(log, k), batch) else Of(log, k) == [])
  }

  lemma ScanStep(start: nat, offset: nat, n: nat, was: seq<Queue>, queues: seq<Queue>, queues': seq<Queue>,
                 log: seq<Handled>, added: seq<Handled>, batch: nat)
    requires Conserved(was, queues, log, batch) && ScanState(start, offset, n, was, queues, log, batch)
    requires start < n && offset < n && |queues'| == n && At(start, offset, n) < n
    requires forall k :: 0 <= k < n ==> Took(queues[k], queues'[k], Of(added, k))
    requires forall k :: k != At(start, offset, n) ==> Of(added, k) == []
    requires |Of(added, At(start, offset, n))| <= batch
    ensures Conserved(was, queues', log + added, batch)
    ensures var q := At(start, offset, n);
      Batched(queues[q], Of(added, q), batch) ==> ScanState(start, offset + 1, n, was, queues', log + added, batch)
  {
    hide At, Visited, Of, Took, Batched;
    var q := At(start, offset, n);
    NotVisited(start, offset, n);
    assert Of(log, q) == [];
    if Batched(queues[q], Of(added, q), batch) { Untouched(was[q], queues[q], Of(added, q), batch); }
    forall k | 0 <= k < n
      ensures Of(log + added, k) == if k == q then Of(added, k) else Of(log, k)
      ensures Took(was[k], queues'[k], Of(log + added, k))
      ensures Visited(start, offset + 1, n, k) <==> Visited(start, offset, n, k) || k == q
    {
      OfConcat(log, added, k);
      TookBoth(was[k], queues[k], queues'[k], Of(log, k), Of(added, k));
      VisitedNext(start, offset, n, k);
    }
  }

  /** Packets that arrive before a queue is visited only add to what it can give. */
  lemma Untouched(before: Queue, after: Queue, taken: seq<Packet>, batch: nat)
    requires Took(before, after, []) && Batched(after, taken, batch)
    ensures Batched(before, taken, batch)
  { }

  /** Queue `k` is among the first `offset` a scan from `start` looks at. */
  ghost predicate Visited(start: nat, offset: nat, n: nat, k: nat)
    requires n > 0
  {
    exists i :: 0 <= i < offset && At(start, i, n) == k
  }

  function At(start: nat, i: nat, n: nat): nat
    requires n > 0
  {
    (start + i) % n
  }

  /** One wrap at most. */
  lemma AtIs(start: nat, i: nat, n: nat)
    requires start < n && i < n
    ensures At(start, i, n) == if start + i < n then start + i else start + i - n
  {
    Wrap(start + i, n);
  }

  lemma Wrap(x: nat, n: nat)
    requires 0 < n && x < 2 * n
    ensures x % n == if x < n then x else x - n
  {
    var q, r := x / n, x % n;
    assert x == q * n + r;
    Times(q, n);
  }

  lemma Times(q: int, n: nat)
    ensures q >= 2 ==> q * n >= 2 * n
    ensures q <= 0 ==> q * n <= 0
    ensures q == 1 ==> q * n == n
  {
    if q >= 2 { assert (q - 2) * n >= 0; }
  }

  lemma AtBound(start: nat, i: nat, n: nat)
    requires n > 0
    ensures At(start, i, n) < n
  { }

  lemma NoneVisited(start: nat, n: nat)
    requires n > 0
    ensures forall k :: !Visited(start, 0, n, k)
  { }

  lemma VisitedNext(start: nat, offset: nat, n: nat, k: nat)
    requires n > 0
    ensures Visited(start, offset + 1, n, k) <==> Visited(start, offset, n, k) || k == At(start, offset, n)
  {
    hide At;
    if k == At(start, offset, n) { assert 0 <= offset < offset + 1; }
  }

  lemma AllVisited(start: nat, n: nat, k: nat)
    requires k < n && start < n
    ensures Visited(start, n, n, k)
  {
    var i := if start <= k then k - start else n + k - start;
    AtIs(start, i, n);
    hide At;
  }

  lemma NotVisited(start: nat, offset: nat, n: nat)
    requires start < n && offset < n
    ensures !Visited(start, offset, n, At(start, offset, n))
  {
    AtIs(start, offset, n);
    hide At;
    forall i | 0 <= i < offset ensures At(start, i, n) != At(start, offset, n) { AtIs(start, i, n); }
  }
}
