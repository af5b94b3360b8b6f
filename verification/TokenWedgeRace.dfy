/**
 A cancellation can also leave a block held by nobody. After the waiter was dropped as in
 `TokenCancelRace`, its host becomes the owner through another request and gives the block back;
 then the first request, still being forwarded, reaches that host itself. It marks the block
 held, finds no waiter and leaves it so. Every channel below is used in FIFO order.
 */
module TokenWedgeRace {
  import opened TokenSpec
  import opened TokenProtocol
  import opened TokenConservation
  import opened TokenHealth
  import opened TokenCancelRace

  const W3 := RequestId(1, 2)
  const R3 := Request(W3, 0, false)
  const Later := Lease(0, 3)
  const GrantThree := Grant(1, W3, 0, 3, false)
  const Writer := Host(Local(true, true, []), map[1 := Waiter(Granted(Given), false, false)])

  /** The states after the waiter was dropped, one per further action. */
  const Tail: seq<Sys> := [
    Sys(Second, Hosts(None, Host(Idle, map[2 := Waits]), Host(Idle, map[1 := Waits])), [1, 3, 2],
        [Req(0, R1), GrantTwo, Req(2, R3)], {}, true),
    Sys(Second, Hosts(None, Host(Idle, map[2 := Waits]), Writer), [1, 3, 2], [Req(0, R1), Req(2, R3)], {}, true),
    Sys(Second, Hosts(None, Host(Idle, map[2 := Waits]), Writer.(local := Local(true, true, [R3]))), [1, 3, 2],
        [Req(0, R1)], {}, true),
    Sys(Second, Hosts(None, Host(Idle, map[2 := Waits]), Host(Local(true, true, [R3]), map[])), [1, 3, 2],
        [Req(0, R1)], {Claim(W2, Given)}, true),
    Sys(Third, Hosts(None, Host(Idle, map[2 := Waits]), None), [1, 3, 2], [Req(0, R1), GrantThree], {}, true),
    Sys(Third, Hosts(None, Host(Local(true, true, []), map[2 := Waiter(Granted(Later), false, false)]), None), [1, 3, 2],
        [Req(0, R1)], {}, true),
    Sys(Third, Hosts(None, Host(Local(true, true, []), map[]), None), [1, 3, 2], [Req(0, R1)], {Claim(W3, Later)}, true),
    Sys(Third, Hosts(None, Resting, None), [1, 3, 2], [Req(0, R1)], {}, true),
    Sys(Third, Hosts(None, Resting, None), [1, 3, 2], [Req(1, R1)], {}, true),
    Sys(Third, Hosts(None, Host(Local(true, true, []), map[]), None), [1, 3, 2], [], {}, true)
  ]

  const TailSteps: seq<Action> := [
    DoRequest(1, false), DoDeliver(1), DoDeliver(1), DoClaim(2, 1), DoRelease(Claim(W2, Given), false),
    DoDeliver(1), DoClaim(1, 2), DoRelease(Claim(W3, Later), false), DoDeliver(0), DoDeliver(0)
  ]

  const Longer: seq<Sys> := States[..7] + Tail
  const LongerSteps: seq<Action> := Steps[..6] + TailSteps

  ghost predicate Follows(s: Sys, a: Action, t: Sys) {
    Enabled(s, a) && Next(s, a) == t && !Loses(s, a)
  }

  lemma AskAgain()
    ensures Follows(States[6], TailSteps[0], Tail[0])
  {
    hide GrantTo;
    assert Next(States[6], TailSteps[0]).hosts == Tail[0].hosts;
  }

  lemma SecondHolds()
    ensures Follows(Tail[0], TailSteps[1], Tail[1])
  {
    var s := Tail[0];
    assert s.net[..1] + s.net[2..] == [Req(0, R1), Req(2, R3)];
    assert Handle(2, s.block, s.hosts[2], s.net[1]) == Confer(2, s.block, s.hosts[2], 1);
    var w := Waiter(Granted(Given), false, false);
    assert map[1 := Waits][1 := w] == map[1 := w];
    assert Next(s, TailSteps[1]).hosts == Tail[1].hosts;
  }

  lemma SecondQueues()
    ensures Follows(Tail[1], TailSteps[2], Tail[2])
  {
    var s := Tail[1];
    assert [] + [R3] == [R3];
    assert s.net[..1] + s.net[2..] == [Req(0, R1)];
    assert Next(s, TailSteps[2]).hosts == Tail[2].hosts;
  }

  lemma SecondClaims()
    ensures Follows(Tail[2], TailSteps[3], Tail[3])
  {
    assert Next(Tail[2], TailSteps[3]).hosts == Tail[3].hosts;
  }

  lemma SecondReleases()
    ensures Follows(Tail[3], TailSteps[4], Tail[4])
  {
    var s := Tail[3];
    var host := Host(Local(true, true, []), map[]);
    assert [R3][1..] == [];
    assert Release(2, s.block, s.hosts[2], Given, false) == Handoff(2, s.block, s.hosts[2]);
    assert Handoff(2, s.block, s.hosts[2]) == GrantTo(2, s.block, host, R3);
    assert Forward([], 1) == [];
    assert GrantTo(2, s.block, host, R3) == Outcome(Third, None, [GrantThree], Ok);
    assert Next(s, TailSteps[4]).hosts == Tail[4].hosts;
  }

  lemma FirstHolds()
    ensures Follows(Tail[4], TailSteps[5], Tail[5])
  {
    var s := Tail[4];
    assert s.net[..1] + s.net[2..] == [Req(0, R1)];
    assert Handle(1, s.block, s.hosts[1], s.net[1]) == Confer(1, s.block, s.hosts[1], 2);
    var w := Waiter(Granted(Later), false, false);
    assert map[2 := Waits][2 := w] == map[2 := w];
    assert Next(s, TailSteps[5]).hosts == Tail[5].hosts;
  }

  lemma FirstReleases()
    ensures Follows(Tail[5], TailSteps[6], Tail[6]) && Follows(Tail[6], TailSteps[7], Tail[7])
  {
    hide GrantTo;
    assert Next(Tail[5], TailSteps[6]).hosts == Tail[6].hosts;
    var s := Tail[6];
    assert Release(1, s.block, s.hosts[1], Later, false) == Handoff(1, s.block, s.hosts[1]);
    assert Next(s, TailSteps[7]).hosts == Tail[7].hosts;
  }

  lemma RequestArrives()
    ensures Follows(Tail[7], TailSteps[8], Tail[8]) && Follows(Tail[8], TailSteps[9], Tail[9])
    ensures Wedges(Tail[8], TailSteps[9])
  {
    var s, t := Tail[7], Tail[8];
    assert s.net[..0] + s.net[1..] == [];
    assert Next(s, TailSteps[8]).hosts == Tail[8].hosts;
    assert t.net[..0] + t.net[1..] == [];
    var held := Host(Local(true, true, []), map[]);
    assert GrantTo(1, t.block, held, R1) == Unchanged(t.block, held, NotFound);
    assert Next(t, TailSteps[9]).hosts == Tail[9].hosts;
  }

  /** The token is there and no grant was lost, but the block is held with no lease, and nobody can release it. */
  lemma CancelCanWedgeBlock()
    ensures Run(Longer, LongerSteps) && Longer[0] == Init(3, 0)
    ensures forall i :: 0 <= i < |LongerSteps| ==> !Loses(Longer[i], LongerSteps[i])
    ensures var s := Longer[|Longer| - 1];
      && !s.block.retiring && s.net == [] && s.block.owner < |s.hosts| && Tokens(s) == 1
      && s.hosts[s.block.owner].local.held && (forall id :: !Ticket(s, id))
    ensures Wedged(Longer[|Longer| - 1])
  {
    CancelCanLoseToken();
    AskAgain();
    SecondHolds();
    SecondQueues();
    SecondClaims();
    SecondReleases();
    FirstHolds();
    FirstReleases();
    RequestArrives();
    EarlySteps();
    hide Next, Enabled, Loses;
    forall i | 0 <= i < |LongerSteps|
      ensures Enabled(Longer[i], LongerSteps[i]) && Longer[i + 1] == Next(Longer[i], LongerSteps[i]) && !Loses(Longer[i], LongerSteps[i])
    {
      assert Follows(Longer[i], LongerSteps[i], Longer[i + 1]);
    }
    NobodyWaits();
  }

  lemma NobodyWaits()
    ensures var s := Tail[9];
      Longer[|Longer| - 1] == s && Tokens(s) == 1 && (forall id :: !Ticket(s, id)) && Wedged(s)
  {
    var s := Tail[9];
    forall k | 0 <= k < |s.hosts| ensures s.hosts[k].waiters == map[] { }
    assert forall id :: !GrantedWaiter(s, id);
    assert forall id :: !Claimed(s, id);
  }

  lemma EarlySteps()
    ensures forall i :: 0 <= i < 6 ==> Follows(States[i], Steps[i], States[i + 1])
  {
    CancelCanLoseToken();
    hide Next, Enabled;
    forall i | 0 <= i < 6 ensures Follows(States[i], Steps[i], States[i + 1]) { }
  }
}
