/**
 A cancellation can lose the token. The cancel packet goes straight to the current owner while
 the request it cancels is still being forwarded there; the owner finds nothing queued, reports
 the cancellation as complete, and the requester drops its waiter. When the request arrives it
 is granted to a host that no longer waits. Every channel below is used in FIFO order.
 */
module TokenCancelRace {
  import opened TokenSpec
  import opened TokenProtocol

  const W1 := RequestId(1, 1)
  const W2 := RequestId(2, 1)
  const R1 := Request(W1, 0, false)
  const R2 := Request(W2, 0, false)
  const Waits := Waiter(Active, false, false)
  const Given := Lease(0, 2)

  function Hosts(a: Host, b: Host, c: Host): seq<Host> {
    [a, b, c]
  }

  const None := Host(Idle, map[])
  const First := Block(0, 1, 0, 0, false)
  const Second := Block(2, 2, 0, 0, false)
  const Third := Block(1, 3, 0, 0, false)
  const GrantTwo := Grant(2, W2, 0, 2, false)
  const GrantOne := Grant(1, W1, 0, 3, false)
  const Resting := Host(Local(true, false, []), map[])

  /** The states of the run, one per action. */
  const States: seq<Sys> := [
    Sys(First, Hosts(Resting, None, None), [1, 1, 1], [], {}, false),
    Sys(First, Hosts(Resting, Host(Idle, map[1 := Waits]), None), [1, 2, 1], [Req(0, R1)], {}, false),
    Sys(First, Hosts(Resting, Host(Idle, map[1 := Waits]), Host(Idle, map[1 := Waits])), [1, 2, 2],
        [Req(0, R1), Req(0, R2)], {}, false),
    Sys(Second, Hosts(None, Host(Idle, map[1 := Waits]), Host(Idle, map[1 := Waits])), [1, 2, 2],
        [Req(0, R1), GrantTwo], {}, false),
    Sys(Second, Hosts(None, Host(Idle, map[1 := Waiter(Cancelling, true, false)]), Host(Idle, map[1 := Waits])), [1, 2, 2],
        [Req(0, R1), GrantTwo, Cancel(2, W1)], {}, false),
    Sys(Second, Hosts(None, Host(Idle, map[1 := Waiter(Cancelling, true, false)]), Host(Idle, map[1 := Waits])), [1, 2, 2],
        [Req(0, R1), GrantTwo, CancelAck(1, W1, false)], {}, true),
    Sys(Second, Hosts(None, None, Host(Idle, map[1 := Waits])), [1, 2, 2], [Req(0, R1), GrantTwo], {}, true),
    Sys(Second, Hosts(None, None, Host(Idle, map[1 := Waits])), [1, 2, 2], [GrantTwo, Req(2, R1)], {}, true),
    Sys(Second, Hosts(None, None, Host(Local(true, true, []), map[1 := Waiter(Granted(Given), false, false)])), [1, 2, 2],
        [Req(2, R1)], {}, true),
    Sys(Second, Hosts(None, None, Host(Local(true, true, [R1]), map[1 := Waiter(Granted(Given), false, false)])), [1, 2, 2],
        [], {}, true),
    Sys(Second, Hosts(None, None, Host(Local(true, true, [R1]), map[])), [1, 2, 2], [], {Claim(W2, Given)}, true),
    Sys(Third, Hosts(None, None, None), [1, 2, 2], [GrantOne], {}, true),
    Sys(Third, Hosts(None, None, None), [1, 2, 2], [], {}, true)
  ]

  const Steps: seq<Action> := [
    DoRequest(1, false), DoRequest(2, false), DoDeliver(1), DoCancel(1, 1), DoDeliver(2), DoDeliver(2),
    DoDeliver(0), DoDeliver(0), DoDeliver(0), DoClaim(2, 1), DoRelease(Claim(W2, Given), false), DoDeliver(0)
  ]

  ghost predicate StepsTo(i: nat) {
    && i < |Steps| == |States| - 1
    && Enabled(States[i], Steps[i]) && Next(States[i], Steps[i]) == States[i + 1]
  }

  lemma Requests()
    ensures StepsTo(0) && StepsTo(1)
  {
    hide GrantTo;
    var s0, s1 := States[0], States[1];
    assert Next(s0, Steps[0]).hosts == s1.hosts;
    assert Next(s1, Steps[1]).hosts == States[2].hosts;
  }

  lemma FirstGrant()
    ensures StepsTo(2)
  {
    var s := States[2];
    assert s.net[..1] + s.net[2..] == [Req(0, R1)];
    var held := Resting.(local := Resting.local.(held := true));
    assert Handle(0, s.block, s.hosts[0], s.net[1]) == GrantTo(0, s.block, held, R2);
    assert Forward([], 2) == [];
    assert GrantTo(0, s.block, held, R2) == Outcome(Second, None, [GrantTwo], Ok);
    assert Next(s, Steps[2]).hosts == States[3].hosts;
  }

  lemma Overtaking()
    ensures StepsTo(3) && StepsTo(4)
  {
    var s := States[3];
    var w := Waiter(Cancelling, true, false);
    assert map[1 := Waits][1 := w] == map[1 := w];
    assert CancelRequest(1, s.block, s.hosts[1], 1).sent == [Cancel(2, W1)];
    assert Next(s, Steps[3]).hosts == States[4].hosts;
    var t := States[4];
    assert t.net[..2] + t.net[3..] == [Req(0, R1), GrantTwo];
    assert Travelling(t.net) == Travelling([Req(0, R1)]) + Travelling(t.net[1..]);
    assert W1 in Travelling(t.net);
    assert Waiting([]) == multiset{};
    assert HandleCancel(2, t.block, t.hosts[2], W1) == Outcome(t.block, t.hosts[2], [CancelAck(1, W1, false)], Ok);
    assert Overtakes(t, 2, W1);
    assert Next(t, Steps[4]).hosts == States[5].hosts;
  }

  lemma WaiterDropped()
    ensures StepsTo(5) && StepsTo(6)
  {
    var s := States[5];
    assert s.net[..2] + s.net[3..] == [Req(0, R1), GrantTwo];
    assert HandleCancelAck(s.hosts[1], 1, false).waiters == map[];
    assert Next(s, Steps[5]).hosts == States[6].hosts;
    var t := States[6];
    assert t.net[..0] + t.net[1..] == [GrantTwo];
    assert Handle(0, t.block, t.hosts[0], t.net[0]) == Outcome(t.block, t.hosts[0], [Req(2, R1)], Ok);
    assert Next(t, Steps[6]).hosts == States[7].hosts;
  }

  lemma SecondGrant()
    ensures StepsTo(7) && StepsTo(8) && StepsTo(9)
  {
    GrantArrives();
    RequestQueues();
    var u := States[9];
    assert Next(u, Steps[9]).hosts == States[10].hosts;
  }

  lemma GrantArrives()
    ensures StepsTo(7)
  {
    var s := States[7];
    assert s.net[..0] + s.net[1..] == [Req(2, R1)];
    assert Handle(2, s.block, s.hosts[2], s.net[0]) == Confer(2, s.block, s.hosts[2], 1);
    var w := Waiter(Granted(Given), false, false);
    assert map[1 := Waits][1 := w] == map[1 := w];
    assert Next(s, Steps[7]).hosts == States[8].hosts;
  }

  lemma RequestQueues()
    ensures StepsTo(8)
  {
    assert [] + [R1] == [R1];
    var t := States[8];
    assert t.net[..0] + t.net[1..] == [];
    assert Next(t, Steps[8]).hosts == States[9].hosts;
  }

  lemma TokenLost()
    ensures StepsTo(10) && StepsTo(11)
  {
    var s := States[10];
    var host := s.hosts[2].(local := s.hosts[2].local.(pending := []));
    assert [R1][1..] == [];
    assert Release(2, s.block, s.hosts[2], Given, false) == Handoff(2, s.block, s.hosts[2]);
    assert Handoff(2, s.block, s.hosts[2]) == GrantTo(2, s.block, host, R1);
    assert Forward([], 1) == [];
    assert GrantTo(2, s.block, host, R1) == Outcome(Third, None, [GrantOne], Ok);
    assert Next(s, Steps[10]).hosts == States[11].hosts;
    var t := States[11];
    assert t.net[..0] + t.net[1..] == [];
    assert Handle(1, t.block, t.hosts[1], t.net[0]) == Unchanged(t.block, t.hosts[1], NotFound);
    assert Next(t, Steps[11]).hosts == States[12].hosts;
  }

  /** The token is nowhere: the owner does not have it, no grant travels, no lease is out. */
  lemma CancelCanLoseToken()
    ensures Run(States, Steps) && States[0] == Init(3, 0)
    ensures var s := States[|States| - 1];
      && !s.block.retiring && s.overtaken
      && !s.hosts[s.block.owner].local.available && GrantCount(s.net) == 0
      && (forall id :: !Ticket(s, id))
  {
    Requests();
    FirstGrant();
    Overtaking();
    WaiterDropped();
    SecondGrant();
    TokenLost();
    hide Next, Enabled;
    assert Init(3, 0).hosts == States[0].hosts && Init(3, 0).next == [1, 1, 1];
    forall i | 0 <= i < |Steps| ensures Enabled(States[i], Steps[i]) && States[i + 1] == Next(States[i], Steps[i]) {
      assert StepsTo(i);
    }
  }
}
