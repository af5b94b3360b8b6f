/**
 The barrier manager of one host: entries by barrier ID, created on first use and changed in
 place. Each call is proved to be the step `BarrierSpec` gives for its entry.
 */
module BarrierManagers {
  import opened BarrierSpec

  datatype Outgoing = Outgoing(id: nat, message: Message)

  /** The messages appended to an outbox, as a set. */
  function Added(before: seq<Outgoing>, after: seq<Outgoing>): set<Outgoing>
    requires |before| <= |after|
  {
    set x | x in after[|before|..]
  }

  function Tagged(id: nat, messages: set<Message>): set<Outgoing> {
    set m | m in messages :: Outgoing(id, m)
  }

  class BarrierManager {
    const self: nat
    const hosts: nat
    var barriers: map<nat, Entry>
    var outbox: seq<Outgoing>

    function At(id: nat): Entry
      reads this
    {
      if id in barriers then barriers[id] else Fresh
    }

    constructor (self: nat, hosts: nat)
      ensures this.self == self && this.hosts == hosts && barriers == map[] && outbox == []
    {
      this.self, this.hosts, barriers, outbox := self, hosts, map[], [];
    }

    /** The call did `o` to barrier `id` and nothing else. */
    twostate predicate Did(id: nat, o: Effect)
      reads this
    {
      && At(id) == o.entry
      && (forall j :: j != id ==> At(j) == old(At(j)))
      && old(outbox) <= outbox && Added(old(outbox), outbox) == Tagged(id, o.sent)
    }

    method BreakLocked(id: nat)
      modifies this
      ensures Did(id, Break(old(At(id)), self, hosts, Ok))
    {
      var e := At(id);
      if e.broken { return; }
      barriers := barriers[id := e.(broken := true)];
      ghost var before := outbox;
      ghost var all := Alarms(self, hosts, e.generation);
      for host := 0 to hosts
        invariant before <= outbox && At(id) == e.(broken := true) && (forall j :: j != id ==> At(j) == old(At(j)))
        invariant forall x :: x in Added(before, outbox) <==>
          x.id == id && x.message in all && x.message.target < host
      {
        if host != self {
          var m := Message(Release, self, host, e.generation, true);
          AddOne(before, outbox, Outgoing(id, m));
          assert m in all;
          outbox := outbox + [Outgoing(id, m)];
        }
      }
    }

    method AdvanceLocked(id: nat)
      modifies this`barriers
      ensures At(id) == Advance(old(At(id))) && forall j :: j != id ==> At(j) == old(At(j))
    {
      var e := At(id);
      barriers := barriers[id := e.(generation := e.generation + 1, arrivals := 0, hosts := {}, reported := false)];
    }

    method ArriveLocked(id: nat, source: nat)
      modifies this
      ensures Did(id, Count(old(At(id)), source, hosts, Ok))
    {
      var e := At(id);
      barriers := barriers[id := e.(hosts := e.hosts + {source})];
      if At(id).hosts != World(hosts) { return; }
      ghost var before := outbox;
      ghost var all := Releases(hosts, e.generation);
      for host := 1 to if hosts < 1 then 1 else hosts
        invariant before <= outbox && At(id) == e.(hosts := e.hosts + {source}) && (forall j :: j != id ==> At(j) == old(At(j)))
        invariant forall x :: x in Added(before, outbox) <==>
          x.id == id && x.message in all && x.message.target < host
      {
        var m := Message(Release, 0, host, e.generation, false);
        AddOne(before, outbox, Outgoing(id, m));
        assert m in all;
        outbox := outbox + [Outgoing(id, m)];
      }
      AdvanceLocked(id);
    }

    /** The wait call up to where it blocks; the generation to wait past is the entry's at the call. */
    method Wait(id: nat, participants: nat) returns (status: Status)
      modifies this
      ensures var o := BarrierSpec.Wait(old(At(id)), self, hosts, participants); Did(id, o) && status == o.status
    {
      if participants == 0 { return Invalid; }
      var e := At(id);
      if e.broken { return Failed; }
      if e.participants != 0 && e.participants != participants {
        BreakLocked(id);
        return Invalid;
      }
      e := e.(participants := participants);
      barriers := barriers[id := e];
      if e.reported {
        BreakLocked(id);
        return Failed;
      }
      e := e.(arrivals := e.arrivals + 1);
      if e.arrivals == participants { e := e.(reported := true); }
      barriers := barriers[id := e];
      if e.reported {
        if self == 0 {
          ArriveLocked(id, 0);
        } else {
          var m := Outgoing(id, Message(Arrive, self, 0, e.generation, false));
          AddOne(outbox, outbox, m);
          outbox := outbox + [m];
        }
      }
      return Parked;
    }

    method Handle(id: nat, m: Message) returns (status: Status)
      modifies this
      ensures var o := BarrierSpec.Handle(old(At(id)), self, hosts, m); Did(id, o) && status == o.status
    {
      if m.source >= hosts { return Invalid; }
      var e := At(id);
      if m.failed {
        if m.kind != Release { return Invalid; }
        barriers := barriers[id := e.(broken := true)];
        return Ok;
      }
      if e.broken || m.generation < e.generation { return Ok; }
      if m.generation != e.generation {
        BreakLocked(id);
        return Ok;
      }
      if m.kind == Arrive && self == 0 && m.source != 0 {
        ArriveLocked(id, m.source);
        return Ok;
      }
      if m.kind == Release && self != 0 && m.source == 0 && e.reported {
        AdvanceLocked(id);
        return Ok;
      }
      BreakLocked(id);
      return Ok;
    }

    /** No barrier has a round in progress. */
    method Idle() returns (idle: bool)
      ensures idle <==> forall id :: id in barriers && !barriers[id].broken ==> barriers[id].hosts == {} && barriers[id].arrivals == 0
    {
      var left := barriers.Keys;
      while left != {}
        invariant left <= barriers.Keys
        invariant forall id :: id in barriers && id !in left && !barriers[id].broken ==> barriers[id].hosts == {} && barriers[id].arrivals == 0
      {
        var id :| id in left;
        left := left - {id};
        if !barriers[id].broken && (barriers[id].hosts != {} || barriers[id].arrivals != 0) { return false; }
      }
      return true;
    }
  }

  lemma AddOne(before: seq<Outgoing>, now: seq<Outgoing>, x: Outgoing)
    requires before <= now
    ensures Added(before, now + [x]) == Added(before, now) + {x}
  {
    assert (now + [x])[|before|..] == now[|before|..] + [x];
  }
}
