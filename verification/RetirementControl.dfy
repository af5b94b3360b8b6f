/**
 The retirement control slot as it is kept in shared memory, changed in place under the extent
 lock. Each call is proved to be the step that `Retirement` reasons about.
 */
module RetirementControls {
  import opened Retirement

  datatype Status = Ok | Busy | NotFound | NotOwner | Exhausted | Invalid

  const MaxHosts: nat := 64
  const LastSequence: nat := 0xFFFF_FFFF_FFFF_FFFF

  class RetirementControl {
    const hosts: nat
    var current: Snapshot
    var coordinator: nat
    var closed: set<nat>
    var drained: set<nat>
    var cleaned: set<nat>
    var marks: seq<seq<nat>>
    var objects: map<nat, Object>

    function Slot(): Control
      reads this
    {
      Control(current, coordinator, closed, drained, cleaned, marks)
    }

    constructor (hosts: nat)
      ensures this.hosts == hosts && objects == map[] && current == Snapshot(Phase.Idle, 0, 0) && |marks| == hosts
    {
      this.hosts := hosts;
      current, coordinator, closed, drained, cleaned := Snapshot(Phase.Idle, 0, 0), 0, {}, {}, {};
      marks := seq(hosts, _ => []);
      objects := map[];
    }

    /** Starts a retirement on an idle slot; asking again for the running one is answered with its state. */
    method BeginRetire(obj: nat, host: nat) returns (status: Status, seen: Snapshot)
      modifies this
      ensures status ==
        if hosts == 0 || hosts > 64 then Invalid
        else if !old(current).phase.Idle? then (if old(current).obj == obj && old(coordinator) == host then Ok else Busy)
        else if obj !in old(objects) || !old(objects)[obj].state.Allocated? then NotFound
        else if old(objects)[obj].home != host then NotOwner
        else if old(current).sequence == 0xFFFF_FFFF_FFFF_FFFF then Exhausted
        else Ok
      ensures status == Ok ==> seen == current && current.obj == obj && coordinator == host
      ensures status == Ok && old(current).phase.Idle? ==>
        && current == Snapshot(Closing, obj, old(current).sequence + 1) && closed == {} && drained == {} && cleaned == {}
        && marks == old(marks) && Slot() == Begin(old(Slot()), obj, host)
        && objects == old(objects)[obj := old(objects)[obj].(state := Retiring)]
      ensures status != Ok || !old(current).phase.Idle? ==> Slot() == old(Slot()) && objects == old(objects)
    {
      seen := current;
      if hosts == 0 || hosts > MaxHosts { return Invalid, seen; }
      if !current.phase.Idle? {
        return (if current.obj == obj && coordinator == host then Ok else Busy), seen;
      }
      if obj !in objects || !objects[obj].state.Allocated? { return NotFound, seen; }
      if objects[obj].home != host { return NotOwner, seen; }
      if current.sequence == LastSequence { return Exhausted, seen; }
      current := Snapshot(Closing, obj, current.sequence + 1);
      coordinator := host;
      closed, drained, cleaned := {}, {}, {};
      objects := objects[obj := objects[obj].(state := Retiring)];
      return Ok, current;
    }

    /** Has this host nothing more to report for the snapshot? */
    method RetirementAcknowledged(seen: Snapshot, host: nat) returns (done: bool)
      ensures done <==> Acknowledged(Slot(), seen, host)
    {
      var mask := if seen.phase.Closing? then closed else if seen.phase.Draining? then drained else cleaned;
      return current.sequence != seen.sequence || current.phase != seen.phase || host in mask;
    }

    /** Did this host pop everything its peers had published for it when they closed? */
    method ReachedMarks(host: nat, cursors: seq<nat>) returns (reached: bool)
      requires |cursors| == |marks|
      ensures reached <==> CaughtUp(marks, cursors, host)
    {
      for p := 0 to |marks|
        invariant forall q :: 0 <= q < p && q != host && host < |marks[q]| ==> cursors[q] >= marks[q][host]
      {
        if p != host && host < |marks[p]| && cursors[p] < marks[p][host] { return false; }
      }
      return true;
    }

    /** One host's report; the phase moves on exactly when its mask is complete, and a stale report changes nothing. */
    method AcknowledgeRetirement(seen: Snapshot, host: nat, cursors: seq<nat>) returns (status: AckStatus)
      requires |marks| == hosts && |cursors| == hosts && seen.obj in objects
      requires seen.phase.Closing? && host < hosts ==> host < |objects[seen.obj].ops|
      modifies this
      ensures |marks| == hosts && objects.Keys == old(objects).Keys
      ensures var (control, o, st) := Acknowledge(old(Slot()), old(objects)[seen.obj], seen, host, cursors, hosts);
        Slot() == control && objects == old(objects)[seen.obj := o] && status == st
    {
      if current.sequence != seen.sequence || current.phase != seen.phase || host >= hosts { return Stale; }
      status := Acked;
      match seen.phase
      case Closing =>
        if objects[seen.obj].ops[host] != 0 { return NotYet; }
        objects := objects[seen.obj := objects[seen.obj].(sealed := objects[seen.obj].sealed + {host})];
        marks := marks[host := cursors];
        closed := closed + {host};
        if closed == Hosts(hosts) { current := current.(phase := Draining); }
      case Draining =>
        var reached := ReachedMarks(host, cursors);
        if !reached { return NotYet; }
        drained := drained + {host};
        if drained == Hosts(hosts) { current := current.(phase := Cleaning); }
      case Cleaning =>
        cleaned := cleaned + {host};
        if cleaned == Hosts(hosts) { current := current.(phase := Reclaimable); }
      case _ =>
    }
  }
}
