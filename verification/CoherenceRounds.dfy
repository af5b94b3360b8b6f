/**
 What writers and readers get when nobody disturbs them: a buffered write is published whole, a
 kept copy is returned again, and after a boundary a copy is used again exactly if its version
 is still the current one.
 */
module CoherenceRounds {
  import opened Coherence

  /** A continuation by writer steps. */
  ghost predicate Goes(s: Sys, run: seq<Sys>, actions: seq<Action>) {
    Run(run, actions) && |run| == |actions| + 1 && run[0] == s
  }

  lemma Begin(s: Sys)
    ensures Goes(s, [s], [])
  { }

  lemma GoOn(s: Sys, run: seq<Sys>, actions: seq<Action>, x: Action) returns (run': seq<Sys>, actions': seq<Action>)
    requires Goes(s, run, actions) && Enabled(run[|actions|], x)
    ensures Goes(s, run', actions') && actions' == actions + [x] && run'[|actions'|] == Next(run[|actions|], x)
  {
    hide Next, Enabled;
    run', actions' := Extend(run, actions, x);
  }

  // ------------------------------------------------------------------ writing

  /** The bytes with the first `done` bytes of the buffer laid over them. */
  predicate CopiedSoFar(before: seq<Byte>, after: seq<Byte>, at: nat, buffer: seq<Byte>, done: nat) {
    && |after| == |before| && done <= |buffer| && at + |buffer| <= |before|
    && forall x :: 0 <= x < |before| ==> after[x] == if at <= x < at + done then buffer[x - at] else before[x]
  }

  /** The writer has copied `done` bytes; only the shared bytes have changed. */
  predicate CopyingAt(s: Sys, t: Sys, at: nat, buffer: seq<Byte>, done: nat) {
    CopiedSoFar(s.bytes, t.bytes, at, buffer, done) && t == s.(bytes := t.bytes, epoch := s.epoch + 1, writer := Buffered(at, buffer, done))
  }

  lemma {:induction false} CopyBuffer(s: Sys, run: seq<Sys>, actions: seq<Action>, at: nat, buffer: seq<Byte>, done: nat)
    returns (run': seq<Sys>, actions': seq<Action>)
    requires Goes(s, run, actions) && CopyingAt(s, run[|actions|], at, buffer, done)
    ensures Goes(s, run', actions') && CopyingAt(s, run'[|actions'|], at, buffer, |buffer|)
    decreases |buffer| - done
  {
    hide Goes;
    assert |run| == |actions| + 1 by { Lengths(s, run, actions); }
    run', actions' := run, actions;
    if done < |buffer| {
      run', actions' := GoOn(s, run, actions, CopyByte);
      run', actions' := CopyBuffer(s, run', actions', at, buffer, done + 1);
    }
  }

  lemma Lengths(s: Sys, run: seq<Sys>, actions: seq<Action>)
    requires Goes(s, run, actions)
    ensures |run| == |actions| + 1
  { }

  /**
   A buffered writeback nobody disturbs writes exactly its range, raises the version by one,
   leaves an even epoch two higher, and publishes the new bytes under the new version.
   */
  lemma WriteRound(s: Sys, at: nat, buffer: seq<Byte>) returns (run: seq<Sys>, actions: seq<Action>)
    requires s.epoch % 2 == 0 && s.writer.NoWriter? && at + |buffer| <= |s.bytes|
    ensures Goes(s, run, actions)
    ensures var t := run[|actions|];
      && CopiedSoFar(s.bytes, t.bytes, at, buffer, |buffer|)
      && t == s.(bytes := t.bytes, version := s.version + 1, epoch := s.epoch + 2, history := s.history + [t.bytes])
  {
    Begin(s);
    run, actions := GoOn(s, [s], [], BeginBuffered(at, buffer));
    run, actions := CopyBuffer(s, run, actions, at, buffer, 0);
    hide Goes;
    run, actions := GoOn(s, run, actions, RaiseVersion);
    run, actions := GoOn(s, run, actions, CloseEpoch);
  }

  // ------------------------------------------------------------------ reading again

  /** A kept copy is returned as it is, without looking at shared memory. */
  lemma HitAgain(s: Sys, g: nat)
    requires g < |s.hosts| && s.hosts[g].reader.Resting? && s.hosts[g].current.Some?
    ensures Enabled(s, ReadHit(g))
    ensures var r := s.hosts[g].current.value;
      Next(s, ReadHit(g)) == s.(results := s.results + [Read(g, r.version, r.bytes, s.hosts[g].floor)])
  { }

  /** A boundary keeps the current copy for validation and forgets older ones; dropping forgets both. */
  lemma Boundaries(s: Sys, g: nat)
    requires g < |s.hosts| && s.hosts[g].reader.Resting?
    ensures Enabled(s, Boundary(g)) && Enabled(s, Invalidate(g))
    ensures Next(s, Boundary(g)) == s.(hosts := s.hosts[g := Host(Resting, None, s.hosts[g].current, s.version)])
    ensures Next(s, Invalidate(g)) == s.(hosts := s.hosts[g := Host(Resting, None, None, s.version)])
  { }

  /** An old copy of the current version is used again without copying: four loads and no byte. */
  lemma PromoteRound(s: Sys, g: nat) returns (run: seq<Sys>, actions: seq<Action>)
    requires g < |s.hosts| && s.epoch % 2 == 0
    requires var h := s.hosts[g]; h.reader.Resting? && h.current.None? && h.prior.Some? && h.prior.value.version == s.version
    ensures Goes(s, run, actions) && actions == [ReadEpoch(g), ReadVersion(g), TakeOld(g), RecheckEpoch(g), RecheckVersion(g)]
    ensures run[|actions|] == Accepted(s, g, s.hosts[g].prior.value)
  {
    Begin(s);
    run, actions := GoOn(s, [s], [], ReadEpoch(g));
    assert run[|actions|] == SetHost(s, g, s.hosts[g].(reader := SawEpoch(s.epoch)));
    run, actions := GoOn(s, run, actions, ReadVersion(g));
    assert run[|actions|] == SetHost(s, g, s.hosts[g].(reader := SawVersion(s.epoch, s.version)));
    run, actions := GoOn(s, run, actions, TakeOld(g));
    assert run[|actions|] == SetHost(s, g, s.hosts[g].(reader := Holding(s.epoch, s.version, s.hosts[g].prior.value.bytes)));
    run, actions := GoOn(s, run, actions, RecheckEpoch(g));
    assert run[|actions|] == SetHost(s, g, s.hosts[g].(reader := Checked(s.epoch, s.version, s.hosts[g].prior.value.bytes, s.epoch)));
    run, actions := GoOn(s, run, actions, RecheckVersion(g));
    assert run[|actions|].hosts == Accepted(s, g, s.hosts[g].prior.value).hosts;
  }

  /**
   After a boundary a host reads what is current: its own copy if nobody has written since, and a
   fresh copy otherwise; either way the result is the version then shared.
   */
  lemma ReadAfterBoundary(s: Sys, g: nat) returns (run: seq<Sys>, actions: seq<Action>)
    requires g < |s.hosts| && s.epoch % 2 == 0 && s.hosts[g].reader.Resting?
    ensures Goes(s, run, actions) && |actions| > 0 && actions[0] == Boundary(g)
    ensures var t, h := run[|actions|], s.hosts[g];
      |t.results| == |s.results| + 1 && t.results[|s.results|] ==
        Read(g, s.version, if h.current.Some? && h.current.value.version == s.version then h.current.value.bytes else s.bytes, s.version)
  {
    Boundaries(s, g);
    Begin(s);
    var first, begun := GoOn(s, [s], [], Boundary(g));
    var u := first[|begun|];
    if s.hosts[g].current.Some? && s.hosts[g].current.value.version == s.version {
      run, actions := PromoteRound(u, g);
    } else {
      Begin(u);
      run, actions := QuietRead([u], [], g);
    }
    hide Next, Enabled;
    var more := run;
    run, actions := first + run[1..], begun + actions;
    forall i | 0 <= i < |actions| ensures Enabled(run[i], actions[i]) && run[i + 1] == Next(run[i], actions[i]) {
      if i > 0 { assert run[i] == more[i - 1] && run[i + 1] == more[i]; }
    }
  }
}
