/**
 Reads and writebacks of one coherence block under release consistency.

 Writers copy bytes one at a time between an odd and an even writeback epoch; readers on every
 host copy bytes one at a time between two epoch checks, keep what they accept in the host's
 current index, and may promote a copy of the old index when its version is still the shared
 one. Every shared load, store and byte copy is its own step.
 */
module Coherence {

  type Byte = b: int | 0 <= b < 256 witness 0

  datatype Option<+T> = None | Some(value: T)

  /** A cached block: the version it was accepted at, and its bytes. */
  datatype Replica = Replica(version: nat, bytes: seq<Byte>)

  /**
   A buffered writer copies `buffer` to `at`; a raw token holder stores anywhere. `Publishing`
   is a release that has raised the version and not yet closed the epoch.
   */
  datatype Writer =
    | NoWriter
    | Buffered(at: nat, buffer: seq<Byte>, done: nat)
    | Raw
    | Publishing

  datatype Reader =
    | Resting
    | SawEpoch(epoch: nat)
    | SawVersion(epoch: nat, version: nat)
    | Copying(epoch: nat, version: nat, bytes: seq<Byte>)
    | Holding(epoch: nat, version: nat, bytes: seq<Byte>)
    | Checked(epoch: nat, version: nat, bytes: seq<Byte>, after: nat)

  /** `floor` is the version committed when this host last crossed a boundary that must be visible. */
  datatype Host = Host(reader: Reader, current: Option<Replica>, prior: Option<Replica>, floor: nat)

  /** A finished block read. */
  datatype Read = Read(host: nat, version: nat, bytes: seq<Byte>, floor: nat)

  /**
   `history[v]` is what version `v` was published with; `results` what readers were given;
   `dirtied` the versions during which a raw holder changed bytes and gave its token back unmodified.
   */
  datatype Sys = Sys(
    bytes: seq<Byte>,
    version: nat,
    epoch: nat,
    writer: Writer,
    hosts: seq<Host>,
    history: seq<seq<Byte>>,
    results: seq<Read>,
    dirtied: set<nat>)

  datatype Action =
    | BeginBuffered(at: nat, buffer: seq<Byte>)
    | BeginRaw
    | CopyByte
    | StoreByte(index: nat, value: Byte)
    | RaiseVersion
    | CloseEpoch
    | AbortRaw
    | ReadHit(host: nat)
    | ReadEpoch(host: nat)
    | ReadVersion(host: nat)
    | TakeOld(host: nat)
    | StartCopy(host: nat)
    | ReadByte(host: nat)
    | EndCopy(host: nat)
    | RecheckEpoch(host: nat)
    | RecheckVersion(host: nat)
    | EvictCurrent(host: nat)
    | EvictOld(host: nat)
    | Invalidate(host: nat)
    | Boundary(host: nat)

  predicate IsWriter(x: Action) {
    x.BeginBuffered? || x.BeginRaw? || x.CopyByte? || x.StoreByte? || x.RaiseVersion? || x.CloseEpoch? || x.AbortRaw?
  }

  predicate OldMatches(h: Host, version: nat) {
    h.prior.Some? && h.prior.value.version == version
  }

  predicate Enabled(s: Sys, x: Action) {
    if IsWriter(x) then
      match x
      case BeginBuffered(at, buffer) => s.epoch % 2 == 0 && at + |buffer| <= |s.bytes|
      case BeginRaw => s.epoch % 2 == 0
      case CopyByte => s.writer.Buffered? && s.writer.done < |s.writer.buffer| && s.writer.at + s.writer.done < |s.bytes|
      case StoreByte(i, _) => s.writer.Raw? && i < |s.bytes|
      case RaiseVersion => s.writer.Raw? || (s.writer.Buffered? && s.writer.done == |s.writer.buffer|)
      case CloseEpoch => s.writer.Publishing?
      case _ => s.writer.Raw?
    else
      && x.host < |s.hosts|
      && var h := s.hosts[x.host];
      match x
      case ReadHit(_) => h.reader.Resting? && h.current.Some?
      case ReadEpoch(_) => h.reader.Resting? && h.current.None?
      case ReadVersion(_) => h.reader.SawEpoch?
      case TakeOld(_) => h.reader.SawVersion? && OldMatches(h, h.reader.version)
      case StartCopy(_) => h.reader.SawVersion? && !OldMatches(h, h.reader.version)
      case ReadByte(_) => h.reader.Copying? && |h.reader.bytes| < |s.bytes|
      case EndCopy(_) => h.reader.Copying? && |h.reader.bytes| == |s.bytes|
      case RecheckEpoch(_) => h.reader.Holding?
      case RecheckVersion(_) => h.reader.Checked?
      case EvictCurrent(_) => true
      case EvictOld(_) => true
      case Invalidate(_) => h.reader.Resting?
      case Boundary(_) => h.reader.Resting?
      case _ => false
  }

  function SetHost(s: Sys, g: nat, h: Host): Sys
    requires g < |s.hosts|
  {
    s.(hosts := s.hosts[g := h])
  }

  /** The final check of a read: accept and install the copy, or start over. */
  function Accept(s: Sys, g: nat): Sys
    requires g < |s.hosts| && s.hosts[g].reader.Checked?
  {
    var h := s.hosts[g];
    var r := h.reader;
    if r.epoch == r.after && r.after % 2 == 0 && s.version == r.version then
      SetHost(s, g, h.(reader := Resting, current := Some(Replica(r.version, r.bytes)), prior := None))
        .(results := s.results + [Read(g, r.version, r.bytes, h.floor)])
    else SetHost(s, g, h.(reader := Resting))
  }

  /** The shared bytes are those of the current version. */
  predicate Exact(s: Sys) {
    s.version < |s.history| && s.bytes == s.history[s.version]
  }

  function NextWriter(s: Sys, x: Action): Sys
    requires Enabled(s, x) && IsWriter(x)
  {
    match x
    case BeginBuffered(at, buffer) => s.(epoch := s.epoch + 1, writer := Buffered(at, buffer, 0))
    case BeginRaw => s.(epoch := s.epoch + 1, writer := Raw)
    case CopyByte =>
      var w := s.writer;
      s.(bytes := s.bytes[w.at + w.done := w.buffer[w.done]], writer := w.(done := w.done + 1))
    case StoreByte(i, v) => s.(bytes := s.bytes[i := v])
    case RaiseVersion => s.(version := s.version + 1, history := s.history + [s.bytes], writer := Publishing)
    case CloseEpoch => s.(epoch := s.epoch + 1, writer := NoWriter)
    case _ => s.(epoch := s.epoch + 1, writer := NoWriter,
                 dirtied := if Exact(s) then s.dirtied else s.dirtied + {s.version})
  }

  function NextReader(s: Sys, x: Action): Sys
    requires Enabled(s, x) && !IsWriter(x)
  {
    var g := x.host;
    var h := s.hosts[g];
    var r := h.reader;
    match x
    case ReadHit(_) => s.(results := s.results + [Read(g, h.current.value.version, h.current.value.bytes, h.floor)])
    case ReadEpoch(_) => if s.epoch % 2 == 1 then s else SetHost(s, g, h.(reader := SawEpoch(s.epoch)))
    case ReadVersion(_) => SetHost(s, g, h.(reader := SawVersion(r.epoch, s.version)))
    case TakeOld(_) => SetHost(s, g, h.(reader := Holding(r.epoch, r.version, h.prior.value.bytes)))
    case StartCopy(_) => SetHost(s, g, h.(reader := Copying(r.epoch, r.version, [])))
    case ReadByte(_) => SetHost(s, g, h.(reader := Copying(r.epoch, r.version, r.bytes + [s.bytes[|r.bytes|]])))
    case EndCopy(_) => SetHost(s, g, h.(reader := Holding(r.epoch, r.version, r.bytes)))
    case RecheckEpoch(_) => SetHost(s, g, h.(reader := Checked(r.epoch, r.version, r.bytes, s.epoch)))
    case RecheckVersion(_) => Accept(s, g)
    case EvictCurrent(_) => SetHost(s, g, h.(current := None))
    case EvictOld(_) => SetHost(s, g, h.(prior := None))
    case Invalidate(_) => SetHost(s, g, h.(current := None, prior := None, floor := s.version))
    case _ => SetHost(s, g, h.(current := None, prior := h.current, floor := s.version))
  }

  function Next(s: Sys, x: Action): Sys
    requires Enabled(s, x)
  {
    if IsWriter(x) then NextWriter(s, x) else NextReader(s, x)
  }

  /** A freshly allocated block: version 0 names the bytes it starts with. */
  function Init(bytes: seq<Byte>, n: nat): Sys {
    Sys(bytes, 0, 0, NoWriter, seq(n, _ => Host(Resting, None, None, 0)), [bytes], [], {})
  }

  // ------------------------------------------------------------------ invariant

  predicate IsContent(s: Sys, version: nat, bytes: seq<Byte>) {
    version < |s.history| && bytes == s.history[version]
  }

  /** `base` with `patch` laid over it from `at`. */
  function Overlay(base: seq<Byte>, at: nat, patch: seq<Byte>): (r: seq<Byte>)
    requires at + |patch| <= |base|
    ensures |r| == |base|
  {
    base[..at] + patch + base[at + |patch|..]
  }

  /** The shared bytes are a published version, under the part a writer has copied over it. */
  predicate WriterOk(s: Sys) {
    && |s.history| == s.version + 1
    && (forall v :: 0 <= v < |s.history| ==> |s.history[v]| == |s.bytes|)
    && (s.epoch % 2 == 0 <==> s.writer.NoWriter?)
    && (s.writer.Buffered? ==> s.writer.at + |s.writer.buffer| <= |s.bytes| && s.writer.done <= |s.writer.buffer|)
    && (forall v :: v in s.dirtied ==> v <= s.version)
    && (s.version !in s.dirtied && (s.writer.NoWriter? || s.writer.Publishing?) ==> s.bytes == s.history[s.version])
    && (s.version !in s.dirtied && s.writer.Buffered? ==>
          s.bytes == Overlay(s.history[s.version], s.writer.at, s.writer.buffer[..s.writer.done]))
  }

  predicate ReplicaOk(s: Sys, r: Replica) {
    r.version <= s.version && (r.version !in s.dirtied ==> IsContent(s, r.version, r.bytes))
  }

  /** What a reader knows, as long as the epoch it started from has not moved. */
  predicate ReaderOk(s: Sys, h: Host) {
    match h.reader
    case Resting => true
    case SawEpoch(e) => e % 2 == 0 && e <= s.epoch
    case SawVersion(e, v) =>
      e % 2 == 0 && e <= s.epoch && h.floor <= v <= s.version && (e == s.epoch ==> v == s.version)
    case Copying(e, v, b) =>
      && e % 2 == 0 && e <= s.epoch && h.floor <= v <= s.version && |b| <= |s.bytes|
      && (e == s.epoch ==> v == s.version && b == s.bytes[..|b|])
    case Holding(e, v, b) =>
      && e % 2 == 0 && e <= s.epoch && h.floor <= v <= s.version
      && (e == s.epoch && v !in s.dirtied ==> v == s.version && b == s.bytes)
    case Checked(e, v, b, after) =>
      && e % 2 == 0 && h.floor <= v <= s.version
      && (e == after && v !in s.dirtied ==> IsContent(s, v, b))
  }

  predicate HostOk(s: Sys, h: Host) {
    && h.floor <= s.version
    && (h.current.Some? ==> ReplicaOk(s, h.current.value) && h.floor <= h.current.value.version)
    && (h.prior.Some? ==> ReplicaOk(s, h.prior.value))
    && ReaderOk(s, h)
  }

  /** Nothing this host could still return is older than `version`. */
  predicate NotBehind(h: Host, version: nat) {
    && (h.current.Some? ==> version <= h.current.value.version)
    && match h.reader
       case Resting => true
       case SawEpoch(_) => true
       case _ => version <= h.reader.version
  }

  predicate ReadOk(s: Sys, r: Read) {
    && r.host < |s.hosts| && r.floor <= r.version <= s.version && r.floor <= s.hosts[r.host].floor
    && (r.version !in s.dirtied ==> IsContent(s, r.version, r.bytes))
    && NotBehind(s.hosts[r.host], r.version)
  }

  predicate Monotone(results: seq<Read>) {
    forall i, j :: 0 <= i < j < |results| && results[i].host == results[j].host ==> results[i].version <= results[j].version
  }

  predicate Inv(s: Sys) {
    && WriterOk(s)
    && (forall g :: 0 <= g < |s.hosts| ==> HostOk(s, s.hosts[g]))
    && (forall r :: r in s.results ==> ReadOk(s, r))
    && Monotone(s.results)
  }

  lemma OverlayGrows(base: seq<Byte>, at: nat, buffer: seq<Byte>, done: nat)
    requires done < |buffer| && at + |buffer| <= |base|
    ensures Overlay(base, at, buffer[..done])[at + done := buffer[done]] == Overlay(base, at, buffer[..done + 1])
  {
    assert buffer[..done + 1] == buffer[..done] + [buffer[done]];
  }

  lemma WriterStepOk(s: Sys, x: Action)
    requires Inv(s) && Enabled(s, x) && IsWriter(x)
    ensures WriterOk(NextWriter(s, x))
  {
    hide HostOk, ReadOk, Monotone;
    if x.BeginBuffered? {
      assert x.buffer[..0] == [];
    }
    if x.CopyByte? && s.version !in s.dirtied {
      var w := s.writer;
      OverlayGrows(s.history[s.version], w.at, w.buffer, w.done);
    }
  }

  lemma WriterKeeps(s: Sys, x: Action)
    requires Inv(s) && Enabled(s, x) && IsWriter(x)
    ensures Inv(NextWriter(s, x))
  {
    hide Monotone, Overlay;
    var s' := NextWriter(s, x);
    WriterStepOk(s, x);
    forall g | 0 <= g < |s'.hosts| ensures HostOk(s', s'.hosts[g]) { assert HostOk(s, s.hosts[g]); }
    forall r | r in s'.results ensures ReadOk(s', r) { assert ReadOk(s, r); }
  }

  /** Appending a read no older than the host's earlier ones keeps the order. */
  lemma MonotoneAppend(results: seq<Read>, r: Read)
    requires Monotone(results)
    requires forall q :: q in results && q.host == r.host ==> q.version <= r.version
    ensures Monotone(results + [r])
  {
    var all := results + [r];
    forall i, j | 0 <= i < j < |all| && all[i].host == all[j].host ensures all[i].version <= all[j].version {
      assert all[i] in results;
    }
  }

  predicate Finishes(x: Action) { x.ReadHit? || x.RecheckVersion? }

  /** Replacing one host's state keeps the invariant when the new state is sound and not behind its reads. */
  lemma SetHostKeeps(s: Sys, g: nat, h: Host)
    requires Inv(s) && g < |s.hosts| && HostOk(s, h) && s.hosts[g].floor <= h.floor
    requires forall v: nat :: v <= s.version && NotBehind(s.hosts[g], v) ==> NotBehind(h, v)
    ensures Inv(SetHost(s, g, h))
  {
    hide Monotone, NotBehind, ReaderOk, ReplicaOk;
    var s' := SetHost(s, g, h);
    forall k | 0 <= k < |s'.hosts| ensures HostOk(s', s'.hosts[k]) {
      assert HostOk(s, s'.hosts[k]);
      HostOkFrame(s, s', s'.hosts[k]);
    }
    forall r | r in s'.results ensures ReadOk(s', r) {
      assert ReadOk(s, r);
      assert NotBehind(s'.hosts[r.host], r.version);
    }
  }

  lemma HostOkFrame(s: Sys, s': Sys, h: Host)
    requires HostOk(s, h)
    requires s'.version == s.version && s'.epoch == s.epoch && s'.bytes == s.bytes && s'.history == s.history && s'.dirtied == s.dirtied
    ensures HostOk(s', h)
  { }

  /** The host state a non-finishing reader step leaves. */
  function StepHost(s: Sys, x: Action): Host
    requires Enabled(s, x) && !IsWriter(x) && !Finishes(x)
  {
    NextReader(s, x).hosts[x.host]
  }

  lemma ReaderKeeps(s: Sys, x: Action)
    requires Inv(s) && Enabled(s, x) && !IsWriter(x) && !Finishes(x)
    ensures Inv(NextReader(s, x))
  {
    hide Monotone, ReadOk;
    var g := x.host;
    var s' := NextReader(s, x);
    var h := StepHost(s, x);
    assert HostOk(s, s.hosts[g]);
    assert s' == SetHost(s, g, h);
    SetHostKeeps(s, g, h);
  }

  /** A read that ends successfully is recorded; it is sound because the host state is. */
  lemma RecordKeeps(s: Sys, r: Read)
    requires Inv(s) && r.host < |s.hosts|
    requires s.hosts[r.host].current == Some(Replica(r.version, r.bytes)) && r.floor == s.hosts[r.host].floor
    requires s.hosts[r.host].reader.Resting?
    ensures Inv(s.(results := s.results + [r]))
  {
    hide Monotone, ReaderOk;
    var s' := s.(results := s.results + [r]);
    assert HostOk(s, s.hosts[r.host]);
    forall k | 0 <= k < |s'.hosts| ensures HostOk(s', s'.hosts[k]) {
      assert HostOk(s, s.hosts[k]);
      HostOkFrame(s, s', s.hosts[k]);
    }
    forall q | q in s'.results ensures ReadOk(s', q) { if q in s.results { assert ReadOk(s, q); } }
    forall q | q in s.results && q.host == r.host ensures q.version <= r.version { assert ReadOk(s, q); }
    MonotoneAppend(s.results, r);
  }

  lemma FinishKeeps(s: Sys, x: Action)
    requires Inv(s) && Enabled(s, x) && Finishes(x)
    ensures Inv(NextReader(s, x))
  {
    hide Monotone, ReadOk;
    var g := x.host;
    var h := s.hosts[g];
    assert HostOk(s, h);
    if x.ReadHit? {
      RecordKeeps(s, Read(g, h.current.value.version, h.current.value.bytes, h.floor));
    } else {
      var r := h.reader;
      if r.epoch == r.after && r.after % 2 == 0 && s.version == r.version {
        var h' := h.(reader := Resting, current := Some(Replica(r.version, r.bytes)), prior := None);
        SetHostKeeps(s, g, h');
        var t := SetHost(s, g, h');
        RecordKeeps(t, Read(g, r.version, r.bytes, h.floor));
        assert NextReader(s, x) == t.(results := t.results + [Read(g, r.version, r.bytes, h.floor)]);
      } else {
        SetHostKeeps(s, g, h.(reader := Resting));
      }
    }
  }

  lemma StepKeeps(s: Sys, x: Action)
    requires Inv(s) && Enabled(s, x)
    ensures Inv(Next(s, x))
  {
    hide Inv, Enabled;
    if IsWriter(x) {
      WriterKeeps(s, x);
    } else if Finishes(x) {
      FinishKeeps(s, x);
    } else {
      ReaderKeeps(s, x);
    }
  }

  // ------------------------------------------------------------------ runs

  ghost predicate Run(run: seq<Sys>, actions: seq<Action>) {
    && |run| == |actions| + 1
    && (forall i :: 0 <= i < |actions| ==> Enabled(run[i], actions[i]) && run[i + 1] == Next(run[i], actions[i]))
  }

  lemma {:induction false} RunKeeps(run: seq<Sys>, actions: seq<Action>, i: nat)
    requires Run(run, actions) && Inv(run[0]) && i < |run|
    ensures Inv(run[i])
  {
    hide Inv, Next, Enabled;
    if 0 < i {
      RunKeeps(run, actions, i - 1);
      StepKeeps(run[i - 1], actions[i - 1]);
    }
  }

  lemma InitInv(bytes: seq<Byte>, n: nat)
    ensures Inv(Init(bytes, n))
  { }

  /** One step: shared counters and published contents only grow, and only a modified release raises the version. */
  lemma StepGrows(s: Sys, x: Action, s': Sys)
    requires Inv(s) && Enabled(s, x) && s' == Next(s, x)
    ensures |s'.hosts| == |s.hosts| && s.epoch <= s'.epoch && s.dirtied <= s'.dirtied
    ensures s'.version == s.version + (if x.RaiseVersion? then 1 else 0)
    ensures s'.history == s.history + (if x.RaiseVersion? then [s.bytes] else [])
    ensures s.results <= s'.results && |s'.results| <= |s.results| + 1
    ensures forall g :: 0 <= g < |s.hosts| ==> s.hosts[g].floor <= s'.hosts[g].floor
    ensures |s'.results| > |s.results| ==>
      && s'.results[|s.results|].host < |s.hosts|
      && s'.results[|s.results|].floor == s.hosts[s'.results[|s.results|].host].floor
  {
    hide ReadOk, Monotone, ReaderOk, ReplicaOk, WriterOk;
    forall g | 0 <= g < |s.hosts| ensures s.hosts[g].floor <= s'.hosts[g].floor {
      assert HostOk(s, s.hosts[g]);
    }
  }

  lemma {:induction false} RunGrows(run: seq<Sys>, actions: seq<Action>, i: nat, j: nat)
    requires Run(run, actions) && Inv(run[0]) && i <= j < |run|
    ensures |run[j].hosts| == |run[i].hosts| && run[i].version <= run[j].version && run[i].epoch <= run[j].epoch
    ensures run[i].history <= run[j].history && run[i].results <= run[j].results && run[i].dirtied <= run[j].dirtied
    ensures forall g :: 0 <= g < |run[i].hosts| ==> run[i].hosts[g].floor <= run[j].hosts[g].floor
    decreases j
  {
    hide Inv, Next, Enabled;
    if i < j {
      RunGrows(run, actions, i, j - 1);
      RunKeeps(run, actions, j - 1);
      StepGrows(run[j - 1], actions[j - 1], run[j]);
    }
  }

  /** The token of version `v` is given back unmodified although the bytes changed. */
  predicate DirtyAbort(s: Sys, x: Action, v: nat) {
    x.AbortRaw? && s.version == v && !Exact(s)
  }

  lemma StepDirties(s: Sys, x: Action, s': Sys, v: nat)
    requires Enabled(s, x) && s' == Next(s, x)
    ensures v in s'.dirtied <==> v in s.dirtied || DirtyAbort(s, x, v)
  { }

  /** A version is marked exactly when some step before was a dirty abort of it. */
  lemma {:induction false} DirtiedExactly(run: seq<Sys>, actions: seq<Action>, j: nat, v: nat)
    requires Run(run, actions) && j < |run|
    ensures v in run[j].dirtied <==> v in run[0].dirtied || exists i :: 0 <= i < j && DirtyAbort(run[i], actions[i], v)
  {
    hide Next, Enabled, DirtyAbort;
    if j > 0 {
      DirtiedExactly(run, actions, j - 1, v);
      StepDirties(run[j - 1], actions[j - 1], run[j], v);
    }
  }

  /** Which release published version `v`: the shared bytes stood exactly so when it did. */
  lemma {:induction false} PublishedBy(run: seq<Sys>, actions: seq<Action>, j: nat, v: nat) returns (i: nat)
    requires Run(run, actions) && Inv(run[0]) && j < |run| && run[0].version < v <= run[j].version
    ensures i < j && actions[i].RaiseVersion? && run[i].version + 1 == v
    ensures v < |run[j].history| && run[j].history[v] == run[i].bytes
  {
    hide Inv, Next, Enabled, WriterOk;
    assert 0 < j;
    RunKeeps(run, actions, j - 1);
    StepGrows(run[j - 1], actions[j - 1], run[j]);
    assert |run[j - 1].history| == run[j - 1].version + 1 by { LengthOf(run[j - 1]); }
    if v <= run[j - 1].version {
      i := PublishedBy(run, actions, j - 1, v);
    } else {
      i := j - 1;
    }
  }

  lemma LengthOf(s: Sys)
    requires Inv(s)
    ensures |s.history| == s.version + 1
  { }

  /**
   Every read ever returned carries exactly the bytes that stood in shared memory when the
   version it reports was published (or the initial bytes), for every interleaving of byte
   copies. The versions during which a raw holder stored and then aborted are the exception, and
   `AbortHarmlessExactly` shows that each of them is a real one.
   */
  lemma NoTornReads(run: seq<Sys>, actions: seq<Action>, bytes: seq<Byte>, n: nat, j: nat, r: Read)
    requires Run(run, actions) && run[0] == Init(bytes, n) && j < |run| && r in run[j].results
    requires forall i :: 0 <= i < j ==> !DirtyAbort(run[i], actions[i], r.version)
    ensures r.version <= run[j].version
    ensures if r.version == 0 then r.bytes == bytes
            else exists i :: 0 <= i < j && actions[i].RaiseVersion? && run[i].version + 1 == r.version && r.bytes == run[i].bytes
  {
    hide Next, Enabled;
    InitInv(bytes, n);
    RunKeeps(run, actions, j);
    DirtiedExactly(run, actions, j, r.version);
    assert ReadOk(run[j], r);
    RunGrows(run, actions, 0, j);
    if r.version > 0 {
      var i := PublishedBy(run, actions, j, r.version);
    }
  }

  /** A buffered release publishes the previous version with exactly its own range overwritten. */
  lemma BufferedPublishes(run: seq<Sys>, actions: seq<Action>, bytes: seq<Byte>, n: nat, j: nat)
    requires Run(run, actions) && run[0] == Init(bytes, n) && j < |actions| && run[j].version !in run[j].dirtied
    requires run[j].writer.Buffered? && actions[j].RaiseVersion?
    ensures var w := run[j].writer;
      && run[j].version + 1 == run[j + 1].version < |run[j + 1].history|
      && w.at + |w.buffer| <= |run[j].history[run[j].version]|
      && run[j + 1].history[run[j + 1].version] == Overlay(run[j].history[run[j].version], w.at, w.buffer)
    ensures var w, before, after := run[j].writer, run[j].history[run[j].version], run[j + 1].history[run[j + 1].version];
      |after| == |before| && forall x :: 0 <= x < |after| ==> after[x] == if w.at <= x < w.at + |w.buffer| then w.buffer[x - w.at] else before[x]
  {
    InitInv(bytes, n);
    RunKeeps(run, actions, j);
    var w := run[j].writer;
    assert Enabled(run[j], actions[j]);
    assert w.buffer[..w.done] == w.buffer;
  }

  /** Versions returned to one host never decrease. */
  lemma MonotoneReads(run: seq<Sys>, actions: seq<Action>, bytes: seq<Byte>, n: nat, k: nat, i: nat, j: nat)
    requires Run(run, actions) && run[0] == Init(bytes, n) && k < |run| && i < j < |run[k].results|
    requires run[k].results[i].host == run[k].results[j].host
    ensures run[k].results[i].version <= run[k].results[j].version
  {
    hide Next, Enabled;
    InitInv(bytes, n);
    RunKeeps(run, actions, k);
  }

  /** Every read recorded from step `i` on by a host saw at least the floor that host had at `i`. */
  lemma {:induction false} FloorBounds(run: seq<Sys>, actions: seq<Action>, i: nat, j: nat, k: nat)
    requires Run(run, actions) && Inv(run[0]) && i <= j < |run|
    requires |run[i].results| <= k < |run[j].results|
    ensures run[j].results[k].host < |run[i].hosts|
    ensures run[i].hosts[run[j].results[k].host].floor <= run[j].results[k].version
    decreases j
  {
    hide Inv, Next, Enabled;
    RunGrows(run, actions, i, j - 1);
    RunKeeps(run, actions, j - 1);
    RunKeeps(run, actions, j);
    StepGrows(run[j - 1], actions[j - 1], run[j]);
    if k < |run[j - 1].results| {
      FloorBounds(run, actions, i, j - 1, k);
    } else {
      ReadAboveFloor(run[j], run[j].results[k]);
    }
  }

  lemma ReadAboveFloor(s: Sys, r: Read)
    requires Inv(s) && r in s.results
    ensures r.floor <= r.version
  {
    assert ReadOk(s, r);
  }

  /**
   After a host crosses an acquire boundary (or drops its copies after its own writeback), no
   read it finishes returns a version older than the one committed when it crossed.
   */
  lemma AcquireBoundary(run: seq<Sys>, actions: seq<Action>, bytes: seq<Byte>, n: nat, i: nat, j: nat, k: nat)
    requires Run(run, actions) && run[0] == Init(bytes, n) && i < j < |run|
    requires actions[i].Boundary? || actions[i].Invalidate?
    requires |run[i].results| <= k < |run[j].results| && run[j].results[k].host == actions[i].host
    ensures run[i].version <= run[j].results[k].version
  {
    hide Inv;
    InitInv(bytes, n);
    assert Enabled(run[i], actions[i]) && run[i + 1] == Next(run[i], actions[i]);
    FloorBounds(run, actions, i + 1, j, k);
  }

  /** The writeback epoch is odd exactly while a writer may be storing or has not closed its release. */
  lemma EpochParity(run: seq<Sys>, actions: seq<Action>, bytes: seq<Byte>, n: nat, i: nat)
    requires Run(run, actions) && run[0] == Init(bytes, n) && i < |run|
    ensures run[i].epoch % 2 == 1 <==> !run[i].writer.NoWriter?
    ensures run[i].version !in run[i].dirtied && run[i].epoch % 2 == 0 ==>
      run[i].version < |run[i].history| && run[i].bytes == run[i].history[run[i].version]
  {
    hide Next, Enabled;
    InitInv(bytes, n);
    RunKeeps(run, actions, i);
  }

  /** Only readers act after the first steps. */
  ghost predicate Calm(actions: seq<Action>, actions': seq<Action>) {
    actions <= actions' && forall i :: |actions| <= i < |actions'| ==> !IsWriter(actions'[i])
  }

  lemma CalmOn(a: seq<Action>, b: seq<Action>, c: seq<Action>)
    requires Calm(a, b) && Calm(b, c)
    ensures Calm(a, c)
  {
    forall i | |a| <= i < |c| ensures !IsWriter(c[i]) {
      if i < |b| { assert c[i] == b[i]; }
    }
  }

  lemma Extend(run: seq<Sys>, actions: seq<Action>, x: Action) returns (run': seq<Sys>, actions': seq<Action>)
    requires Run(run, actions) && Enabled(run[|actions|], x)
    ensures run' == run + [Next(run[|actions|], x)] && actions' == actions + [x] && (!IsWriter(x) ==> Calm(actions, actions'))
    ensures Run(run', actions') && |run| == |actions| + 1 && run'[|actions'|] == Next(run[|actions|], x)
  {
    hide Next, Enabled;
    run', actions' := run + [Next(run[|actions|], x)], actions + [x];
    forall i | 0 <= i < |actions'| ensures Enabled(run'[i], actions'[i]) && run'[i + 1] == Next(run'[i], actions'[i]) {
      if i < |actions| {
        assert run'[i] == run[i] && run'[i + 1] == run[i + 1];
      }
    }
  }

  /** An undisturbed copy loop ends with all the shared bytes. */
  lemma {:induction false} CopyAll(run: seq<Sys>, actions: seq<Action>, g: nat) returns (run': seq<Sys>, actions': seq<Action>)
    requires Run(run, actions) && |run| == |actions| + 1 && g < |run[|actions|].hosts|
    requires var s := run[|actions|]; var r := s.hosts[g].reader;
      r.Copying? && |r.bytes| <= |s.bytes| && r.bytes == s.bytes[..|r.bytes|]
    ensures Run(run', actions') && run <= run' && Calm(actions, actions')
    ensures var s := run[|actions|]; var r := s.hosts[g].reader;
      run'[|actions'|] == SetHost(s, g, s.hosts[g].(reader := Copying(r.epoch, r.version, s.bytes)))
    decreases |run[|actions|].bytes| - |run[|actions|].hosts[g].reader.bytes|
  {
    var s := run[|actions|];
    var r := s.hosts[g].reader;
    if |r.bytes| == |s.bytes| {
      run', actions' := run, actions;
      assert s.bytes[..|r.bytes|] == s.bytes;
      assert s.hosts[g] == s.hosts[g].(reader := Copying(r.epoch, r.version, s.bytes));
      assert s.hosts[g := s.hosts[g]] == s.hosts;
    } else {
      run', actions' := Extend(run, actions, ReadByte(g));
      var t := run'[|actions'|];
      assert t.hosts[g].reader.bytes == s.bytes[..|r.bytes| + 1];
      run', actions' := CopyAll(run', actions', g);
      assert s.hosts[g := t.hosts[g]][g := run'[|actions'|].hosts[g]] == s.hosts[g := run'[|actions'|].hosts[g]];
    }
  }

  /** One step of host `g`'s reader. */
  lemma Step(run: seq<Sys>, actions: seq<Action>, first: seq<Action>, x: Action) returns (run': seq<Sys>, actions': seq<Action>)
    requires Run(run, actions) && |run| == |actions| + 1 && Calm(first, actions) && Enabled(run[|actions|], x) && !IsWriter(x)
    ensures Run(run', actions') && |run'| == |actions'| + 1 && run <= run' && Calm(first, actions')
    ensures run'[|actions'|] == NextReader(run[|actions|], x)
  {
    hide Run, Enabled, NextReader, NextWriter;
    run', actions' := Extend(run, actions, x);
    CalmOn(first, actions, actions');
  }

  lemma BeginCopy(run: seq<Sys>, actions: seq<Action>, g: nat) returns (run': seq<Sys>, actions': seq<Action>)
    requires Run(run, actions) && |run| == |actions| + 1 && g < |run[|actions|].hosts|
    requires var s := run[|actions|]; var h := s.hosts[g];
      s.epoch % 2 == 0 && h.reader.Resting? && h.current.None? && !OldMatches(h, s.version)
    ensures Run(run', actions') && |run'| == |actions'| + 1 && run <= run' && Calm(actions, actions')
    ensures var s := run[|actions|];
      run'[|actions'|] == SetHost(s, g, s.hosts[g].(reader := Copying(s.epoch, s.version, [])))
  {
    hide Run, Calm;
    assert Calm(actions, actions) by { Itself(actions); }
    run', actions' := Step(run, actions, actions, ReadEpoch(g));
    run', actions' := Step(run', actions', actions, ReadVersion(g));
    run', actions' := Step(run', actions', actions, StartCopy(g));
  }

  lemma Itself(actions: seq<Action>)
    ensures Calm(actions, actions)
  { }

  /** The state after host `g` has accepted this copy: returned, and kept as its only one. */
  function Accepted(s: Sys, g: nat, r: Replica): Sys
    requires g < |s.hosts|
  {
    SetHost(s, g, Host(Resting, Some(r), None, s.hosts[g].floor)).(results := s.results + [Read(g, r.version, r.bytes, s.hosts[g].floor)])
  }

  lemma FinishCopy(run: seq<Sys>, actions: seq<Action>, g: nat) returns (run': seq<Sys>, actions': seq<Action>)
    requires Run(run, actions) && |run| == |actions| + 1 && g < |run[|actions|].hosts|
    requires var s := run[|actions|]; s.epoch % 2 == 0 && s.hosts[g].reader == Copying(s.epoch, s.version, s.bytes)
    ensures Run(run', actions') && |run'| == |actions'| + 1 && run <= run' && Calm(actions, actions')
    ensures var s := run[|actions|]; var e := run'[|actions'|];
      e == Accepted(s, g, Replica(s.version, s.bytes))
  {
    hide Run, Calm;
    Itself(actions);
    run', actions' := Step(run, actions, actions, EndCopy(g));
    run', actions' := Step(run', actions', actions, RecheckEpoch(g));
    run', actions' := Step(run', actions', actions, RecheckVersion(g));
  }

  /** A read no writer disturbs, without a valid copy at hand, returns and keeps the shared version and bytes. */
  lemma QuietRead(run: seq<Sys>, actions: seq<Action>, g: nat) returns (run': seq<Sys>, actions': seq<Action>)
    requires Run(run, actions) && |run| == |actions| + 1 && g < |run[|actions|].hosts|
    requires var s := run[|actions|]; var h := s.hosts[g];
      s.epoch % 2 == 0 && h.reader.Resting? && h.current.None? && !OldMatches(h, s.version)
    ensures Run(run', actions') && |run'| == |actions'| + 1 && run <= run' && Calm(actions, actions')
    ensures run'[|actions'|] == Accepted(run[|actions|], g, Replica(run[|actions|].version, run[|actions|].bytes))
  {
    hide Run, Enabled, Next, Calm;
    ghost var actions1, actions2;
    run', actions1 := BeginCopy(run, actions, g);
    run', actions2 := CopyAll(run', actions1, g);
    CalmOn(actions, actions1, actions2);
    run', actions' := FinishCopy(run', actions2, g);
    CalmOn(actions, actions2, actions');
  }

  // ------------------------------------------------------------------ any reader can be brought to rest

  /** Nothing but host `g`'s reader and the list of results moved. */
  predicate SameMemory(s: Sys, t: Sys) {
    && t.bytes == s.bytes && t.version == s.version && t.epoch == s.epoch && t.writer == s.writer
    && t.history == s.history && t.dirtied == s.dirtied && |t.hosts| == |s.hosts| && s.results <= t.results
  }

  /** A copy under way, whatever it has read so far, can be read to its end. */
  lemma {:induction false} CopyOn(run: seq<Sys>, actions: seq<Action>, first: seq<Action>, g: nat) returns (run': seq<Sys>, actions': seq<Action>)
    requires Run(run, actions) && |run| == |actions| + 1 && Calm(first, actions) && g < |run[|actions|].hosts|
    requires run[|actions|].hosts[g].reader.Copying? && |run[|actions|].hosts[g].reader.bytes| <= |run[|actions|].bytes|
    ensures Run(run', actions') && |run'| == |actions'| + 1 && run <= run' && Calm(first, actions')
    ensures SameMemory(run[|actions|], run'[|actions'|])
    ensures var t := run'[|actions'|]; t.hosts[g].reader.Copying? && |t.hosts[g].reader.bytes| == |t.bytes|
    decreases |run[|actions|].bytes| - |run[|actions|].hosts[g].reader.bytes|
  {
    hide Run, Calm;
    run', actions' := run, actions;
    if |run[|actions|].hosts[g].reader.bytes| < |run[|actions|].bytes| {
      run', actions' := Step(run, actions, first, ReadByte(g));
      run', actions' := CopyOn(run', actions', first, g);
    }
  }

  /** The checks that end a read, whichever way they go. */
  lemma CheckOff(run: seq<Sys>, actions: seq<Action>, first: seq<Action>, g: nat) returns (run': seq<Sys>, actions': seq<Action>)
    requires Run(run, actions) && |run| == |actions| + 1 && Calm(first, actions) && g < |run[|actions|].hosts|
    requires var r := run[|actions|].hosts[g].reader; r.Holding? || r.Checked?
    ensures Run(run', actions') && |run'| == |actions'| + 1 && run <= run' && Calm(first, actions')
    ensures SameMemory(run[|actions|], run'[|actions'|]) && run'[|actions'|].hosts[g].reader.Resting?
  {
    hide Run, Calm;
    run', actions' := run, actions;
    if run[|actions|].hosts[g].reader.Holding? { run', actions' := Step(run', actions', first, RecheckEpoch(g)); }
    run', actions' := Step(run', actions', first, RecheckVersion(g));
  }

  lemma ChooseSource(run: seq<Sys>, actions: seq<Action>, first: seq<Action>, g: nat) returns (run': seq<Sys>, actions': seq<Action>)
    requires Run(run, actions) && |run| == |actions| + 1 && Calm(first, actions) && g < |run[|actions|].hosts|
    requires var r := run[|actions|].hosts[g].reader; r.SawEpoch? || r.SawVersion?
    ensures Run(run', actions') && |run'| == |actions'| + 1 && run <= run' && Calm(first, actions')
    ensures SameMemory(run[|actions|], run'[|actions'|])
    ensures var r := run'[|actions'|].hosts[g].reader; r.Holding? || (r.Copying? && r.bytes == [])
  {
    hide Run, Calm;
    run', actions' := run, actions;
    if run[|actions|].hosts[g].reader.SawEpoch? { run', actions' := Step(run', actions', first, ReadVersion(g)); }
    var h := run'[|actions'|].hosts[g];
    if OldMatches(h, h.reader.version) {
      run', actions' := Step(run', actions', first, TakeOld(g));
    } else {
      run', actions' := Step(run', actions', first, StartCopy(g));
    }
  }

  lemma FinishRead(run: seq<Sys>, actions: seq<Action>, first: seq<Action>, g: nat) returns (run': seq<Sys>, actions': seq<Action>)
    requires Run(run, actions) && |run| == |actions| + 1 && Calm(first, actions) && g < |run[|actions|].hosts|
    requires var s := run[|actions|]; s.hosts[g].reader.Copying? ==> |s.hosts[g].reader.bytes| <= |s.bytes|
    ensures Run(run', actions') && |run'| == |actions'| + 1 && run <= run' && Calm(first, actions')
    ensures SameMemory(run[|actions|], run'[|actions'|]) && run'[|actions'|].hosts[g].reader.Resting?
  {
    hide Run, Calm, Enabled, NextReader, OldMatches;
    run', actions' := run, actions;
    var r := run[|actions|].hosts[g].reader;
    if r.SawEpoch? || r.SawVersion? { run', actions' := ChooseSource(run', actions', first, g); }
    if run'[|actions'|].hosts[g].reader.Copying? {
      run', actions' := CopyOn(run', actions', first, g);
      run', actions' := EndOfCopy(run', actions', first, g);
    }
    if !run'[|actions'|].hosts[g].reader.Resting? { run', actions' := CheckOff(run', actions', first, g); }
  }

  lemma EndOfCopy(run: seq<Sys>, actions: seq<Action>, first: seq<Action>, g: nat) returns (run': seq<Sys>, actions': seq<Action>)
    requires Run(run, actions) && |run| == |actions| + 1 && Calm(first, actions) && g < |run[|actions|].hosts|
    requires var s := run[|actions|]; s.hosts[g].reader.Copying? && |s.hosts[g].reader.bytes| == |s.bytes|
    ensures Run(run', actions') && |run'| == |actions'| + 1 && run <= run' && Calm(first, actions')
    ensures SameMemory(run[|actions|], run'[|actions'|]) && run'[|actions'|].hosts[g].reader.Holding?
  {
    hide Run, Calm;
    run', actions' := Step(run, actions, first, EndCopy(g));
  }

  /** A host at rest can lose both copies of the block. */
  lemma DropCopies(run: seq<Sys>, actions: seq<Action>, first: seq<Action>, g: nat) returns (run': seq<Sys>, actions': seq<Action>)
    requires Run(run, actions) && |run| == |actions| + 1 && Calm(first, actions) && g < |run[|actions|].hosts|
    requires run[|actions|].hosts[g].reader.Resting?
    ensures Run(run', actions') && |run'| == |actions'| + 1 && run <= run' && Calm(first, actions')
    ensures SameMemory(run[|actions|], run'[|actions'|])
    ensures var h := run'[|actions'|].hosts[g]; h.reader.Resting? && h.current.None? && h.prior.None?
  {
    hide Run, Calm;
    run', actions' := Step(run, actions, first, EvictCurrent(g));
    run', actions' := Step(run', actions', first, EvictOld(g));
  }

  // ------------------------------------------------------------------ raw aborts

  /**
   A raw abort after changing bytes breaks the promise: from every such state any host can go on,
   with reader steps only, to accept bytes that are not the content of the version they are
   reported with.
   */
  lemma DirtyAbortTears(s: Sys, g: nat) returns (run: seq<Sys>, actions: seq<Action>)
    requires Inv(s) && s.writer.Raw? && !Exact(s) && g < |s.hosts|
    ensures Run(run, actions) && |run| == |actions| + 1 && run[0] == s && Calm([AbortRaw], actions)
    ensures var e := run[|actions|];
      exists r :: r in e.results && r.host == g && r.version == s.version && !IsContent(e, s.version, r.bytes)
  {
    hide Inv, Run, Calm, NextReader, Enabled;
    OpenWriter(s);
    var first := [AbortRaw];
    run, actions := Aborted(s);
    Itself(first);
    ReaderInside(s, g);
    run, actions := FinishRead(run, actions, first, g);
    run, actions := DropCopies(run, actions, first, g);
    ghost var quiet := actions;
    run, actions := QuietRead(run, quiet, g);
    CalmOn(first, quiet, actions);
    var e := run[|actions|];
    assert e.results[|e.results| - 1] in e.results;
  }

  lemma Aborted(s: Sys) returns (run: seq<Sys>, actions: seq<Action>)
    requires s.writer.Raw? && !Exact(s)
    ensures Run(run, actions) && |run| == 2 && run[0] == s && actions == [AbortRaw]
    ensures run[1] == s.(epoch := s.epoch + 1, writer := NoWriter, dirtied := s.dirtied + {s.version})
  {
    run, actions := [s, Next(s, AbortRaw)], [AbortRaw];
  }

  lemma ReaderInside(s: Sys, g: nat)
    requires Inv(s) && g < |s.hosts|
    ensures s.hosts[g].reader.Copying? ==> |s.hosts[g].reader.bytes| <= |s.bytes|
  {
    assert HostOk(s, s.hosts[g]);
  }

  /** Every read of version `v` returned what was published under it. */
  ghost predicate AllExact(s: Sys, v: nat) {
    forall r :: r in s.results && r.version == v ==> IsContent(s, v, r.bytes)
  }

  /** A continuation that begins by giving the raw token back, and has no other dirty abort of the version. */
  ghost predicate AfterAbort(s: Sys, run: seq<Sys>, actions: seq<Action>) {
    && Run(run, actions) && run[0] == s && |actions| > 0 && actions[0] == AbortRaw
    && forall i :: 0 < i < |actions| ==> !DirtyAbort(run[i], actions[i], s.version)
  }

  /**
   Giving a raw token back unmodified is harmless, in every continuation and on every host,
   exactly when the bytes are those of the version.
   */
  lemma AbortHarmlessExactly(s: Sys)
    requires Inv(s) && s.writer.Raw? && s.version !in s.dirtied && |s.hosts| > 0
    ensures Exact(s) <==> forall run, actions :: AfterAbort(s, run, actions) ==> AllExact(run[|actions|], s.version)
  {
    hide Inv, Next, Enabled, Exact;
    if Exact(s) {
      forall run, actions | AfterAbort(s, run, actions) ensures AllExact(run[|actions|], s.version) {
        ExactAfter(s, run, actions);
      }
    } else {
      var run, actions := DirtyAbortTears(s, 0);
      TornAfter(s, run, actions);
    }
  }

  lemma ExactAfter(s: Sys, run: seq<Sys>, actions: seq<Action>)
    requires Inv(s) && s.version !in s.dirtied && Exact(s) && AfterAbort(s, run, actions)
    ensures AllExact(run[|actions|], s.version)
  {
    hide Next, Enabled;
    var j := |actions|;
    assert !DirtyAbort(run[0], actions[0], s.version);
    DirtiedExactly(run, actions, j, s.version);
    RunKeeps(run, actions, j);
    forall r | r in run[j].results && r.version == s.version ensures IsContent(run[j], s.version, r.bytes) {
      assert ReadOk(run[j], r);
    }
  }

  lemma TornAfter(s: Sys, run: seq<Sys>, actions: seq<Action>)
    requires Run(run, actions) && |run| == |actions| + 1 && run[0] == s && Calm([AbortRaw], actions)
    requires exists r :: r in run[|actions|].results && r.version == s.version && !IsContent(run[|actions|], s.version, r.bytes)
    ensures AfterAbort(s, run, actions) && !AllExact(run[|actions|], s.version)
  {
    hide Run, Exact;
    forall i | 0 < i < |actions| ensures !DirtyAbort(run[i], actions[i], s.version) { assert !IsWriter(actions[i]); }
  }

  lemma OpenWriter(s: Sys)
    requires Inv(s) && !s.writer.NoWriter?
    ensures s.epoch % 2 == 1 && s.version < |s.history|
  { }
}
