/**
 The single writer of the versioned index as a state machine.  Every effect on the disk
 is one step, and the process may die between any two steps, or in the middle of a log
 append, and be started again.

 What the theorems speak about is kept beside the disk: the calls begun and whether their
 append completed and whether they returned, and histories -- which calls' operations are
 readable in the log, stand behind a broken line of it, are in memory, and are in each
 committed snapshot.
 */
module WriterProtocol {
  import opened Prelude
  import opened VectorIndex
  import opened LogFile

  /** A snapshot file while `write_to` runs, and once it has finished. */
  datatype File = Partial | Complete(content: Index)

  /** `index_filename` is always "index.v" followed by a number; the number stands for it. */
  datatype ManifestState = ManifestState(version: nat, file: nat)

  datatype Disk = Disk(log: Log, manifest: Option<ManifestState>, files: map<nat, File>)

  datatype Pc =
    | Idle        // between calls
    | Called      // add/remove entered
    | InLog       // its log append is on disk
    | Applied     // applied in memory and counted
    | Starting    // checkpoint entered with pending operations
    | Writing     // the new snapshot file exists but is incomplete
    | Written     // the new snapshot file is complete
    | Committed   // the manifest names it
    | Pruning     // log truncated, counters updated; old files are being unlinked

  datatype Proc = Proc(pc: Pc, index: Index, version: nat, ops: nat, call: Option<Op>)

  datatype CallRecord = CallRecord(op: Op, logged: bool, acked: bool)

  /** An operation, and the number of the call it came from. */
  datatype Entry = Entry(call: nat, op: Op)

  type History = seq<Entry>

  function Ops(h: History): seq<Op>
  {
    seq(|h|, i requires 0 <= i < |h| => h[i].op)
  }

  function Fold(h: History): Index
  {
    Replay(map[], Ops(h))
  }

  predicate Holds(h: History, call: nat)
  {
    exists i :: 0 <= i < |h| && h[i].call == call
  }

  /**
   `logged` are the calls whose line is in the file, in order; `lines` those the next
   recovery can read, `behind` those the running process appended behind a broken line,
   `memory` what it holds, all since the last truncate; `published` is what each version was
   cut from, and `cuts` how much was logged then.  `jammed` are the calls whose append met
   an unterminated log.  `slipped` says that some crash was not harmless.
   */
  datatype State = State(
    every: nat,
    disk: Disk,
    proc: Option<Proc>,
    calls: seq<CallRecord>,
    logged: History,
    lines: History,
    behind: History,
    memory: History,
    published: seq<History>,
    cuts: seq<nat>,
    jammed: set<nat>,
    slipped: bool,
    crashes: nat)

  datatype Step =
    | Restart | Crash
    | Call(op: Op) | Append | TornAppend(cut: Cut) | ApplyInMemory | ReturnCall
    | ThresholdCheckpoint | ExplicitCheckpoint
    | BeginWrite | FinishWrite | Commit | Truncate | Unlink(file: nat) | EndCheckpoint

  const KEEP_PREVIOUS_VERSIONS := 1

  const EMPTY_DISK := Disk(EMPTY_LOG, None, map[])

  function Init(every: nat): State
  {
    State(every, EMPTY_DISK, None, [], [], [], [], [], [[]], [0], {}, false, 0)
  }

  function ManifestVersion(disk: Disk): nat
  {
    if disk.manifest.Some? then disk.manifest.value.version else 0
  }

  function ManifestPath(disk: Disk): Option<nat>
  {
    if disk.manifest.Some? then Some(disk.manifest.value.file) else None
  }

  /** The index factory: no path or a missing file gives an empty index; None is a failed load. */
  function Load(disk: Disk, path: Option<nat>): Option<Index>
  {
    if path.None? || path.value !in disk.files then Some(map[])
    else match disk.files[path.value]
      case Partial => None
      case Complete(content) => Some(content)
  }

  /** What constructing a writer over this disk rebuilds: snapshot, then log. */
  function Recover(disk: Disk): Option<Index>
  {
    var base := Load(disk, ManifestPath(disk));
    if base.None? then None else Some(Replay(base.value, Readable(disk.log)))
  }

  predicate Stale(file: nat, version: nat)
  {
    file < version - KEEP_PREVIOUS_VERSIONS
  }

  predicate Enabled(s: State, step: Step)
  {
    if step.Restart? then
      s.proc.None? && Recover(s.disk).Some?
    else if s.proc.None? then
      false
    else
      var p := s.proc.value;
      match step
      case Crash => true
      case Call(_) => p.pc.Idle?
      case Append => p.pc.Called? && p.call.Some?
      case TornAppend(cut) => p.pc.Called? && p.call.Some? && (cut.Fragment? || cut.AllButNewline?)
      case ApplyInMemory => p.pc.InLog? && p.call.Some?
      case ReturnCall => p.pc.Applied? && p.ops < s.every
      case ThresholdCheckpoint => p.pc.Applied? && p.ops >= s.every && p.ops != 0
      case ExplicitCheckpoint => p.pc.Idle? && p.ops != 0
      case BeginWrite => p.pc.Starting?
      case FinishWrite => p.pc.Writing?
      case Commit => p.pc.Written?
      case Truncate => p.pc.Committed?
      case Unlink(f) => p.pc.Pruning? && f in s.disk.files && Stale(f, p.version)
      case EndCheckpoint => p.pc.Pruning? && forall f :: f in s.disk.files ==> !Stale(f, p.version)
  }

  function MarkLogged(calls: seq<CallRecord>): seq<CallRecord>
  {
    if calls == [] then [] else Front(calls) + [Last(calls).(logged := true)]
  }

  function MarkAcked(calls: seq<CallRecord>): seq<CallRecord>
  {
    if calls == [] then [] else Front(calls) + [Last(calls).(acked := true)]
  }

  /** The call that is running. */
  function Current(s: State, op: Op): Entry
  {
    Entry(if s.calls == [] then 0 else |s.calls| - 1, op)
  }

  /** The readable records once something is written behind them: an unterminated one is lost. */
  function Kept(s: State): History
  {
    if s.disk.log.tail.Unterminated? && s.lines != [] then Front(s.lines) else s.lines
  }

  function Swallowed(s: State): History
  {
    if s.disk.log.tail.Unterminated? && s.lines != [] then [Last(s.lines)] else []
  }

  /** A line completely written: readable if the log was terminated, else jammed. */
  function Appended(s: State, op: Op): State
  {
    var e := Current(s, op);
    var t := s.(disk := s.disk.(log := AfterWrite(s.disk.log, op, All)),
                calls := MarkLogged(s.calls), logged := s.logged + [e]);
    if s.disk.log.tail.Terminated? then t.(lines := s.lines + [e])
    else t.(lines := Kept(s), behind := s.behind + (Swallowed(s) + [e]), jammed := s.jammed + {e.call})
  }

  /**
   Nothing would be lost if the process died now: no record stands behind a broken line, or
   those that do are in the snapshot just committed and undid nothing of the readable ones.
   */
  ghost predicate Harmless(s: State)
  {
    s.behind == [] ||
    (s.proc.Some? && s.proc.value.pc.Committed? && Undisturbed(Ops(s.lines), Ops(s.behind)))
  }

  /** The process is gone; what only it knew is gone with it. */
  ghost function Died(s: State): State
  {
    s.(proc := None, crashes := s.crashes + 1, slipped := s.slipped || !Harmless(s), behind := [], memory := [])
  }

  /** A line partly written, which no process survives. */
  function Torn(s: State, op: Op, cut: Cut): State
  {
    var e := Current(s, op);
    var t := s.(disk := s.disk.(log := AfterWrite(s.disk.log, op, cut)));
    if !s.disk.log.tail.Terminated? then t.(lines := Kept(s), behind := s.behind + Swallowed(s))
    else if cut.AllButNewline? then t.(lines := s.lines + [e], logged := s.logged + [e])
    else t
  }

  ghost function Do(s: State, step: Step): State
    requires Enabled(s, step)
  {
    if step.Restart? then
      s.(proc := Some(Proc(Idle, Recover(s.disk).value, ManifestVersion(s.disk), |Readable(s.disk.log)|, None)),
         memory := Recovered(s))
    else
      var p := s.proc.value;
      match step
      case Crash => Died(s)
      case Call(op) =>
        s.(proc := Some(p.(pc := Called, call := Some(op))),
           calls := s.calls + [CallRecord(op, false, false)])
      case Append => Appended(s, p.call.value).(proc := Some(p.(pc := InLog)))
      case TornAppend(cut) => Died(Torn(s, p.call.value, cut))
      case ApplyInMemory =>
        s.(proc := Some(p.(pc := Applied, index := Apply(p.index, p.call.value), ops := p.ops + 1)),
           memory := s.memory + [Current(s, p.call.value)])
      case ReturnCall =>
        s.(proc := Some(p.(pc := Idle, call := None)), calls := MarkAcked(s.calls))
      case ThresholdCheckpoint => s.(proc := Some(p.(pc := Starting)))
      case ExplicitCheckpoint => s.(proc := Some(p.(pc := Starting)))
      case BeginWrite =>
        s.(proc := Some(p.(pc := Writing)),
           disk := s.disk.(files := s.disk.files[p.version + 1 := Partial]))
      case FinishWrite =>
        s.(proc := Some(p.(pc := Written)),
           disk := s.disk.(files := s.disk.files[p.version + 1 := Complete(p.index)]))
      case Commit =>
        s.(proc := Some(p.(pc := Committed)),
           disk := s.disk.(manifest := Some(ManifestState(p.version + 1, p.version + 1))),
           published := s.published + [s.memory], cuts := s.cuts + [|s.logged|])
      case Truncate =>
        s.(proc := Some(p.(pc := Pruning, version := p.version + 1, ops := 0)),
           disk := s.disk.(log := EMPTY_LOG), lines := [], behind := [])
      case Unlink(f) => s.(disk := s.disk.(files := s.disk.files - {f}))
      case EndCheckpoint =>
        s.(proc := Some(p.(pc := Idle, call := None)),
           calls := if p.call.Some? then MarkAcked(s.calls) else s.calls)
  }

  /** What the last committed snapshot was cut from. */
  function Covered(s: State): History
  {
    if s.published == [] then [] else Last(s.published)
  }

  /** What a recovery started now would replay: the snapshot's history, then the readable log. */
  function Recovered(s: State): History
  {
    Covered(s) + s.lines
  }

  /** Every step of the run was enabled when it was taken, starting from an empty directory. */
  ghost predicate Legal(every: nat, steps: seq<Step>)
    decreases |steps|, 0
  {
    steps == [] || (Legal(every, Front(steps)) && Enabled(Exec(every, Front(steps)), Last(steps)))
  }

  ghost function Exec(every: nat, steps: seq<Step>): State
    requires Legal(every, steps)
    decreases |steps|, 1
  {
    if steps == [] then Init(every) else Do(Exec(every, Front(steps)), Last(steps))
  }

  lemma Extend(every: nat, steps: seq<Step>, step: Step)
    requires Legal(every, steps) && Enabled(Exec(every, steps), step)
    ensures Legal(every, steps + [step])
    ensures Exec(every, steps + [step]) == Do(Exec(every, steps), step)
  {
    assert Front(steps + [step]) == steps;
  }

  // ---------------------------------------------------------------- histories

  lemma OpsConcat(a: History, b: History)
    ensures Ops(a + b) == Ops(a) + Ops(b)
  {
  }

  lemma FoldConcat(a: History, b: History)
    ensures Fold(a + b) == Replay(Fold(a), Ops(b))
  {
    OpsConcat(a, b);
    ReplayAppend(map[], Ops(a), Ops(b));
  }

  lemma FoldSnoc(h: History, e: Entry)
    ensures Fold(h + [e]) == Apply(Fold(h), e.op)
  {
    FoldConcat(h, [e]);
    assert Ops([e]) == [] + [e.op];
    ReplaySnoc(Fold(h), [], e.op);
  }

  lemma HoldsConcat(a: History, b: History, call: nat)
    ensures Holds(a + b, call) <==> Holds(a, call) || Holds(b, call)
  {
    if Holds(a, call) {
      var i :| 0 <= i < |a| && a[i].call == call;
      assert (a + b)[i] == a[i];
    }
    if Holds(b, call) {
      var i :| 0 <= i < |b| && b[i].call == call;
      assert (a + b)[|a| + i] == b[i];
    }
  }

  lemma HoldsPrefix(a: History, b: History, call: nat)
    requires a <= b && Holds(a, call)
    ensures Holds(b, call)
  {
    HoldsConcat(a, b[|a|..], call);
    assert b == a + b[|a|..];
  }

  lemma HoldsOne(e: Entry, call: nat)
    ensures Holds([e], call) <==> e.call == call
  {
    assert [e][0] == e;
  }

  // ---------------------------------------------------------------- the invariant

  ghost predicate PublishedOk(version: nat, published: seq<History>)
  {
    && |published| == version + 1 && published[0] == []
    && (forall i, j :: 0 <= i <= j < |published| ==> published[i] <= published[j])
  }

  /** Every committed version still on disk holds what it was cut from; newer files are leftovers. */
  ghost predicate FilesOk(version: nat, files: map<nat, File>, published: seq<History>)
    requires PublishedOk(version, published)
  {
    && (forall f :: f in files ==> 1 <= f <= version + 1)
    && (forall f :: f in files && f <= version ==> files[f] == Complete(Fold(published[f])))
    && (forall f :: 1 <= f <= version && !Stale(f, version) ==> f in files)
  }

  ghost predicate DiskOk(manifest: Option<ManifestState>, files: map<nat, File>, published: seq<History>)
  {
    var v := if manifest.Some? then manifest.value.version else 0;
    && (manifest.Some? ==> manifest.value.file == v && v >= 1)
    && PublishedOk(v, published)
    && FilesOk(v, files, published)
  }

  /** The readable records are those of `lines`; only behind a broken line is anything unreadable. */
  ghost predicate LogOk(log: Log, lines: History, behind: History)
  {
    Readable(log) == Ops(lines) && (!log.tail.Broken? ==> behind == [])
  }

  /** What the process holds is the last snapshot's history and all that was logged since. */
  ghost predicate MemoryOk(pc: Pc, current: Option<Entry>, memory: History, published: seq<History>, lines: History,
                           behind: History)
  {
    && published != []
    && (pc.Committed? ==> |published| >= 2 && memory == Last(published)
                          && memory == Last(Front(published)) + lines + behind)
    && (pc.Pruning? ==> memory == Last(published) && lines == [] && behind == [])
    && (pc.InLog? ==> current.Some? && memory + [current.value] == Last(published) + lines + behind)
    && (!pc.Committed? && !pc.Pruning? && !pc.InLog? ==> memory == Last(published) + lines + behind)
  }

  /** The live process, at each point of a call. */
  ghost predicate ProcOk(p: Proc, manifest: Option<ManifestState>, files: map<nat, File>, memory: History, pending: nat)
  {
    var v := if manifest.Some? then manifest.value.version else 0;
    && p.version == (if p.pc.Committed? then v - 1 else v)
    && p.index == Fold(memory)
    && p.ops + (if p.pc.InLog? then 1 else 0) == pending
    && (p.pc.Written? ==> p.version + 1 in files && files[p.version + 1] == Complete(p.index))
    && (p.pc.Committed? || p.pc.Pruning? ==> forall f :: f in files ==> f <= v)
  }

  predicate InCall(s: State)
  {
    s.proc.Some? && s.proc.value.call.Some?
  }

  function CurrentEntry(s: State): Option<Entry>
  {
    if InCall(s) then Some(Current(s, s.proc.value.call.value)) else None
  }

  /** How many calls may have left a line in the file. */
  function Begun(s: State): nat
  {
    if s.proc.Some? && s.proc.value.pc.Called? && s.calls != [] then |s.calls| - 1 else |s.calls|
  }

  /** The last record is the call in flight, logged once its append is done. */
  predicate CallOk(s: State)
  {
    && (InCall(s) ==> s.calls != []
                      && Last(s.calls) == CallRecord(s.proc.value.call.value, !s.proc.value.pc.Called?, false))
    && (s.proc.Some? && s.proc.value.pc.Idle? ==> s.proc.value.call.None?)
    && (s.proc.Some? && (s.proc.value.pc.Called? || s.proc.value.pc.InLog? || s.proc.value.pc.Applied?) ==> InCall(s))
    && (s.proc.None? ==> s.behind == [] && s.memory == [])
  }

  function Unacked(calls: seq<CallRecord>): nat
  {
    if calls == [] then 0 else Unacked(Front(calls)) + if Last(calls).acked then 0 else 1
  }

  predicate AckedAreLogged(calls: seq<CallRecord>)
  {
    forall i :: 0 <= i < |calls| && calls[i].acked ==> calls[i].logged
  }

  predicate AcksOk(calls: seq<CallRecord>, crashes: nat, inCall: bool)
  {
    AckedAreLogged(calls) && Unacked(calls) <= crashes + if inCall then 1 else 0
  }

  /** One entry per crash may exceed the threshold; between calls one entry less. */
  predicate BoundOk(every: nat, pending: nat, crashes: nat, between: bool)
  {
    every >= 1 && pending <= every + crashes && (between ==> pending <= every + crashes - 1)
  }

  predicate Between(proc: Option<Proc>)
  {
    proc.None? || proc.value.pc.Idle? || proc.value.pc.Called?
  }

  /** Entries name calls that may have reached the file, and carry their operations. */
  predicate EntriesOk(calls: seq<CallRecord>, begun: nat, h: History)
  {
    forall i :: 0 <= i < |h| ==> h[i].call < begun && h[i].call < |calls| && calls[h[i].call].op == h[i].op
  }

  /** Where the line of each call went: readable or in the snapshot, unless it was jammed. */
  ghost predicate PlacedOk(calls: seq<CallRecord>, begun: nat, jammed: set<nat>, lines: History, covered: History)
  {
    && (forall k :: 0 <= k < |calls| && calls[k].logged ==> k in jammed || Holds(covered, k) || Holds(lines, k))
    && (forall k :: k in jammed ==> k < begun && !Holds(lines, k))
  }

  /** An unterminated record is one whose append did not complete. */
  ghost predicate UnterminatedOk(calls: seq<CallRecord>, tail: Tail, lines: History)
  {
    tail.Unterminated? ==>
      && lines != [] && Last(lines).call < |calls| && !calls[Last(lines).call].logged
      && Last(lines).op == tail.op
  }

  ghost predicate LoggedOk(calls: seq<CallRecord>, logged: History)
  {
    && (forall i, j :: 0 <= i < j < |logged| ==> logged[i].call < logged[j].call)
    && (forall k :: 0 <= k < |calls| && calls[k].logged ==> Holds(logged, k))
  }

  /** As long as nothing slipped, snapshot and log together rebuild the logged operations in order. */
  ghost predicate OrderOk(logged: History, pending: History, published: seq<History>, cuts: seq<nat>, atCut: bool)
  {
    && |cuts| == |published| && cuts != []
    && (forall i :: 0 <= i < |cuts| ==> cuts[i] <= |logged| && Fold(published[i]) == Fold(logged[..cuts[i]]))
    && Fold(if atCut then Last(published) else Last(published) + pending) == Fold(logged)
  }

  /** What each crash may leave behind a broken line. */
  function Leftovers(every: nat, crashes: nat): nat
  {
    (every + 2) * crashes
  }

  /** Of the writes stranded in the file, all but those of the running process were left by crashes. */
  predicate StrandedOk(every: nat, stranded: nat, behind: nat, crashes: nat, between: bool)
  {
    && stranded <= behind + Leftovers(every, crashes)
    && behind <= every + 1 && (between ==> behind + 1 <= every)
  }

  predicate AtCut(proc: Option<Proc>)
  {
    proc.Some? && (proc.value.pc.Committed? || proc.value.pc.Pruning?)
  }

  ghost predicate Inv(s: State)
  {
    && DiskOk(s.disk.manifest, s.disk.files, s.published)
    && LogOk(s.disk.log, s.lines, s.behind)
    && UnterminatedOk(s.calls, s.disk.log.tail, s.lines)
    && (s.proc.Some? ==>
          MemoryOk(s.proc.value.pc, CurrentEntry(s), s.memory, s.published, s.lines, s.behind))
    && (s.proc.Some? ==>
          ProcOk(s.proc.value, s.disk.manifest, s.disk.files, s.memory, |s.lines| + |s.behind|))
    && CallOk(s)
    && AcksOk(s.calls, s.crashes, InCall(s))
    && BoundOk(s.every, |s.lines| + |s.behind|, s.crashes, Between(s.proc))
    && StrandedOk(s.every, Stranded(s.disk.log), |s.behind|, s.crashes, Between(s.proc))
    && EntriesOk(s.calls, Begun(s), s.lines) && EntriesOk(s.calls, Begun(s), s.behind)
    && EntriesOk(s.calls, Begun(s), s.memory) && EntriesOk(s.calls, Begun(s), Covered(s))
    && EntriesOk(s.calls, Begun(s), s.logged) && LoggedOk(s.calls, s.logged)
    && PlacedOk(s.calls, Begun(s), s.jammed, s.lines, Covered(s))
    && (!s.slipped ==> OrderOk(s.logged, s.lines + s.behind, s.published, s.cuts, AtCut(s.proc)))
  }

  lemma InitInv(every: nat)
    requires every >= 1
    ensures Inv(Init(every))
  {
    hide OrderOk, DiskOk;
    InitOrder();
    InitDisk();
  }

  lemma InitOrder()
    ensures OrderOk([], [] + [], [[]], [0], false)
  {
    hide Fold;
    var none: History := [];
    assert none + none == none && none[..0] == none;
  }

  lemma InitDisk()
    ensures DiskOk(None, map[], [[]])
  {
  }

  // ---------------------------------------------------------------- what the steps change

  /** `calls` after some step: old calls keep operation and log state, new ones are not logged. */
  predicate CallsGrow(before: seq<CallRecord>, after: seq<CallRecord>)
  {
    && |before| <= |after|
    && (forall k :: 0 <= k < |before| ==> after[k].op == before[k].op && after[k].logged == before[k].logged)
    && (forall k :: |before| <= k < |after| ==> !after[k].logged)
  }

  lemma EntriesGrow(before: seq<CallRecord>, begun: nat, after: seq<CallRecord>, begunAfter: nat, h: History)
    requires EntriesOk(before, begun, h) && begun <= begunAfter && |before| <= |after|
    requires forall k :: 0 <= k < |before| ==> after[k].op == before[k].op
    ensures EntriesOk(after, begunAfter, h)
  {
  }

  /** Everything said about calls outlasts a change of `calls` that logs nothing. */
  lemma CallsChange(s: State, after: seq<CallRecord>, begun: nat)
    requires Inv(s) && CallsGrow(s.calls, after) && Begun(s) <= begun
    ensures EntriesOk(after, begun, s.lines) && EntriesOk(after, begun, s.behind) && EntriesOk(after, begun, s.memory)
    ensures EntriesOk(after, begun, Covered(s)) && EntriesOk(after, begun, s.logged) && LoggedOk(after, s.logged)
    ensures PlacedOk(after, begun, s.jammed, s.lines, Covered(s))
    ensures UnterminatedOk(after, s.disk.log.tail, s.lines)
  {
    hide DiskOk, LogOk, MemoryOk, ProcOk, AcksOk, BoundOk, OrderOk, CallOk, EntriesOk, Begun, Covered;
    EntriesGrow(s.calls, Begun(s), after, begun, s.lines);
    EntriesGrow(s.calls, Begun(s), after, begun, s.behind);
    EntriesGrow(s.calls, Begun(s), after, begun, s.memory);
    EntriesGrow(s.calls, Begun(s), after, begun, Covered(s));
    EntriesGrow(s.calls, Begun(s), after, begun, s.logged);
  }

  lemma CallsSnoc(calls: seq<CallRecord>, c: CallRecord)
    ensures Unacked(calls + [c]) == Unacked(calls) + if c.acked then 0 else 1
    ensures AckedAreLogged(calls) && (c.acked ==> c.logged) ==> AckedAreLogged(calls + [c])
    ensures !c.logged ==> CallsGrow(calls, calls + [c])
  {
    assert Front(calls + [c]) == calls;
  }

  lemma AckFacts(calls: seq<CallRecord>)
    requires calls != [] && Last(calls).logged && !Last(calls).acked
    ensures Unacked(MarkAcked(calls)) + 1 == Unacked(calls)
    ensures AckedAreLogged(calls) ==> AckedAreLogged(MarkAcked(calls))
    ensures CallsGrow(calls, MarkAcked(calls))
  {
    CallsSnoc(Front(calls), Last(calls).(acked := true));
    CallsSnoc(Front(calls), Last(calls));
    assert calls == Front(calls) + [Last(calls)];
  }

  lemma LogFacts(calls: seq<CallRecord>)
    requires calls != [] && !Last(calls).acked
    ensures Unacked(MarkLogged(calls)) == Unacked(calls)
    ensures AckedAreLogged(calls) ==> AckedAreLogged(MarkLogged(calls))
    ensures |MarkLogged(calls)| == |calls| && Last(MarkLogged(calls)) == Last(calls).(logged := true)
    ensures forall k :: 0 <= k < |calls| - 1 ==> MarkLogged(calls)[k] == calls[k]
  {
    CallsSnoc(Front(calls), Last(calls).(logged := true));
    CallsSnoc(Front(calls), Last(calls));
    assert calls == Front(calls) + [Last(calls)];
  }

  lemma CallKeeps(s: State, op: Op)
    requires Inv(s) && Enabled(s, Call(op))
    ensures Inv(Do(s, Call(op)))
  {
    hide DiskOk, LogOk, OrderOk, EntriesOk, LoggedOk, PlacedOk, UnterminatedOk, AckedAreLogged, Unacked, CallsGrow, Fold;
    CallsSnoc(s.calls, CallRecord(op, false, false));
    CallsChange(s, Do(s, Call(op)).calls, Begun(Do(s, Call(op))));
  }

  lemma AckKeeps(s: State, step: Step)
    requires Inv(s) && Enabled(s, step) && (step.ReturnCall? || step.EndCheckpoint?)
    ensures Inv(Do(s, step))
  {
    hide DiskOk, LogOk, OrderOk, EntriesOk, LoggedOk, PlacedOk, UnterminatedOk, AckedAreLogged, Unacked, CallsGrow,
         MarkAcked, Fold;
    if s.proc.value.call.Some? {
      AckFacts(s.calls);
    } else {
      SameCalls(s.calls);
    }
    AckedLength(s.calls);
    if !s.slipped {
      OrderAtEnd(s.logged, s.lines + s.behind, s.published, s.cuts, AtCut(s.proc));
    }
    CallsChange(s, Do(s, step).calls, Begun(Do(s, step)));
    assert s.memory + [] + [] == s.memory;
  }

  /** When a checkpoint ends nothing is pending. */
  lemma OrderAtEnd(logged: History, pending: History, published: seq<History>, cuts: seq<nat>, atCut: bool)
    requires OrderOk(logged, pending, published, cuts, atCut) && (atCut ==> pending == [])
    ensures OrderOk(logged, pending, published, cuts, false)
  {
    hide Fold;
    assert atCut ==> Last(published) + pending == Last(published);
  }

  lemma SameCalls(calls: seq<CallRecord>)
    ensures CallsGrow(calls, calls)
  {
  }

  lemma AckedLength(calls: seq<CallRecord>)
    ensures |MarkAcked(calls)| == |calls|
  {
  }

  lemma PhaseKeeps(s: State, step: Step)
    requires Inv(s) && Enabled(s, step) && (step.ThresholdCheckpoint? || step.ExplicitCheckpoint?)
    ensures Inv(Do(s, step))
  {
    hide DiskOk, LogOk, OrderOk, EntriesOk, LoggedOk, PlacedOk, UnterminatedOk, AcksOk;
  }

  lemma ApplyKeeps(s: State)
    requires Inv(s) && Enabled(s, ApplyInMemory)
    ensures Inv(Do(s, ApplyInMemory))
  {
    hide DiskOk, LogOk, OrderOk, LoggedOk, PlacedOk, UnterminatedOk, AcksOk, Fold, Apply;
    var e := CurrentEntry(s).value;
    FoldSnoc(s.memory, e);
    assert EntriesOk(s.calls, Begun(s), s.memory + [e]) by {
      assert s.calls[e.call].op == e.op;
    }
  }

  // ---------------------------------------------------------------- appending

  /** A complete line behind a terminated log is readable. */
  lemma AppendPlaced(calls: seq<CallRecord>, jammed: set<nat>, lines: History, covered: History, e: Entry)
    requires calls != [] && e.call == |calls| - 1 && PlacedOk(calls, |calls| - 1, jammed, lines, covered)
    requires !Last(calls).acked
    ensures PlacedOk(MarkLogged(calls), |calls|, jammed, lines + [e], covered)
  {
    LogFacts(calls);
    hide MarkLogged, Holds;
    forall k: nat ensures Holds(lines + [e], k) <==> Holds(lines, k) || k == e.call {
      HoldsConcat(lines, [e], k);
      HoldsOne(e, k);
    }
  }

  /** Behind any other tail it is jammed, and an unterminated record is gone; no completed append is. */
  lemma JamPlaced(calls: seq<CallRecord>, jammed: set<nat>, lines: History, kept: History, covered: History)
    requires calls != [] && PlacedOk(calls, |calls| - 1, jammed, lines, covered) && !Last(calls).acked
    requires EntriesOk(calls, |calls| - 1, lines) && KeptOk(calls, lines, kept)
    ensures PlacedOk(MarkLogged(calls), |calls|, jammed + {|calls| - 1}, kept, covered)
  {
    LogFacts(calls);
    hide MarkLogged;
    forall k: nat | k < |calls| && calls[k].logged && Holds(lines, k) ensures Holds(kept, k) {
      KeptHolds(calls, lines, kept, k);
    }
    forall k: nat | Holds(kept, k) ensures Holds(lines, k) {
      HoldsPrefix(kept, lines, k);
    }
  }

  /** All of `lines`, or all but a last record whose append did not complete. */
  predicate KeptOk(calls: seq<CallRecord>, lines: History, kept: History)
  {
    || kept == lines
    || (lines != [] && kept == Front(lines) && Last(lines).call < |calls| && !calls[Last(lines).call].logged)
  }

  lemma KeptHolds(calls: seq<CallRecord>, lines: History, kept: History, k: nat)
    requires KeptOk(calls, lines, kept) && k < |calls| && calls[k].logged && Holds(lines, k)
    ensures Holds(kept, k)
  {
    var i :| 0 <= i < |lines| && lines[i].call == k;
    assert i < |kept| && kept[i] == lines[i];
  }

  lemma KeptSplits(s: State)
    requires Inv(s)
    ensures Kept(s) + Swallowed(s) == s.lines && KeptOk(s.calls, s.lines, Kept(s))
    ensures !s.disk.log.tail.Terminated? ==> Ops(Kept(s)) == s.disk.log.lines
    ensures s.disk.log.tail.Unterminated? ==> s.behind == []
    ensures s.disk.log.tail.Broken? ==> Swallowed(s) == []
  {
    hide DiskOk, MemoryOk, ProcOk, AcksOk, BoundOk, OrderOk, CallOk, EntriesOk, PlacedOk, LoggedOk;
    if s.disk.log.tail.Unterminated? {
      OpsConcat(Front(s.lines), [Last(s.lines)]);
      assert s.lines == Front(s.lines) + [Last(s.lines)];
      assert Ops(Front(s.lines)) == Front(Readable(s.disk.log));
    }
  }

  lemma LoggedSnoc(calls: seq<CallRecord>, logged: History, e: Entry)
    requires calls != [] && e.call == |calls| - 1 && !Last(calls).acked
    requires LoggedOk(calls, logged) && EntriesOk(calls, |calls| - 1, logged)
    ensures LoggedOk(MarkLogged(calls), logged + [e]) && LoggedOk(calls, logged + [e])
  {
    LogFacts(calls);
    hide MarkLogged, Holds;
    forall k: nat ensures Holds(logged + [e], k) <==> Holds(logged, k) || k == e.call {
      HoldsConcat(logged, [e], k);
      HoldsOne(e, k);
    }
  }

  lemma EntriesSnoc(calls: seq<CallRecord>, begun: nat, h: History, e: Entry)
    requires EntriesOk(calls, begun, h) && e.call < begun && e.call < |calls| && calls[e.call].op == e.op
    ensures EntriesOk(calls, begun, h + [e])
  {
  }

  lemma EntriesConcat(calls: seq<CallRecord>, begun: nat, a: History, b: History)
    ensures EntriesOk(calls, begun, a + b) <==> EntriesOk(calls, begun, a) && EntriesOk(calls, begun, b)
  {
    assert forall i :: 0 <= i < |a| ==> (a + b)[i] == a[i];
    assert forall i :: 0 <= i < |b| ==> (a + b)[|a| + i] == b[i];
  }

  /** One more logged operation at the end of what is pending. */
  lemma OrderSnoc(logged: History, pending: History, published: seq<History>, cuts: seq<nat>, e: Entry)
    requires OrderOk(logged, pending, published, cuts, false)
    ensures OrderOk(logged + [e], pending + [e], published, cuts, false)
  {
    FoldSnoc(logged, e);
    FoldSnoc(Last(published) + pending, e);
    hide Fold;
    assert Last(published) + (pending + [e]) == Last(published) + pending + [e];
    forall n: nat | n <= |logged| ensures (logged + [e])[..n] == logged[..n] {
    }
  }

  /** What the running call knows when its append begins. */
  lemma CalledFacts(s: State)
    requires Inv(s) && s.proc.Some? && s.proc.value.pc.Called? && s.proc.value.call.Some?
    ensures s.calls != [] && Last(s.calls) == CallRecord(s.proc.value.call.value, false, false)
    ensures Begun(s) == |s.calls| - 1 && CurrentEntry(s) == Some(Current(s, s.proc.value.call.value))
    ensures Current(s, s.proc.value.call.value) == Entry(|s.calls| - 1, s.proc.value.call.value)
    ensures s.memory == Covered(s) + s.lines + s.behind
  {
    hide DiskOk, LogOk, ProcOk, AcksOk, BoundOk, OrderOk, EntriesOk, PlacedOk, LoggedOk, UnterminatedOk;
  }

  /** The log after a line behind what was there: the bookkeeping follows it. */
  lemma AppendLog(s: State, op: Op)
    requires Inv(s) && s.proc.Some? && s.proc.value.pc.Called? && s.proc.value.call == Some(op)
    ensures var t := Appended(s, op);
      LogOk(t.disk.log, t.lines, t.behind) && UnterminatedOk(t.calls, t.disk.log.tail, t.lines)
    ensures var t := Appended(s, op); t.lines + t.behind == s.lines + s.behind + [Current(s, op)]
  {
    hide DiskOk, MemoryOk, ProcOk, AcksOk, BoundOk, OrderOk, EntriesOk, PlacedOk, LoggedOk, Fold;
    var e := Current(s, op);
    KeptSplits(s);
    OpsConcat(s.lines, [e]);
    assert Ops([e]) == [op];
    if s.disk.log.tail.Terminated? {
      assert s.lines + [e] + [] == s.lines + [] + [e];
    } else {
      assert Kept(s) + (s.behind + (Swallowed(s) + [e])) == s.lines + s.behind + [e];
    }
  }

  lemma AppendEntries(s: State, op: Op)
    requires Inv(s) && s.proc.Some? && s.proc.value.pc.Called? && s.proc.value.call == Some(op)
    ensures var t, n := Appended(s, op), |s.calls|;
      && EntriesOk(t.calls, n, t.lines) && EntriesOk(t.calls, n, t.behind) && EntriesOk(t.calls, n, t.memory)
      && EntriesOk(t.calls, n, Covered(t)) && EntriesOk(t.calls, n, t.logged) && LoggedOk(t.calls, t.logged)
      && PlacedOk(t.calls, n, t.jammed, t.lines, Covered(t))
  {
    hide DiskOk, LogOk, MemoryOk, ProcOk, AcksOk, BoundOk, OrderOk, EntriesOk, PlacedOk, LoggedOk, UnterminatedOk, CallOk,
         Kept, Swallowed, MarkLogged, AfterWrite, KeptOk;
    var e, n, t := Current(s, op), |s.calls|, Appended(s, op);
    CalledFacts(s);
    KeptSplits(s);
    LogFacts(s.calls);
    EntriesConcat(s.calls, n - 1, Kept(s), Swallowed(s));
    EntriesGrow(s.calls, n - 1, t.calls, n, s.lines);
    EntriesGrow(s.calls, n - 1, t.calls, n, Kept(s));
    EntriesGrow(s.calls, n - 1, t.calls, n, Swallowed(s));
    EntriesGrow(s.calls, n - 1, t.calls, n, s.behind);
    EntriesGrow(s.calls, n - 1, t.calls, n, s.memory);
    EntriesGrow(s.calls, n - 1, t.calls, n, Covered(s));
    EntriesGrow(s.calls, n - 1, t.calls, n, s.logged);
    EntriesSnoc(t.calls, n, s.lines, e);
    EntriesSnoc(t.calls, n, Swallowed(s), e);
    EntriesConcat(t.calls, n, s.behind, Swallowed(s) + [e]);
    EntriesSnoc(t.calls, n, s.logged, e);
    LoggedSnoc(s.calls, s.logged, e);
    if s.disk.log.tail.Terminated? {
      AppendPlaced(s.calls, s.jammed, s.lines, Covered(s), e);
    } else {
      JamPlaced(s.calls, s.jammed, s.lines, Kept(s), Covered(s));
    }
  }

  lemma AppendKeeps(s: State)
    requires Inv(s) && Enabled(s, Append)
    ensures Inv(Do(s, Append))
  {
    hide DiskOk, LogOk, OrderOk, EntriesOk, PlacedOk, LoggedOk, UnterminatedOk, Fold, Kept, Swallowed, Unacked,
         AckedAreLogged, AfterWrite, Appended, MarkLogged;
    var op := s.proc.value.call.value;
    var e := Current(s, op);
    AppendRest(s, op);
    CalledFacts(s);
    AppendLog(s, op);
    AppendEntries(s, op);
    LogFacts(s.calls);
    if !s.slipped {
      OrderSnoc(s.logged, s.lines + s.behind, s.published, s.cuts, e);
    }
    assert Covered(s) + s.lines + s.behind == Covered(s) + (s.lines + s.behind);
    var t := Appended(s, op);
    AppendMemory(e, s.memory, s.published, s.lines + s.behind, t.lines, t.behind);
    WriteStrands(s, op, All);
    AppendBehind(s, op);
    hide Current, MemoryOk, Stranded, Leftovers;
  }

  lemma AppendBehind(s: State, op: Op)
    ensures var t := Appended(s, op);
      && |t.behind| == |s.behind| + (if s.disk.log.tail.Terminated? then 0 else |Swallowed(s)| + 1)
      && t.disk.log == AfterWrite(s.disk.log, op, All)
  {
  }

  lemma AppendRest(s: State, op: Op)
    ensures var t := Appended(s, op);
      && t.proc == s.proc && t.every == s.every && t.crashes == s.crashes && t.slipped == s.slipped
      && t.disk.manifest == s.disk.manifest && t.disk.files == s.disk.files && t.memory == s.memory
      && t.published == s.published && t.cuts == s.cuts && Covered(t) == Covered(s)
      && t.calls == MarkLogged(s.calls) && t.logged == s.logged + [Current(s, op)]
  {
  }

  /** How a write changes what is stranded, beside the records it puts behind the broken line. */
  lemma WriteStrands(s: State, op: Op, cut: Cut)
    requires Inv(s) && !cut.Nothing?
    ensures var after, swallowed := Stranded(AfterWrite(s.disk.log, op, cut)), |Swallowed(s)|;
      && swallowed <= 1 && (swallowed == 1 ==> s.behind == [])
      && after <= Stranded(s.disk.log) + swallowed + 1
      && (s.disk.log.tail.Terminated? && cut.All? ==> after == Stranded(s.disk.log))
  {
    hide DiskOk, MemoryOk, ProcOk, AcksOk, BoundOk, OrderOk, EntriesOk, PlacedOk, LoggedOk, StrandedOk, CallOk, Fold;
  }

  lemma AppendMemory(e: Entry, memory: History, published: seq<History>, was: History, lines: History, behind: History)
    requires published != [] && memory == Last(published) + was && lines + behind == was + [e]
    ensures MemoryOk(InLog, Some(e), memory, published, lines, behind)
    ensures |lines| + |behind| == |was| + 1
  {
    assert Last(published) + lines + behind == Last(published) + (lines + behind);
    assert |lines + behind| == |was + [e]|;
  }

  // ---------------------------------------------------------------- dying

  /** What is left when the process dies, given the rest of the invariant. */
  lemma DiedKeeps(s: State)
    requires s.proc.Some? && DiskOk(s.disk.manifest, s.disk.files, s.published)
    requires LogOk(s.disk.log, s.lines, s.behind) && UnterminatedOk(s.calls, s.disk.log.tail, s.lines)
    requires AcksOk(s.calls, s.crashes, true) && BoundOk(s.every, |s.lines| + |s.behind|, s.crashes, false)
    requires StrandedOk(s.every, Stranded(s.disk.log), 0, s.crashes + 1, true)
    requires EntriesOk(s.calls, |s.calls|, s.lines) && EntriesOk(s.calls, |s.calls|, Covered(s))
    requires EntriesOk(s.calls, |s.calls|, s.logged) && LoggedOk(s.calls, s.logged)
    requires PlacedOk(s.calls, |s.calls|, s.jammed, s.lines, Covered(s))
    requires !s.slipped && Harmless(s) ==> OrderOk(s.logged, s.lines, s.published, s.cuts, false)
    ensures Inv(Died(s))
  {
    hide DiskOk, OrderOk, PlacedOk, LoggedOk, UnterminatedOk, Unacked, Ops, Harmless, StrandedOk;
    assert s.lines + [] == s.lines;
  }

  /** A crash adds at most what the process had stranded, and one piece. */
  lemma CrashStrands(every: nat, stranded: nat, behind: nat, crashes: nat, more: nat)
    requires every >= 1 && stranded <= behind + more + Leftovers(every, crashes) && behind + more <= every + 2
    ensures StrandedOk(every, stranded, 0, crashes + 1, true)
  {
    assert Leftovers(every, crashes + 1) == Leftovers(every, crashes) + (every + 2);
  }

  lemma UndisturbedByNothing(ops: seq<Op>)
    ensures Undisturbed(ops, [])
  {
    assert ops + [] == ops;
  }

  /** Dying between manifest and truncate: the log is replayed over the snapshot that contains it. */
  lemma HarmlessCommitted(before: History, lines: History, behind: History)
    requires Undisturbed(Ops(lines), Ops(behind))
    ensures Fold(before + lines + behind + lines) == Fold(before + lines + behind)
  {
    hide Undisturbed;
    FoldConcat(before + lines + behind, lines);
    OpsConcat(before, lines);
    OpsConcat(before + lines, behind);
    StaleReplayIff(Ops(before), Ops(lines), Ops(behind));
  }

  /** After a harmless crash, snapshot and readable log still rebuild what was logged. */
  lemma HarmlessOrder(s: State)
    requires Inv(s) && s.proc.Some? && !s.slipped && Harmless(s)
    ensures OrderOk(s.logged, s.lines, s.published, s.cuts, false)
  {
    hide DiskOk, LogOk, ProcOk, EntriesOk, PlacedOk, LoggedOk, UnterminatedOk, AcksOk, BoundOk, StrandedOk, CallOk, Fold,
         Undisturbed;
    if s.proc.value.pc.Committed? {
      if s.behind == [] {
        UndisturbedByNothing(Ops(s.lines));
        assert Ops(s.behind) == [];
      }
      HarmlessCommitted(Last(Front(s.published)), s.lines, s.behind);
    } else {
      assert s.lines + s.behind == s.lines;
      OrderAtEnd(s.logged, s.lines, s.published, s.cuts, AtCut(s.proc));
    }
  }

  lemma CrashKeeps(s: State)
    requires Inv(s) && Enabled(s, Crash)
    ensures Inv(Do(s, Crash))
  {
    hide DiskOk, LogOk, MemoryOk, ProcOk, EntriesOk, PlacedOk, LoggedOk, UnterminatedOk, Unacked, AckedAreLogged, Fold, Died,
         OrderOk, Harmless, Leftovers;
    SameCalls(s.calls);
    CallsChange(s, s.calls, |s.calls|);
    CrashStrands(s.every, Stranded(s.disk.log), |s.behind|, s.crashes, 0);
    if !s.slipped && Harmless(s) {
      HarmlessOrder(s);
    }
    DiedKeeps(s);
  }

  /** A torn line: a record whose newline is missing, or a fragment, or one more piece of a broken line. */
  lemma TornLog(s: State, op: Op, cut: Cut)
    requires Inv(s) && s.proc.Some? && s.proc.value.pc.Called? && s.proc.value.call == Some(op)
    requires cut.Fragment? || cut.AllButNewline?
    ensures var t := Torn(s, op, cut);
      LogOk(t.disk.log, t.lines, t.behind) && UnterminatedOk(t.calls, t.disk.log.tail, t.lines)
    ensures var t := Torn(s, op, cut);
      t.lines + t.behind == (if s.disk.log.tail.Terminated? && cut.AllButNewline?
                             then s.lines + s.behind + [Current(s, op)] else s.lines + s.behind)
  {
    hide DiskOk, MemoryOk, ProcOk, AcksOk, BoundOk, OrderOk, EntriesOk, PlacedOk, LoggedOk, Fold;
    var e := Current(s, op);
    CalledFacts(s);
    KeptSplits(s);
    OpsConcat(s.lines, [e]);
    assert Ops([e]) == [op];
    if s.disk.log.tail.Terminated? {
      assert s.lines + [e] + [] == s.lines + [] + [e];
    } else {
      assert Kept(s) + (s.behind + Swallowed(s)) == s.lines + s.behind;
    }
  }

  /** The torn call itself has no place to keep; the others stay where they are. */
  lemma TornPlaced(calls: seq<CallRecord>, jammed: set<nat>, lines: History, after: History, covered: History, e: Entry)
    requires calls != [] && e.call == |calls| - 1 && PlacedOk(calls, |calls| - 1, jammed, lines, covered)
    requires KeptOk(calls, lines, after) || after == lines + [e]
    ensures PlacedOk(calls, |calls|, jammed, after, covered)
  {
    forall k: nat | k < |calls| && calls[k].logged && Holds(lines, k) ensures Holds(after, k) {
      if after == lines + [e] {
        HoldsConcat(lines, [e], k);
      } else {
        KeptHolds(calls, lines, after, k);
      }
    }
    forall k: nat | k in jammed ensures !Holds(after, k) {
      if after == lines + [e] {
        HoldsConcat(lines, [e], k);
        HoldsOne(e, k);
      } else if Holds(after, k) {
        HoldsPrefix(after, lines, k);
      }
    }
  }

  lemma TornEntries(s: State, op: Op, cut: Cut)
    requires Inv(s) && s.proc.Some? && s.proc.value.pc.Called? && s.proc.value.call == Some(op)
    requires cut.Fragment? || cut.AllButNewline?
    ensures var t, n := Torn(s, op, cut), |s.calls|;
      && t.calls == s.calls && EntriesOk(s.calls, n, t.lines) && EntriesOk(s.calls, n, Covered(t))
      && EntriesOk(s.calls, n, t.logged) && LoggedOk(s.calls, t.logged)
      && PlacedOk(s.calls, n, t.jammed, t.lines, Covered(t))
  {
    hide DiskOk, LogOk, MemoryOk, ProcOk, AcksOk, BoundOk, OrderOk, EntriesOk, PlacedOk, LoggedOk, UnterminatedOk, CallOk,
         Kept, Swallowed, AfterWrite, KeptOk;
    var e, n := Current(s, op), |s.calls|;
    CalledFacts(s);
    KeptSplits(s);
    EntriesConcat(s.calls, n - 1, Kept(s), Swallowed(s));
    EntriesGrow(s.calls, n - 1, s.calls, n, s.lines);
    EntriesGrow(s.calls, n - 1, s.calls, n, Kept(s));
    EntriesGrow(s.calls, n - 1, s.calls, n, Covered(s));
    EntriesGrow(s.calls, n - 1, s.calls, n, s.logged);
    EntriesSnoc(s.calls, n, s.lines, e);
    EntriesSnoc(s.calls, n, s.logged, e);
    LoggedSnoc(s.calls, s.logged, e);
    LinesKept(s.calls, s.lines);
    TornPlaced(s.calls, s.jammed, s.lines, Torn(s, op, cut).lines, Covered(s), e);
  }

  lemma LinesKept(calls: seq<CallRecord>, lines: History)
    ensures KeptOk(calls, lines, lines)
  {
  }

  lemma TornKeeps(s: State, cut: Cut)
    requires Inv(s) && Enabled(s, TornAppend(cut))
    ensures Inv(Do(s, TornAppend(cut)))
  {
    hide DiskOk, LogOk, OrderOk, EntriesOk, PlacedOk, LoggedOk, UnterminatedOk, Fold, Kept, Swallowed, Unacked,
         AckedAreLogged, AfterWrite, MemoryOk;
    var op := s.proc.value.call.value;
    var e, t := Current(s, op), Torn(s, op, cut);
    CalledFacts(s);
    TornLog(s, op, cut);
    TornEntries(s, op, cut);
    if !s.slipped && Harmless(t) {
      OrderSnoc(s.logged, s.lines + s.behind, s.published, s.cuts, e);
      assert t.lines + t.behind == t.lines;
    }
    assert |t.lines + t.behind| <= |s.lines + s.behind| + 1;
    WriteStrands(s, op, cut);
    TornRest(s, op, cut);
    hide Torn, Current, Harmless, Stranded, Leftovers;
    CrashStrands(s.every, Stranded(t.disk.log), |s.behind|, s.crashes, |Swallowed(s)| + 1);
    DiedKeeps(t);
  }

  lemma TornRest(s: State, op: Op, cut: Cut)
    ensures var t := Torn(s, op, cut);
      && t.proc == s.proc && t.every == s.every && t.crashes == s.crashes && t.slipped == s.slipped
      && t.disk.manifest == s.disk.manifest && t.disk.files == s.disk.files
      && t.disk.log == AfterWrite(s.disk.log, op, cut)
      && t.published == s.published && t.cuts == s.cuts
  {
  }

  // ---------------------------------------------------------------- snapshots and the manifest

  /** A file newer than the manifest may come, change, or become the next version. */
  lemma NewFile(manifest: Option<ManifestState>, files: map<nat, File>, published: seq<History>, content: File)
    requires DiskOk(manifest, files, published)
    ensures var v := if manifest.Some? then manifest.value.version else 0;
      DiskOk(manifest, files[v + 1 := content], published)
  {
    hide Fold;
  }

  lemma UnlinkFiles(manifest: Option<ManifestState>, files: map<nat, File>, published: seq<History>, f: nat)
    requires DiskOk(manifest, files, published)
    requires var v := if manifest.Some? then manifest.value.version else 0; Stale(f, v)
    ensures DiskOk(manifest, files - {f}, published)
  {
    hide Fold;
  }

  lemma WriteKeeps(s: State, step: Step)
    requires Inv(s) && Enabled(s, step) && (step.BeginWrite? || step.FinishWrite?)
    ensures Inv(Do(s, step))
  {
    hide DiskOk, LogOk, OrderOk, EntriesOk, PlacedOk, LoggedOk, UnterminatedOk, AcksOk, Fold;
    NewFile(s.disk.manifest, s.disk.files, s.published,
            if step.BeginWrite? then Partial else Complete(s.proc.value.index));
  }

  lemma UnlinkKeeps(s: State, f: nat)
    requires Inv(s) && Enabled(s, Unlink(f))
    ensures Inv(Do(s, Unlink(f)))
  {
    hide DiskOk, LogOk, OrderOk, EntriesOk, PlacedOk, LoggedOk, UnterminatedOk, AcksOk, Fold;
    UnlinkFiles(s.disk.manifest, s.disk.files, s.published, f);
  }

  lemma CommitFiles(manifest: Option<ManifestState>, files: map<nat, File>, published: seq<History>, memory: History)
    requires DiskOk(manifest, files, published)
    requires var v := if manifest.Some? then manifest.value.version else 0;
      v + 1 in files && files[v + 1] == Complete(Fold(memory))
    requires published != [] && Last(published) <= memory
    ensures var v := if manifest.Some? then manifest.value.version else 0;
      && DiskOk(Some(ManifestState(v + 1, v + 1)), files, published + [memory])
      && forall f :: f in files ==> f <= v + 1
  {
    hide Fold;
    var v := if manifest.Some? then manifest.value.version else 0;
    var next := published + [memory];
    forall i, j | 0 <= i <= j < |next| ensures next[i] <= next[j] {
      if j == |published| && i < j {
        assert published[i] <= published[|published| - 1];
      }
    }
  }

  lemma CommitOrder(logged: History, pending: History, published: seq<History>, cuts: seq<nat>, memory: History)
    requires OrderOk(logged, pending, published, cuts, false) && memory == Last(published) + pending
    ensures OrderOk(logged, pending, published + [memory], cuts + [|logged|], true)
  {
    hide Fold;
    assert logged[..|logged|] == logged;
  }

  lemma CommitPlaced(calls: seq<CallRecord>, begun: nat, jammed: set<nat>, lines: History, covered: History, memory: History)
    requires PlacedOk(calls, begun, jammed, lines, covered) && covered <= memory
    ensures PlacedOk(calls, begun, jammed, lines, memory)
  {
    forall k: nat | Holds(covered, k) ensures Holds(memory, k) {
      HoldsPrefix(covered, memory, k);
    }
  }

  lemma CommitKeeps(s: State)
    requires Inv(s) && Enabled(s, Commit)
    ensures Inv(Do(s, Commit))
  {
    hide DiskOk, LogOk, OrderOk, EntriesOk, PlacedOk, LoggedOk, UnterminatedOk, AcksOk, Fold;
    assert Last(s.published) + s.lines + s.behind == Last(s.published) + (s.lines + s.behind);
    CommitFiles(s.disk.manifest, s.disk.files, s.published, s.memory);
    CommitPlaced(s.calls, Begun(s), s.jammed, s.lines, Covered(s), s.memory);
    if !s.slipped {
      CommitOrder(s.logged, s.lines + s.behind, s.published, s.cuts, s.memory);
    }
    assert Front(s.published + [s.memory]) == s.published;
  }

  lemma TruncatePlaced(calls: seq<CallRecord>, begun: nat, jammed: set<nat>, before: History, lines: History, behind: History)
    requires PlacedOk(calls, begun, jammed, lines, before + lines + behind)
    ensures PlacedOk(calls, begun, jammed, [], before + lines + behind)
  {
    forall k: nat | Holds(lines, k) ensures Holds(before + lines + behind, k) {
      HoldsConcat(before, lines, k);
      HoldsConcat(before + lines, behind, k);
    }
  }

  lemma TruncateOrder(logged: History, pending: History, published: seq<History>, cuts: seq<nat>)
    requires OrderOk(logged, pending, published, cuts, true)
    ensures OrderOk(logged, [], published, cuts, true)
  {
    hide Fold;
    assert logged[|logged|..] == [];
  }

  lemma TruncateKeeps(s: State)
    requires Inv(s) && Enabled(s, Truncate)
    ensures Inv(Do(s, Truncate))
  {
    hide DiskOk, OrderOk, PlacedOk, LoggedOk, AcksOk, Fold;
    TruncatePlaced(s.calls, Begun(s), s.jammed, Last(Front(s.published)), s.lines, s.behind);
    if !s.slipped {
      TruncateOrder(s.logged, s.lines + s.behind, s.published, s.cuts);
    }
    var none: History := [];
    assert Ops(none) == [] && none + none == none;
    assert Covered(s) == Last(Front(s.published)) + s.lines + s.behind;
  }

  // ---------------------------------------------------------------- restarting

  /** Recovery rebuilds the fold of the snapshot's history and the readable log. */
  lemma RecoverIsFold(s: State)
    requires Inv(s)
    ensures Recover(s.disk) == Some(Fold(Recovered(s)))
  {
    hide MemoryOk, ProcOk, AcksOk, BoundOk, OrderOk, EntriesOk, PlacedOk, LoggedOk, UnterminatedOk, CallOk;
    var v := ManifestVersion(s.disk);
    FoldConcat(Covered(s), s.lines);
    if s.disk.manifest.Some? {
      assert !Stale(v, v);
    } else {
      assert Ops([]) == [];
    }
  }

  lemma RestartKeeps(s: State)
    requires Inv(s) && Enabled(s, Restart)
    ensures Inv(Do(s, Restart))
  {
    hide OrderOk, EntriesOk, PlacedOk, LoggedOk, UnterminatedOk, AcksOk, Fold, Recover, FilesOk;
    RecoverIsFold(s);
    EntriesConcat(s.calls, Begun(s), Covered(s), s.lines);
    assert Covered(s) + s.lines + [] == Covered(s) + s.lines;
  }

  /** Every step keeps the invariant. */
  lemma StepKeeps(s: State, step: Step)
    requires Inv(s) && Enabled(s, step)
    ensures Inv(Do(s, step)) && Do(s, step).every == s.every
  {
    hide Inv, Do, Enabled;
    EveryStays(s, step);
    match step
    case Restart => RestartKeeps(s);
    case Crash => CrashKeeps(s);
    case Call(op) => CallKeeps(s, op);
    case Append => AppendKeeps(s);
    case TornAppend(cut) => TornKeeps(s, cut);
    case ApplyInMemory => ApplyKeeps(s);
    case ReturnCall => AckKeeps(s, step);
    case ThresholdCheckpoint => PhaseKeeps(s, step);
    case ExplicitCheckpoint => PhaseKeeps(s, step);
    case BeginWrite => WriteKeeps(s, step);
    case FinishWrite => WriteKeeps(s, step);
    case Commit => CommitKeeps(s);
    case Truncate => TruncateKeeps(s);
    case Unlink(f) => UnlinkKeeps(s, f);
    case EndCheckpoint => AckKeeps(s, step);
  }

  lemma EveryStays(s: State, step: Step)
    requires Enabled(s, step)
    ensures Do(s, step).every == s.every
  {
  }

  lemma {:induction false} RunInv(every: nat, steps: seq<Step>)
    requires every >= 1 && Legal(every, steps)
    ensures Inv(Exec(every, steps))
    ensures Exec(every, steps).every == every
  {
    hide Inv, Do, Enabled;
    if steps == [] {
      InitInv(every);
    } else {
      RunInv(every, Front(steps));
      StepKeeps(Exec(every, Front(steps)), Last(steps));
    }
  }

  // ---------------------------------------------------------------- what recovery holds

  /** What a recovery started now rebuilds holds the operation of this call. */
  predicate RecoveredCall(s: State, call: nat)
  {
    Holds(Recovered(s), call)
  }

  /** The call was acknowledged after its line went behind a broken one, and no snapshot covers it. */
  predicate Exposed(s: State, call: nat)
  {
    call in s.jammed && !Holds(Covered(s), call)
  }

  lemma PlacedIff(s: State, k: nat)
    requires Inv(s) && k < |s.calls| && s.calls[k].acked
    ensures RecoveredCall(s, k) <==> !Exposed(s, k)
  {
    hide DiskOk, LogOk, MemoryOk, ProcOk, BoundOk, OrderOk, EntriesOk, LoggedOk, UnterminatedOk, CallOk, Unacked;
    HoldsConcat(Covered(s), s.lines, k);
  }

  /**
   Nothing acknowledged is lost, and exactly when.  Over every run, with crashes between any
   two effects and in the middle of appends: recovery rebuilds the fold of its recovered
   history, and that holds every acknowledged call if and only if none was appended to a log
   that ended in a broken or unterminated line without a snapshot covering it since.  Held
   means that the operation is among those rebuilt; its effect can still be undone by older
   records replayed over it, of which `CrashCosts` and `CrashRecovery` speak.
   */
  lemma {:induction false} AckedSurviveIff(every: nat, steps: seq<Step>)
    requires every >= 1 && Legal(every, steps)
    ensures var s := Exec(every, steps);
      && Recover(s.disk) == Some(Fold(Recovered(s)))
      && (forall k :: 0 <= k < |s.calls| && s.calls[k].acked ==> (RecoveredCall(s, k) <==> !Exposed(s, k)))
      && ((forall k :: 0 <= k < |s.calls| && s.calls[k].acked ==> RecoveredCall(s, k)) <==>
          (forall k :: 0 <= k < |s.calls| && s.calls[k].acked ==> !Exposed(s, k)))
  {
    hide Inv, Exec, Legal, RecoveredCall, Exposed, Fold;
    RunInv(every, steps);
    var s := Exec(every, steps);
    RecoverIsFold(s);
    forall k | 0 <= k < |s.calls| && s.calls[k].acked ensures RecoveredCall(s, k) <==> !Exposed(s, k) {
      PlacedIff(s, k);
    }
  }

  /** The call's operation is neither on the disk nor in memory. */
  predicate Gone(s: State, call: nat)
  {
    && !Holds(s.lines, call) && !Holds(s.behind, call) && !Holds(s.memory, call) && !Holds(Covered(s), call)
  }

  /** The call is not one that has been logged and is about to be applied. */
  predicate NotInLog(s: State, call: nat)
  {
    InCall(s) && s.proc.value.pc.InLog? ==> Current(s, s.proc.value.call.value).call != call
  }

  lemma GoneNotInLog(s: State, k: nat)
    requires Inv(s) && Gone(s, k)
    ensures NotInLog(s, k)
  {
    hide DiskOk, LogOk, ProcOk, AcksOk, BoundOk, OrderOk, EntriesOk, PlacedOk, LoggedOk, UnterminatedOk, CallOk, Holds;
    if InCall(s) && s.proc.value.pc.InLog? {
      var e := Current(s, s.proc.value.call.value);
      HoldsConcat(s.memory, [e], k);
      HoldsOne(e, k);
      HoldsConcat(Covered(s), s.lines, k);
      HoldsConcat(Covered(s) + s.lines, s.behind, k);
    }
  }

  lemma GoneStep(s: State, step: Step, k: nat)
    requires Enabled(s, step) && s.published != [] && Gone(s, k) && k < Begun(s) && NotInLog(s, k)
    ensures Gone(Do(s, step), k) && k < Begun(Do(s, step))
  {
    hide Holds, AfterWrite, Apply, Recover, AckedAreLogged, Stale;
    var e := if s.proc.Some? && s.proc.value.call.Some? then Current(s, s.proc.value.call.value) else Entry(k + 1, Remove(0));
    HoldsOne(e, k);
    HoldsConcat(s.lines, [e], k);
    HoldsConcat(s.memory, [e], k);
    HoldsConcat(Covered(s), s.lines, k);
    HoldsConcat(s.behind, Swallowed(s) + [e], k);
    HoldsConcat(Swallowed(s), [e], k);
    HoldsConcat(s.behind, Swallowed(s), k);
    GoneKept(s, k);
    HoldsNothing(k);
  }

  lemma HoldsNothing(k: nat)
    ensures !Holds([], k)
  {
  }

  lemma GoneKept(s: State, k: nat)
    requires !Holds(s.lines, k)
    ensures !Holds(Kept(s), k) && !Holds(Swallowed(s), k)
  {
    if s.disk.log.tail.Unterminated? && s.lines != [] {
      assert s.lines == Front(s.lines) + [Last(s.lines)];
      HoldsConcat(Front(s.lines), [Last(s.lines)], k);
    } else {
      HoldsNothing(k);
    }
  }

  lemma PublishedSome(s: State)
    requires Inv(s)
    ensures s.published != []
  {
  }

  /** A call that a recovery does not find once the process is dead stays lost in every later state. */
  lemma {:induction false} LostForGood(every: nat, steps: seq<Step>, more: seq<Step>, k: nat)
    requires every >= 1 && Legal(every, steps + more) && Legal(every, steps)
    requires Exec(every, steps).proc.None? && k < |Exec(every, steps).calls| && !RecoveredCall(Exec(every, steps), k)
    ensures Gone(Exec(every, steps + more), k) && k < Begun(Exec(every, steps + more))
    ensures !RecoveredCall(Exec(every, steps + more), k)
    decreases more
  {
    hide Inv, Do, Enabled, Begun, NotInLog;
    var s := Exec(every, steps + more);
    if more == [] {
      assert steps + more == steps;
      RunInv(every, steps);
      DeadIsGone(s, k);
    } else {
      assert Front(steps + more) == steps + Front(more) && Last(steps + more) == Last(more);
      LostForGood(every, steps, Front(more), k);
      RunInv(every, steps + Front(more));
      PublishedSome(Exec(every, steps + Front(more)));
      GoneNotInLog(Exec(every, steps + Front(more)), k);
      GoneStep(Exec(every, steps + Front(more)), Last(more), k);
    }
    HoldsConcat(Covered(s), s.lines, k);
  }

  lemma DeadIsGone(s: State, k: nat)
    requires Inv(s) && s.proc.None? && k < |s.calls| && !RecoveredCall(s, k)
    ensures Gone(s, k) && k < Begun(s)
  {
    hide DiskOk, LogOk, MemoryOk, ProcOk, BoundOk, OrderOk, EntriesOk, LoggedOk, UnterminatedOk, AcksOk, PlacedOk;
    HoldsConcat(Covered(s), s.lines, k);
  }

  /**
   Crash-recovery refinement.  As long as every crash so far was harmless, and one now would
   be, recovery rebuilds the fold of exactly the logged operations, once each and in order;
   every acknowledged call is among them, and calls that did not return number at most one
   per crash plus the one in flight.  The live memory is that same fold, but for the one
   operation logged and not yet applied.
   */
  lemma {:induction false} CrashRecovery(every: nat, steps: seq<Step>)
    requires every >= 1 && Legal(every, steps)
    ensures var s := Exec(every, steps);
      && (s.proc.None? ==> Enabled(s, Restart))
      && LoggedOk(s.calls, s.logged) && AckedAreLogged(s.calls)
      && Unacked(s.calls) <= s.crashes + (if InCall(s) then 1 else 0)
      && (!s.slipped && Harmless(s) ==> Recover(s.disk) == Some(Fold(s.logged)))
      && (!s.slipped && s.proc.Some? && !s.proc.value.pc.InLog? ==> s.proc.value.index == Fold(s.logged))
  {
    hide Exec, Legal, Fold, DiskOk, LogOk, EntriesOk, LoggedOk, UnterminatedOk, PlacedOk, OrderOk, BoundOk, Unacked,
         AckedAreLogged, Recover, Harmless, StrandedOk;
    var s := Exec(every, steps);
    RunInv(every, steps);
    RecoverIsFold(s);
    if !s.slipped {
      InvOrder(s);
    }
  }

  lemma InvOrder(s: State)
    requires Inv(s) && !s.slipped
    ensures Harmless(s) ==> Fold(Recovered(s)) == Fold(s.logged)
    ensures s.proc.Some? && !s.proc.value.pc.InLog? ==> Fold(s.memory) == Fold(s.logged)
  {
    hide LogOk, EntriesOk, LoggedOk, UnterminatedOk, PlacedOk, BoundOk, AcksOk, Fold, DiskOk, Harmless, StrandedOk;
    PublishedSome(s);
    if s.proc.None? {
      assert s.lines + s.behind == s.lines;
    } else {
      if Harmless(s) {
        HarmlessOrder(s);
      }
      if !AtCut(s.proc) {
        assert Last(s.published) + s.lines + s.behind == Last(s.published) + (s.lines + s.behind);
      }
    }
  }

  predicate NoTornAppend(steps: seq<Step>)
  {
    forall i :: 0 <= i < |steps| ==> !steps[i].TornAppend?
  }

  /** The log is terminated, no append ever met another one, and no crash did harm. */
  predicate LogIntact(s: State)
  {
    s.disk.log.tail.Terminated? && s.jammed == {} && !s.slipped && s.behind == []
  }

  lemma IntactStep(s: State, step: Step)
    requires LogIntact(s) && Enabled(s, step) && !step.TornAppend?
    ensures LogIntact(Do(s, step))
  {
    hide Recover, Stale, Apply, Undisturbed, MarkLogged, MarkAcked, Ops, Covered;
  }

  /** While appends are all or nothing the log is never broken, and every crash is harmless. */
  lemma {:induction false} WholeAppendsKeepLog(every: nat, steps: seq<Step>)
    requires Legal(every, steps) && NoTornAppend(steps)
    ensures LogIntact(Exec(every, steps))
  {
    hide Do, Enabled;
    if steps != [] {
      assert forall i :: 0 <= i < |Front(steps)| ==> Front(steps)[i] == steps[i];
      WholeAppendsKeepLog(every, Front(steps));
      hide LogIntact;
      IntactStep(Exec(every, Front(steps)), Last(steps));
    }
  }

  /**
   Nothing is lost while appends are all or nothing.  Over every run of calls, checkpoints,
   crashes between any two effects and restarts, in which no crash cuts an append short:
   recovery rebuilds the fold of exactly the logged operations in order, every acknowledged
   call among them, and at most one unacknowledged call per crash plus the one in flight.
   */
  lemma {:induction false} WholeAppendsRecover(every: nat, steps: seq<Step>)
    requires every >= 1 && Legal(every, steps) && NoTornAppend(steps)
    ensures var s := Exec(every, steps);
      && Recover(s.disk) == Some(Fold(s.logged)) && LoggedOk(s.calls, s.logged)
      && (forall k :: 0 <= k < |s.calls| && s.calls[k].acked ==> s.calls[k].logged && RecoveredCall(s, k))
      && Unacked(s.calls) <= s.crashes + (if InCall(s) then 1 else 0)
      && (s.proc.Some? && !s.proc.value.pc.InLog? ==> s.proc.value.index == Fold(s.logged))
  {
    hide Exec, Legal, Fold, Recover, LoggedOk, Unacked, Holds, RecoveredCall, NoTornAppend;
    WholeAppendsKeepLog(every, steps);
    CrashRecovery(every, steps);
    AckedSurviveIff(every, steps);
  }

  /**
   What a crash would cost now, in any state.  Before the manifest is flipped, the records
   behind a broken line are missing from what a recovery rebuilds, and nothing else is.
   Between the flip and the truncate they are in the snapshot, but the readable part of the
   log is replayed over it: memory is recovered if and only if those records undid nothing of
   that part.  Between an append and its application, recovery has what memory is about to.
   */
  lemma {:induction false} CrashCosts(every: nat, steps: seq<Step>)
    requires every >= 1 && Legal(every, steps) && Exec(every, steps).proc.Some?
    ensures var s := Exec(every, steps);
      var p := s.proc.value;
      && Recover(s.disk).Some?
      && (!p.pc.Committed? && !p.pc.InLog? ==> p.index == Replay(Recover(s.disk).value, Ops(s.behind)))
      && (p.pc.InLog? ==>
            p.call.Some? && Apply(p.index, p.call.value) == Replay(Recover(s.disk).value, Ops(s.behind)))
      && (p.pc.Committed? ==>
            (Recover(s.disk) == Some(p.index) <==> Undisturbed(Ops(s.lines), Ops(s.behind))))
  {
    hide Exec, Legal, LogOk, EntriesOk, LoggedOk, UnterminatedOk, PlacedOk, OrderOk, BoundOk, AcksOk, DiskOk, Fold,
         Recover, Undisturbed, StrandedOk, Replay, Apply;
    var s := Exec(every, steps);
    RunInv(every, steps);
    RecoverIsFold(s);
    FoldConcat(Recovered(s), s.behind);
    FoldConcat(Covered(s), s.lines);
    var none: History := [];
    assert s.proc.value.pc.Pruning? ==> Covered(s) + none + none == Covered(s);
    if s.proc.value.pc.Committed? {
      var before := Last(Front(s.published));
      OpsConcat(before, s.lines);
      OpsConcat(before + s.lines, s.behind);
      StaleReplayIff(Ops(before), Ops(s.lines), Ops(s.behind));
      FoldIs(s.memory);
    } else if s.proc.value.pc.InLog? {
      FoldSnoc(s.memory, CurrentEntry(s).value);
    }
  }

  lemma FoldIs(h: History)
    ensures Fold(h) == Replay(map[], Ops(h))
  {
  }

  /** Recovery never replays more than the checkpoint threshold and one record per crash. */
  lemma {:induction false} WalBound(every: nat, steps: seq<Step>)
    requires every >= 1 && Legal(every, steps)
    ensures |Readable(Exec(every, steps).disk.log)| <= every + Exec(every, steps).crashes
  {
    hide Exec, Legal, DiskOk, MemoryOk, ProcOk, CallOk, AcksOk, EntriesOk, LoggedOk, PlacedOk, OrderOk, UnterminatedOk;
    RunInv(every, steps);
  }

  /** The file itself holds no more than that and, per crash, what one process can leave stranded. */
  lemma {:induction false} LogExtentBound(every: nat, steps: seq<Step>)
    requires every >= 1 && Legal(every, steps)
    ensures Extent(Exec(every, steps).disk.log) <= every + (every + 3) * Exec(every, steps).crashes
  {
    hide Exec, Legal, DiskOk, MemoryOk, ProcOk, CallOk, AcksOk, EntriesOk, LoggedOk, PlacedOk, OrderOk, UnterminatedOk,
         Stranded;
    var s := Exec(every, steps);
    RunInv(every, steps);
    assert Leftovers(every, s.crashes) + s.crashes == (every + 3) * s.crashes;
  }

  lemma ReturnBelowThreshold(s: State, step: Step)
    requires Inv(s) && Enabled(s, step) && (step.ReturnCall? || step.EndCheckpoint?)
    ensures var t := Do(s, step);
      && t.proc.Some? && t.proc.value.ops == |t.lines| + |t.behind| < t.every
      && (!t.disk.log.tail.Broken? ==> t.proc.value.ops == |Readable(t.disk.log)|)
  {
    hide DiskOk, EntriesOk, LoggedOk, PlacedOk, OrderOk, UnterminatedOk, AcksOk, Fold;
  }

  /**
   When an add or remove returns, the pending counter is what the process replayed and
   appended since the last checkpoint -- the log's length, unless a line of it is broken --
   and below the threshold.
   */
  lemma {:induction false} PendingCounterAfterCall(every: nat, steps: seq<Step>)
    requires every >= 1 && Legal(every, steps) && steps != []
    requires Last(steps).ReturnCall? || Last(steps).EndCheckpoint?
    ensures var s := Exec(every, steps);
      && s.proc.Some? && s.proc.value.ops == |s.lines| + |s.behind| < every
      && (!s.disk.log.tail.Broken? ==> s.proc.value.ops == |Readable(s.disk.log)|)
  {
    hide Inv, Do, Enabled;
    RunInv(every, Front(steps));
    RunInv(every, steps);
    ReturnBelowThreshold(Exec(every, Front(steps)), Last(steps));
  }

  lemma NamedIsComplete(disk: Disk, published: seq<History>)
    requires DiskOk(disk.manifest, disk.files, published) && disk.manifest.Some?
    ensures disk.manifest.value.file in disk.files
    ensures disk.files[disk.manifest.value.file] == Complete(Fold(published[ManifestVersion(disk)]))
  {
    hide Fold;
    assert !Stale(ManifestVersion(disk), ManifestVersion(disk));
  }

  /** The manifest always names a complete snapshot that is still on disk. */
  lemma {:induction false} ManifestNamesCompleteSnapshot(every: nat, steps: seq<Step>)
    requires every >= 1 && Legal(every, steps)
    ensures var disk := Exec(every, steps).disk;
      disk.manifest.Some? ==>
        disk.manifest.value.file in disk.files && disk.files[disk.manifest.value.file].Complete?
  {
    hide Exec, Legal, DiskOk, ProcOk, CallOk, AcksOk, LogOk, MemoryOk, EntriesOk, LoggedOk, PlacedOk, OrderOk;
    var s := Exec(every, steps);
    RunInv(every, steps);
    if s.disk.manifest.Some? {
      NamedIsComplete(s.disk, s.published);
    }
  }

  lemma RetainedFiles(s: State)
    requires Inv(s) && Enabled(s, EndCheckpoint)
    ensures var v := ManifestVersion(s.disk);
      forall f: nat :: f in s.disk.files <==> 1 <= f && v - KEEP_PREVIOUS_VERSIONS <= f <= v
  {
    hide Fold, LogOk, MemoryOk, AcksOk, EntriesOk, LoggedOk, PlacedOk, OrderOk, UnterminatedOk, CallOk;
    var v := ManifestVersion(s.disk);
    forall f: nat ensures f in s.disk.files <==> 1 <= f && v - KEEP_PREVIOUS_VERSIONS <= f <= v {
      if f in s.disk.files {
        assert !Stale(f, s.proc.value.version);
      }
    }
  }

  lemma EndKeepsDisk(s: State)
    requires Enabled(s, EndCheckpoint)
    ensures Do(s, EndCheckpoint).disk == s.disk
  {
  }

  /** After a completed checkpoint exactly the current and the previous snapshot remain. */
  lemma {:induction false} RetentionAfterCheckpoint(every: nat, steps: seq<Step>)
    requires every >= 1 && Legal(every, steps) && steps != [] && Last(steps).EndCheckpoint?
    ensures var disk := Exec(every, steps).disk;
      forall f: nat :: f in disk.files <==> 1 <= f && ManifestVersion(disk) - 1 <= f <= ManifestVersion(disk)
  {
    hide Inv, Do, Enabled;
    RunInv(every, Front(steps));
    RetainedFiles(Exec(every, Front(steps)));
    EndKeepsDisk(Exec(every, Front(steps)));
  }

  // ---------------------------------------------------------------- which snapshots are there

  /** A committed version is on disk until it has been unlinked, and from then on it is not. */
  ghost predicate FileFollows(s: State, f: nat, unlinked: bool)
  {
    && (unlinked ==> f !in s.disk.files && f <= ManifestVersion(s.disk))
    && (!unlinked && 1 <= f <= ManifestVersion(s.disk) ==> f in s.disk.files)
  }

  lemma FileStep(s: State, step: Step, f: nat, unlinked: bool)
    requires Inv(s) && Enabled(s, step) && FileFollows(s, f, unlinked)
    ensures FileFollows(Do(s, step), f, unlinked || step == Unlink(f))
  {
    hide Fold, LogOk, MemoryOk, AcksOk, EntriesOk, LoggedOk, PlacedOk, OrderOk, UnterminatedOk, CallOk, BoundOk, Kept,
         Swallowed, AfterWrite, Recover;
  }

  /** The files of committed versions are exactly those that were never unlinked. */
  lemma {:induction false} OnDiskIff(every: nat, steps: seq<Step>, f: nat)
    requires every >= 1 && Legal(every, steps)
    ensures FileFollows(Exec(every, steps), f, Unlink(f) in steps)
    ensures 1 <= f <= ManifestVersion(Exec(every, steps).disk) ==>
              (f in Exec(every, steps).disk.files <==> Unlink(f) !in steps)
  {
    hide Inv, Do, Enabled;
    if steps != [] {
      OnDiskIff(every, Front(steps), f);
      RunInv(every, Front(steps));
      FileStep(Exec(every, Front(steps)), Last(steps), f, Unlink(f) in Front(steps));
      assert steps == Front(steps) + [Last(steps)];
    }
  }

  /** What only ever grows along a run. */
  ghost predicate Grows(s: State, t: State)
  {
    s.published <= t.published && s.crashes <= t.crashes && |s.calls| <= |t.calls| && s.logged <= t.logged
  }

  lemma StepGrows(s: State, step: Step)
    requires Enabled(s, step)
    ensures Grows(s, Do(s, step))
  {
    hide Kept, Swallowed, AfterWrite, Recover;
  }

  lemma {:induction false} PrefixLegal(every: nat, steps: seq<Step>, more: seq<Step>)
    requires Legal(every, steps + more)
    ensures Legal(every, steps)
    decreases more
  {
    hide Do, Enabled;
    if more == [] {
      assert steps + more == steps;
    } else {
      assert Front(steps + more) == steps + Front(more);
      PrefixLegal(every, steps, Front(more));
    }
  }

  lemma {:induction false} RunGrows(every: nat, steps: seq<Step>, more: seq<Step>)
    requires Legal(every, steps + more)
    ensures Legal(every, steps)
    ensures Grows(Exec(every, steps), Exec(every, steps + more))
    decreases more
  {
    hide Do, Enabled;
    PrefixLegal(every, steps, more);
    if more == [] {
      assert steps + more == steps;
    } else {
      assert Front(steps + more) == steps + Front(more) && Last(steps + more) == Last(more);
      RunGrows(every, steps, Front(more));
      StepGrows(Exec(every, steps + Front(more)), Last(more));
    }
  }

  /** What growing means for a committed version whose file is still there. */
  lemma CommittedStays(s: State, t: State, f: nat)
    requires Grows(s, t) && Inv(s) && Inv(t) && 1 <= f <= ManifestVersion(s.disk)
    ensures ManifestVersion(s.disk) <= ManifestVersion(t.disk)
    ensures f < |s.published|
    ensures f in t.disk.files ==> t.disk.files[f] == Complete(Fold(s.published[f]))
  {
    hide Fold, ProcOk, CallOk, AcksOk, LogOk, MemoryOk, EntriesOk, LoggedOk, PlacedOk, OrderOk, UnterminatedOk;
    assert t.published[f] == s.published[f];
  }

  /**
   Snapshot immutability.  A version committed by now holds, in every later state in which
   its file still exists, the very content it was committed with, whatever crashes and
   checkpoints come in between; and the manifest never goes back to an older version.
   */
  lemma {:induction false} SnapshotsAreImmutable(every: nat, steps: seq<Step>, more: seq<Step>, f: nat)
    requires every >= 1 && Legal(every, steps + more)
    requires Legal(every, steps) && 1 <= f <= ManifestVersion(Exec(every, steps).disk)
    ensures var s, t := Exec(every, steps), Exec(every, steps + more);
      && ManifestVersion(s.disk) <= ManifestVersion(t.disk)
      && f < |s.published|
      && (f in t.disk.files ==> t.disk.files[f] == Complete(Fold(s.published[f])))
  {
    hide Inv, Do, Enabled, Grows, Exec, Legal;
    RunGrows(every, steps, more);
    RunInv(every, steps);
    RunInv(every, steps + more);
    CommittedStays(Exec(every, steps), Exec(every, steps + more), f);
  }
}
