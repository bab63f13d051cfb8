/**
 Two runs of the writer that go wrong behind a torn log line: one loses an acknowledged call,
 one undoes an acknowledged removal that a committed snapshot already covers.
 */
module WriterRuns {
  import opened Prelude
  import opened VectorIndex
  import opened LogFile
  import opened WriterProtocol

  /** Runs for the examples: a threshold no example reaches. */
  const EXAMPLE_EVERY := 10

  lemma Then(steps: seq<Step>, step: Step) returns (out: seq<Step>)
    requires Legal(EXAMPLE_EVERY, steps) && Enabled(Exec(EXAMPLE_EVERY, steps), step)
    ensures Legal(EXAMPLE_EVERY, out) && Exec(EXAMPLE_EVERY, out) == Do(Exec(EXAMPLE_EVERY, steps), step)
  {
    Extend(EXAMPLE_EVERY, steps, step);
    out := steps + [step];
  }

  predicate AtRest(s: State)
  {
    s.every == EXAMPLE_EVERY && s.proc.Some? && s.proc.value.pc.Idle? && s.proc.value.ops < 8
  }

  /** A call that logs, applies and returns. */
  ghost predicate CallReturned(s: State, t: State, op: Op)
  {
    && AtRest(s) && t.proc == Some(s.proc.value.(index := Apply(s.proc.value.index, op), ops := s.proc.value.ops + 1, call := None))
    && var logged := Appended(s.(calls := s.calls + [CallRecord(op, false, false)]), op);
       t == logged.(proc := t.proc, memory := s.memory + [Entry(|s.calls|, op)], calls := MarkAcked(logged.calls))
  }

  lemma RunCall(steps: seq<Step>, op: Op) returns (out: seq<Step>)
    requires Legal(EXAMPLE_EVERY, steps) && AtRest(Exec(EXAMPLE_EVERY, steps))
    ensures Legal(EXAMPLE_EVERY, out) && CallReturned(Exec(EXAMPLE_EVERY, steps), Exec(EXAMPLE_EVERY, out), op)
  {
    hide Exec, Legal, MarkLogged, MarkAcked, AfterWrite, Apply;
    out := Then(steps, Call(op));
    out := Then(out, Append);
    MarkLength(Exec(EXAMPLE_EVERY, out).calls, Exec(EXAMPLE_EVERY, steps).calls, op);
    out := Then(out, ApplyInMemory);
    out := Then(out, ReturnCall);
  }

  lemma MarkLength(marked: seq<CallRecord>, calls: seq<CallRecord>, op: Op)
    requires marked == MarkLogged(calls + [CallRecord(op, false, false)])
    ensures |marked| == |calls| + 1
  {
  }

  /** A call that dies with a fragment of its line written, and the restart after it. */
  ghost predicate CallTorn(s: State, t: State, op: Op)
  {
    && AtRest(s)
    && var died := Died(Torn(s.(calls := s.calls + [CallRecord(op, false, false)]), op, Fragment));
       Recover(died.disk).Some? &&
       t == died.(proc := Some(Proc(Idle, Recover(died.disk).value, ManifestVersion(died.disk), |Readable(died.disk.log)|, None)),
                  memory := Recovered(died))
  }

  lemma TearCall(steps: seq<Step>, op: Op) returns (out: seq<Step>)
    requires Legal(EXAMPLE_EVERY, steps) && AtRest(Exec(EXAMPLE_EVERY, steps))
    ensures Legal(EXAMPLE_EVERY, out) && CallTorn(Exec(EXAMPLE_EVERY, steps), Exec(EXAMPLE_EVERY, out), op)
  {
    hide Exec, Legal, AfterWrite, Recover, Inv;
    out := Then(steps, Call(op));
    out := Then(out, TornAppend(Fragment));
    RunInv(EXAMPLE_EVERY, out);
    RecoverIsFold(Exec(EXAMPLE_EVERY, out));
    out := Then(out, Restart);
  }

  lemma StartEmpty() returns (steps: seq<Step>)
    ensures Legal(EXAMPLE_EVERY, steps)
    ensures Exec(EXAMPLE_EVERY, steps) == Init(EXAMPLE_EVERY).(proc := Some(Proc(Idle, map[], 0, 0, None)))
  {
    assert Exec(EXAMPLE_EVERY, []) == Init(EXAMPLE_EVERY);
    steps := Then([], Restart);
  }

  /** An acknowledged call that the next recovery does not find. */
  ghost predicate AckedAndLost(s: State, call: nat)
  {
    s.proc.None? && call < |s.calls| && s.calls[call].acked && Exposed(s, call) && !RecoveredCall(s, call)
  }

  /** Such a run exists: a torn line, a restart, one call that returns, a crash. */
  lemma TornThenAckedIsLost(op: Op) returns (steps: seq<Step>)
    ensures Legal(EXAMPLE_EVERY, steps) && AckedAndLost(Exec(EXAMPLE_EVERY, steps), 1)
  {
    hide Exec, Legal, Apply, Enabled, Inv;
    steps := StartEmpty();
    steps := TearCall(steps, op);
    steps := RunCall(steps, op);
    var s := Exec(EXAMPLE_EVERY, steps);
    assert s.calls[1] == CallRecord(op, true, true) && 1 in s.jammed;
    CrashEnabled(s);
    steps := Then(steps, Step.Crash);
    HoldsNothing(1);
  }

  lemma CrashEnabled(s: State)
    requires s.proc.Some?
    ensures Enabled(s, Step.Crash)
  {
  }

  /** The writer is at rest, ready for a checkpoint that stops between the manifest and the truncate. */
  ghost predicate CommittedOnly(s: State, t: State)
  {
    && AtRest(s) && t.published == s.published + [s.memory] && t.calls == s.calls && t.lines == s.lines
    && t.proc.None? && t.disk.log == s.disk.log && t.jammed == s.jammed
    && t.disk.manifest.Some? && t.disk.manifest.value.file in t.disk.files
    && t.disk.files[t.disk.manifest.value.file] == Complete(s.proc.value.index)
  }

  lemma CommitAndDie(steps: seq<Step>) returns (out: seq<Step>)
    requires Legal(EXAMPLE_EVERY, steps) && AtRest(Exec(EXAMPLE_EVERY, steps))
    requires Exec(EXAMPLE_EVERY, steps).proc.value.ops != 0
    ensures Legal(EXAMPLE_EVERY, out) && CommittedOnly(Exec(EXAMPLE_EVERY, steps), Exec(EXAMPLE_EVERY, out))
  {
    hide Exec, Legal;
    out := Then(steps, ExplicitCheckpoint);
    out := Then(out, BeginWrite);
    out := Then(out, FinishWrite);
    out := Then(out, Commit);
    out := Then(out, Step.Crash);
  }

  /** Call 2 removed id 7, returned and is covered by the last snapshot, and a recovery finds id 7 again. */
  ghost predicate RemovalUndone(s: State, v: Vec)
  {
    && s.proc.None? && |s.calls| > 2 && s.calls[2] == CallRecord(Op.Remove(7), true, true) && Holds(Covered(s), 2)
    && Recover(s.disk) == Some(map[7 := v])
  }

  /** Id 7 has been added; nothing was ever published. */
  ghost predicate SevenAdded(s: State, v: Vec, calls: nat, tail: Tail)
  {
    && AtRest(s) && s.proc.value.ops == 1 && s.proc.value.index == map[7 := v] && s.published == [[]]
    && s.lines == s.memory == [Entry(0, Op.Add([7], [v]))] && s.disk == Disk(Log([Op.Add([7], [v])], tail), None, map[])
    && |s.calls| == calls
  }

  lemma AddFirst(v: Vec) returns (steps: seq<Step>)
    ensures Legal(EXAMPLE_EVERY, steps) && SevenAdded(Exec(EXAMPLE_EVERY, steps), v, 1, Terminated)
  {
    hide Exec, Legal, Enabled, Inv, Do;
    steps := StartEmpty();
    steps := RunCall(steps, Op.Add([7], [v]));
    AddSeven(v);
  }

  lemma TearSecond(steps: seq<Step>, v: Vec, torn: Op) returns (out: seq<Step>)
    requires Legal(EXAMPLE_EVERY, steps) && SevenAdded(Exec(EXAMPLE_EVERY, steps), v, 1, Terminated)
    ensures Legal(EXAMPLE_EVERY, out) && SevenAdded(Exec(EXAMPLE_EVERY, out), v, 2, Broken(1))
  {
    hide Exec, Legal, Enabled, Inv, Do, Apply, Replay;
    out := TearCall(steps, torn);
    AddSeven(v);
  }

  /** Behind the torn line the removal of id 7 was logged, applied and acknowledged. */
  ghost predicate SevenRemoved(s: State, v: Vec)
  {
    && AtRest(s) && s.proc.value.ops == 2
    && s.lines == [Entry(0, Op.Add([7], [v]))] && s.memory == s.lines + [Entry(2, Op.Remove(7))]
    && s.disk.log == Log([Op.Add([7], [v])], Broken(2)) && s.proc.value.index == map[]
    && |s.calls| == 3 && s.calls[2] == CallRecord(Op.Remove(7), true, true)
  }

  lemma RemoveThird(steps: seq<Step>, v: Vec) returns (out: seq<Step>)
    requires Legal(EXAMPLE_EVERY, steps) && SevenAdded(Exec(EXAMPLE_EVERY, steps), v, 2, Broken(1))
    ensures Legal(EXAMPLE_EVERY, out) && SevenRemoved(Exec(EXAMPLE_EVERY, out), v)
  {
    hide Exec, Legal, Enabled, Inv, Do, Apply, Replay;
    out := RunCall(steps, Op.Remove(7));
    AddSeven(v);
  }

  /**
   Being covered by a snapshot is not enough while the old log is still there: after a torn
   line an acknowledged removal goes into the next snapshot, but a crash between the
   manifest and the truncate replays the readable part of the log, from before it, over it.
   */
  lemma StaleReplayUndoes(v: Vec, torn: Op) returns (steps: seq<Step>)
    ensures Legal(EXAMPLE_EVERY, steps) && RemovalUndone(Exec(EXAMPLE_EVERY, steps), v)
  {
    hide Exec, Legal, Enabled, Inv, Do, Apply, Replay, SevenAdded;
    steps := AddFirst(v);
    steps := TearSecond(steps, v, torn);
    steps := RemoveThird(steps, v);
    var s := Exec(EXAMPLE_EVERY, steps);
    assert s.memory[1] == Entry(2, Op.Remove(7));
    steps := CommitAndDie(steps);
    AddSeven(v);
  }

  lemma AddSeven(v: Vec)
    ensures Apply(map[], Op.Add([7], [v])) == map[7 := v]
    ensures Replay(map[], [Op.Add([7], [v])]) == map[7 := v]
    ensures Apply(map[7 := v], Op.Remove(7)) == map[]
  {
    assert [Op.Add([7], [v])][1..] == [];
    assert AddAll(map[][7 := v], [7][1..], [v][1..]) == map[7 := v];
  }
}
