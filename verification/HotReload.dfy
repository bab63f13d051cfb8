/**
 A read replica over the directory of the single writer.  Before a search the replica reads
 the manifest version, reads the manifest again to name the snapshot file, and opens that
 file; the writer may take any number of steps in between.
 */
module HotReload {
  import opened Prelude
  import opened VectorIndex
  import opened LogFile
  import opened WriterProtocol

  datatype ReaderPc =
    | Waiting                                 // between searches
    | Seen(current: nat)                      // the manifest showed another version
    | Named(current: nat, path: Option<nat>)  // the file to open has been named
    | Ready                                   // about to search

  /**
   `source` and `asOf` are bookkeeping: the version of the snapshot in memory, and the
   manifest version when the current search began.
   */
  datatype Reader = Reader(pc: ReaderPc, index: Option<Index>, loaded: int, source: nat, asOf: nat)

  const FRESH_READER := Reader(Waiting, None, -1, 0, 0)

  datatype ReaderStep = Begin | Name | Open | Serve

  predicate ReaderEnabled(disk: Disk, r: Reader, step: ReaderStep)
  {
    match step
    case Begin => r.pc.Waiting?
    case Name => r.pc.Seen?
    case Open => r.pc.Named? && Load(disk, r.pc.path).Some?
    case Serve => r.pc.Ready? && r.index.Some?
  }

  function PathVersion(path: Option<nat>): nat
  {
    if path.Some? then path.value else 0
  }

  function ReaderDo(disk: Disk, r: Reader, step: ReaderStep): Reader
    requires ReaderEnabled(disk, r, step)
  {
    match step
    case Begin =>
      var current := ManifestVersion(disk);
      if r.index.None? || current != r.loaded
      then r.(pc := Seen(current), asOf := current)
      else r.(pc := Ready, asOf := current)
    case Name => r.(pc := Named(r.pc.current, ManifestPath(disk)))
    case Open =>
      r.(pc := Ready, index := Load(disk, r.pc.path), loaded := r.pc.current,
         source := PathVersion(r.pc.path))
    case Serve => r.(pc := Waiting)
  }

  /**
   `_maybe_reload` with no writer step in between.  The class below is the live code; in
   the interleaved system its three reads are separate steps.
   */
  class HotReloadingVectorIndex {
    var index: Option<Index>
    var loadedVersion: int

    constructor (disk: Disk)
      requires Load(disk, ManifestPath(disk)).Some?
      ensures index == Load(disk, ManifestPath(disk)) && loadedVersion == ManifestVersion(disk)
    {
      index := None;
      loadedVersion := -1;
      new;
      MaybeReload(disk);
    }

    /** The outcome is what the protocol steps Begin, Name, Open compute on this disk. */
    method MaybeReload(disk: Disk)
      requires Load(disk, ManifestPath(disk)).Some?
      modifies this
      ensures index.Some? && loadedVersion == ManifestVersion(disk)
      ensures old(index).None? || old(loadedVersion) != ManifestVersion(disk) ==>
                index == Load(disk, ManifestPath(disk))
      ensures old(index).Some? && old(loadedVersion) == ManifestVersion(disk) ==> index == old(index)
      ensures forall source: nat, asOf: nat ::
        (var r := ReaderDo(disk, Reader(Waiting, old(index), old(loadedVersion), source, asOf), Begin);
        var done := if r.pc.Seen? then ReaderDo(disk, ReaderDo(disk, r, Name), Open) else r;
        index == done.index && loadedVersion == done.loaded && done.pc.Ready?)
    {
      var currentVersion := ManifestVersion(disk);
      if index.None? || currentVersion != loadedVersion {
        index := Load(disk, ManifestPath(disk));
        loadedVersion := currentVersion;
      }
    }
  }

  // ---------------------------------------------------------------- writer and reader together

  datatype System = System(writer: State, reader: Reader)

  datatype SystemStep = Writer(step: Step) | Read(read: ReaderStep)

  predicate SystemEnabled(y: System, step: SystemStep)
  {
    match step
    case Writer(w) => Enabled(y.writer, w)
    case Read(r) => ReaderEnabled(y.writer.disk, y.reader, r)
  }

  ghost function SystemDo(y: System, step: SystemStep): System
    requires SystemEnabled(y, step)
  {
    match step
    case Writer(w) => y.(writer := Do(y.writer, w))
    case Read(r) => y.(reader := ReaderDo(y.writer.disk, y.reader, r))
  }

  ghost predicate SystemLegal(every: nat, steps: seq<SystemStep>)
    decreases |steps|, 0
  {
    steps == [] ||
    (SystemLegal(every, Front(steps)) && SystemEnabled(SystemExec(every, Front(steps)), Last(steps)))
  }

  ghost function SystemExec(every: nat, steps: seq<SystemStep>): System
    requires SystemLegal(every, steps)
    decreases |steps|, 1
  {
    if steps == [] then System(Init(every), FRESH_READER)
    else SystemDo(SystemExec(every, Front(steps)), Last(steps))
  }

  /** At most one version was published since the reader named the file it is about to open. */
  predicate Prompt(y: System)
  {
    y.reader.pc.Named? && y.reader.pc.path.Some? ==>
      ManifestVersion(y.writer.disk) <= y.reader.pc.path.value + 1
  }

  /** Every open of the run was prompt. */
  ghost predicate AlwaysPrompt(every: nat, steps: seq<SystemStep>)
    requires SystemLegal(every, steps)
  {
    steps == [] ||
    (AlwaysPrompt(every, Front(steps)) &&
     (Last(steps) == Read(Open) ==> Prompt(SystemExec(every, Front(steps)))))
  }

  /** What the replica holds, against the manifest version and the published histories. */
  ghost predicate ReaderOk(v: nat, published: seq<History>, r: Reader)
    requires PublishedOk(v, published)
  {
    && r.asOf <= v && r.source <= v
    && (r.index.None? ==> r.loaded == -1)
    && (r.index.Some? ==> r.loaded <= r.source && r.index.value == Fold(published[r.source]))
    && (r.pc.Seen? ==> r.pc.current == r.asOf)
    && (r.pc.Named? ==>
          && r.pc.current == r.asOf <= PathVersion(r.pc.path) <= v
          && r.source <= PathVersion(r.pc.path)
          && (r.pc.path.Some? ==> r.pc.path.value >= 1))
    && (r.pc.Ready? ==> r.index.Some? && r.asOf <= r.source)
  }

  ghost predicate SystemInv(y: System)
  {
    && Inv(y.writer)
    && PublishedOk(ManifestVersion(y.writer.disk), y.writer.published)
    && ReaderOk(ManifestVersion(y.writer.disk), y.writer.published, y.reader)
  }

  lemma InvPublished(s: State)
    requires Inv(s)
    ensures PublishedOk(ManifestVersion(s.disk), s.published)
  {
    hide PublishedOk, FilesOk, LogOk, MemoryOk, ProcOk, CallOk, AcksOk, BoundOk, EntriesOk, LoggedOk, PlacedOk, OrderOk;
  }

  /** Growth of the published histories changes nothing the reader relies on. */
  lemma ReaderStays(v: nat, published: seq<History>, v': nat, published': seq<History>, r: Reader)
    requires PublishedOk(v, published) && PublishedOk(v', published')
    requires published <= published' && ReaderOk(v, published, r)
    ensures ReaderOk(v', published', r)
  {
    hide Fold;
    if r.index.Some? {
      assert published'[r.source] == published[r.source];
    }
  }

  lemma WriterStepKeeps(y: System, step: Step)
    requires SystemInv(y) && Enabled(y.writer, step)
    ensures SystemInv(y.(writer := Do(y.writer, step)))
  {
    hide Inv, Do, Enabled, ReaderOk, PublishedOk;
    var s, t := y.writer, Do(y.writer, step);
    StepKeeps(s, step);
    StepGrows(s, step);
    InvPublished(t);
    ReaderStays(ManifestVersion(s.disk), s.published, ManifestVersion(t.disk), t.published, y.reader);
  }

  /** A prompt open finds the named snapshot, complete and as it was published. */
  lemma PromptLoad(disk: Disk, published: seq<History>, path: Option<nat>)
    requires DiskOk(disk.manifest, disk.files, published) && PathVersion(path) <= ManifestVersion(disk)
    requires path.Some? ==> 1 <= path.value && ManifestVersion(disk) <= path.value + 1
    ensures PathVersion(path) < |published|
    ensures Load(disk, path) == Some(Fold(published[PathVersion(path)]))
  {
    if path.Some? {
      assert !Stale(path.value, ManifestVersion(disk));
    } else {
      assert Ops([]) == [];
    }
  }

  lemma PromptOpenLoadsPublished(y: System)
    requires SystemInv(y) && y.reader.pc.Named? && Prompt(y)
    ensures var s, f := y.writer, PathVersion(y.reader.pc.path);
      f < |s.published| && Load(s.disk, y.reader.pc.path) == Some(Fold(s.published[f]))
  {
    hide DiskOk, PublishedOk, LogOk, MemoryOk, ProcOk, CallOk, AcksOk, BoundOk, EntriesOk, LoggedOk, PlacedOk, OrderOk;
    PromptLoad(y.writer.disk, y.writer.published, y.reader.pc.path);
  }

  lemma ReaderStepKeeps(y: System, step: ReaderStep)
    requires SystemInv(y) && ReaderEnabled(y.writer.disk, y.reader, step)
    requires step.Open? ==> Prompt(y)
    ensures SystemInv(SystemDo(y, Read(step)))
    ensures y.reader.source <= SystemDo(y, Read(step)).reader.source
  {
    hide FilesOk, LogOk, MemoryOk, ProcOk, CallOk, AcksOk, BoundOk, EntriesOk, LoggedOk, PlacedOk, OrderOk, Fold;
    match step
    case Begin =>
    case Name =>
    case Open => PromptOpenLoadsPublished(y);
    case Serve =>
  }

  lemma FreshReaderOk(every: nat)
    ensures PublishedOk(0, [[]]) && ReaderOk(0, [[]], FRESH_READER)
  {
  }

  lemma {:induction false} SystemRunInv(every: nat, steps: seq<SystemStep>)
    requires every >= 1 && SystemLegal(every, steps) && AlwaysPrompt(every, steps)
    ensures SystemInv(SystemExec(every, steps))
  {
    hide Inv, Do, Enabled, ReaderOk, PublishedOk, ReaderEnabled, ReaderDo;
    if steps == [] {
      InitInv(every);
      FreshReaderOk(every);
    } else {
      var before := SystemExec(every, Front(steps));
      SystemRunInv(every, Front(steps));
      match Last(steps)
      case Writer(w) => WriterStepKeeps(before, w);
      case Read(r) => ReaderStepKeeps(before, r);
    }
  }

  /**
   Reader/writer protocol.  In every interleaving of one writer (crashes and restarts
   included) with a replica whose opens are prompt, an index being searched is one complete
   published snapshot, at least as new as the manifest was when the search began and never
   older than `_loaded_version` claims.  As long as every crash was
   harmless, that is the fold of a prefix of the logged operations.
   */
  lemma {:induction false} SearchesRunOnPublishedSnapshots(every: nat, steps: seq<SystemStep>)
    requires every >= 1 && SystemLegal(every, steps) && AlwaysPrompt(every, steps)
    requires SystemExec(every, steps).reader.pc.Ready?
    ensures var y := SystemExec(every, steps);
      && y.reader.asOf <= y.reader.source <= ManifestVersion(y.writer.disk) < |y.writer.published|
      && y.reader.index == Some(Fold(y.writer.published[y.reader.source]))
      && y.reader.loaded <= y.reader.source
      && ReaderEnabled(y.writer.disk, y.reader, Serve)
      && (!y.writer.slipped ==> IsPrefixFold(y.reader.index.value, y.writer.logged))
  {
    hide Inv, SystemExec, SystemLegal, AlwaysPrompt, Fold, IsPrefixFold;
    SystemRunInv(every, steps);
    var y := SystemExec(every, steps);
    if !y.writer.slipped {
      PublishedIsPrefix(y.writer, y.reader.source);
    }
  }

  ghost predicate IsPrefixFold(ix: Index, logged: History)
  {
    exists n: nat :: n <= |logged| && ix == Fold(logged[..n])
  }

  lemma PublishedIsPrefix(s: State, v: nat)
    requires Inv(s) && !s.slipped && v < |s.published|
    ensures IsPrefixFold(Fold(s.published[v]), s.logged)
  {
    hide DiskOk, LogOk, MemoryOk, ProcOk, CallOk, AcksOk, BoundOk, EntriesOk, LoggedOk, PlacedOk, Fold;
    assert Fold(s.published[v]) == Fold(s.logged[..s.cuts[v]]);
  }

  /** A prompt open never meets a half-written or missing file, so the replica never raises. */
  lemma {:induction false} PromptOpenIsEnabled(every: nat, steps: seq<SystemStep>)
    requires every >= 1 && SystemLegal(every, steps) && AlwaysPrompt(every, steps)
    requires SystemExec(every, steps).reader.pc.Named? && Prompt(SystemExec(every, steps))
    ensures SystemEnabled(SystemExec(every, steps), Read(Open))
  {
    hide SystemInv, SystemExec, SystemLegal, AlwaysPrompt, Load, Fold;
    SystemRunInv(every, steps);
    PromptOpenLoadsPublished(SystemExec(every, steps));
  }

  /** The version a replica holds never decreases. */
  lemma {:induction false} ServedVersionNeverDecreases(every: nat, steps: seq<SystemStep>, more: seq<SystemStep>)
    requires every >= 1 && SystemLegal(every, steps + more) && AlwaysPrompt(every, steps + more)
    ensures SystemLegal(every, steps) && AlwaysPrompt(every, steps)
    ensures var y, z := SystemExec(every, steps), SystemExec(every, steps + more);
      y.reader.source <= z.reader.source && y.writer.published <= z.writer.published
    decreases more
  {
    hide Inv, Do, Enabled, ReaderOk, PublishedOk, ReaderEnabled, ReaderDo, Prompt;
    if more == [] {
      assert steps + more == steps;
    } else {
      assert Front(steps + more) == steps + Front(more) && Last(steps + more) == Last(more);
      ServedVersionNeverDecreases(every, steps, Front(more));
      var before := SystemExec(every, steps + Front(more));
      SystemRunInv(every, steps + Front(more));
      match Last(more)
      case Writer(w) => StepGrows(before.writer, w);
      case Read(r) => ReaderStepKeeps(before, r);
    }
  }

  /** So what a replica shows is only ever continued: a later search sees a history that extends the earlier one. */
  lemma {:induction false} ServedPrefixNeverShrinks(every: nat, steps: seq<SystemStep>, more: seq<SystemStep>)
    requires every >= 1 && SystemLegal(every, steps + more) && AlwaysPrompt(every, steps + more)
    ensures SystemLegal(every, steps)
    ensures var y, z := SystemExec(every, steps), SystemExec(every, steps + more);
      && y.reader.source < |y.writer.published| && z.reader.source < |z.writer.published|
      && y.writer.published[y.reader.source] <= z.writer.published[z.reader.source]
  {
    hide Inv, SystemExec, SystemLegal, AlwaysPrompt, Fold;
    ServedVersionNeverDecreases(every, steps, more);
    SystemRunInv(every, steps);
    SystemRunInv(every, steps + more);
    var y, z := SystemExec(every, steps), SystemExec(every, steps + more);
    assert z.writer.published[y.reader.source] == y.writer.published[y.reader.source];
  }

  // ---------------------------------------------------------------- opens that are not prompt

  /** The writer's steps of a run. */
  function WriterSteps(steps: seq<SystemStep>): seq<Step>
  {
    if steps == [] then []
    else WriterSteps(Front(steps)) + if Last(steps).Writer? then [Last(steps).step] else []
  }

  /** Readers change nothing for the writer. */
  lemma {:induction false} WriterRun(every: nat, steps: seq<SystemStep>)
    requires SystemLegal(every, steps)
    ensures Legal(every, WriterSteps(steps))
    ensures SystemExec(every, steps).writer == Exec(every, WriterSteps(steps))
  {
    hide Do, Enabled, ReaderEnabled, ReaderDo;
    if steps != [] {
      WriterRun(every, Front(steps));
      var before := WriterSteps(Front(steps));
      if Last(steps).Writer? {
        Extend(every, before, Last(steps).step);
      } else {
        assert WriterSteps(steps) == before;
      }
    }
  }

  /** A file a reader has named, or still names, was committed. */
  ghost predicate NamedOk(y: System)
  {
    y.reader.pc.Named? && y.reader.pc.path.Some? ==>
      1 <= y.reader.pc.path.value <= ManifestVersion(y.writer.disk)
  }

  lemma ManifestNames(s: State)
    requires Inv(s)
    ensures s.disk.manifest.Some? ==> 1 <= s.disk.manifest.value.file <= ManifestVersion(s.disk)
    ensures ManifestVersion(s.disk) + 1 == |s.published|
  {
    hide FilesOk, LogOk, MemoryOk, ProcOk, CallOk, AcksOk, BoundOk, EntriesOk, LoggedOk, PlacedOk, OrderOk;
  }

  lemma {:induction false} NamedIsCommitted(every: nat, steps: seq<SystemStep>)
    requires every >= 1 && SystemLegal(every, steps)
    ensures Inv(SystemExec(every, steps).writer) && NamedOk(SystemExec(every, steps))
  {
    hide Inv, Do, Enabled;
    if steps == [] {
      InitInv(every);
    } else {
      var y := SystemExec(every, Front(steps));
      NamedIsCommitted(every, Front(steps));
      ManifestNames(y.writer);
      if Last(steps).Writer? {
        StepKeeps(y.writer, Last(steps).step);
        StepGrows(y.writer, Last(steps).step);
        ManifestNames(Do(y.writer, Last(steps).step));
      }
    }
  }

  /** What loading a committed version gives, by whether its file is still there. */
  lemma LoadCommitted(s: State, path: Option<nat>)
    requires Inv(s) && (path.Some? ==> 1 <= path.value <= ManifestVersion(s.disk))
    ensures PathVersion(path) < |s.published|
    ensures Load(s.disk, path) == Some(if path.None? || path.value in s.disk.files
                                       then Fold(s.published[PathVersion(path)]) else map[])
  {
    hide LogOk, MemoryOk, ProcOk, CallOk, AcksOk, BoundOk, EntriesOk, LoggedOk, PlacedOk, OrderOk;
    assert Ops([]) == [];
  }

  /**
   Exactly when an open fails.  In every run, however late a reader opens the file it named,
   the open succeeds; and it gives the published content if and only if the writer has not
   unlinked that file, or the content was empty anyway.  What it gives otherwise is an empty
   index, without an error.
   */
  lemma {:induction false} OpenIff(every: nat, steps: seq<SystemStep>)
    requires every >= 1 && SystemLegal(every, steps) && SystemExec(every, steps).reader.pc.Named?
    ensures var y := SystemExec(every, steps);
      var path := y.reader.pc.path;
      && SystemEnabled(y, Read(Open)) && PathVersion(path) < |y.writer.published|
      && var content := Fold(y.writer.published[PathVersion(path)]);
         && (Load(y.writer.disk, path) == Some(content) <==>
              path.None? || Writer(Unlink(path.value)) !in steps || content == map[])
         && (Load(y.writer.disk, path) != Some(content) ==> Load(y.writer.disk, path) == Some(map[]))
  {
    hide Inv, SystemExec, SystemLegal, Fold, Load, Exec, Legal;
    var y := SystemExec(every, steps);
    NamedIsCommitted(every, steps);
    LoadCommitted(y.writer, y.reader.pc.path);
    WriterRun(every, steps);
    if y.reader.pc.path.Some? {
      OnDiskIff(every, WriterSteps(steps), y.reader.pc.path.value);
      WriterStepIn(steps, Unlink(y.reader.pc.path.value));
    }
  }

  lemma {:induction false} WriterStepIn(steps: seq<SystemStep>, step: Step)
    ensures step in WriterSteps(steps) <==> Writer(step) in steps
  {
    if steps != [] {
      WriterStepIn(Front(steps), step);
      assert steps == Front(steps) + [Last(steps)];
    }
  }

  // ---------------------------------------------------------------- a late open

  lemma SystemExtend(every: nat, steps: seq<SystemStep>, step: SystemStep)
    requires SystemLegal(every, steps) && SystemEnabled(SystemExec(every, steps), step)
    ensures SystemLegal(every, steps + [step])
    ensures SystemExec(every, steps + [step]) == SystemDo(SystemExec(every, steps), step)
  {
    assert Front(steps + [step]) == steps;
  }

  lemma ExtendByWriter(steps: seq<SystemStep>, step: Step) returns (out: seq<SystemStep>)
    requires SystemLegal(1, steps) && Enabled(SystemExec(1, steps).writer, step)
    ensures SystemLegal(1, out)
    ensures SystemExec(1, out) == SystemDo(SystemExec(1, steps), Writer(step))
  {
    out := steps + [Writer(step)];
    SystemExtend(1, steps, Writer(step));
  }

  ghost predicate Resting(s: State)
  {
    && s.every == 1 && s.proc.Some? && s.proc.value.pc.Idle? && s.proc.value.ops == 0
    && s.proc.value.version == ManifestVersion(s.disk)
  }

  /** The writer logged one operation and applied it, and is about to checkpoint; the reader did nothing. */
  ghost predicate LoggedAndApplied(y: System, z: System, op: Op)
  {
    var w, x := y.writer, z.writer;
    && z.reader == y.reader
    && x.every == 1 && x.proc.Some? && x.proc.value.pc.Applied? && x.proc.value.ops == 1 && x.proc.value.call.Some?
    && x.proc.value.version == ManifestVersion(x.disk) == ManifestVersion(w.disk)
    && x.memory == w.memory + [Entry(|w.calls|, op)] && |x.calls| == |w.calls| + 1 && x.published == w.published
  }

  /** The first half of an add by a resting writer whose threshold is one. */
  lemma LogAndApply(steps: seq<SystemStep>, op: Op) returns (out: seq<SystemStep>)
    requires SystemLegal(1, steps) && Resting(SystemExec(1, steps).writer)
    ensures SystemLegal(1, out) && LoggedAndApplied(SystemExec(1, steps), SystemExec(1, out), op)
  {
    hide SystemExec, SystemLegal, Apply, AfterWrite, Kept, Swallowed;
    out := ExtendByWriter(steps, Call(op));
    out := ExtendByWriter(out, Append);
    out := ExtendByWriter(out, ApplyInMemory);
  }

  /** The writer published what it held as the next version and pruned; the reader did nothing. */
  ghost predicate PublishedNext(y: System, z: System)
  {
    var w, x := y.writer, z.writer;
    && z.reader == y.reader
    && Resting(x) && ManifestPath(x.disk) == Some(ManifestVersion(x.disk))
    && ManifestVersion(x.disk) == ManifestVersion(w.disk) + 1
    && x.published == w.published + [w.memory] && x.memory == w.memory && |x.calls| == |w.calls|
    && (forall f :: f in x.disk.files ==> !Stale(f, ManifestVersion(x.disk)))
  }

  /** The second half: a checkpoint publishes the next version. */
  lemma PublishApplied(before: seq<SystemStep>, steps: seq<SystemStep>, op: Op) returns (out: seq<SystemStep>)
    requires SystemLegal(1, before) && SystemLegal(1, steps)
    requires LoggedAndApplied(SystemExec(1, before), SystemExec(1, steps), op)
    ensures SystemLegal(1, out) && PublishedNext(SystemExec(1, steps), SystemExec(1, out))
  {
    hide SystemExec, SystemLegal;
    out := ExtendByWriter(steps, ThresholdCheckpoint);
    out := ExtendByWriter(out, BeginWrite);
    out := ExtendByWriter(out, FinishWrite);
    out := ExtendByWriter(out, Commit);
    out := ExtendByWriter(out, Truncate);
    out := PruneAll(out);
    out := ExtendByWriter(out, EndCheckpoint);
    AckedLength(SystemExec(1, steps).writer.calls);
  }

  /** The writer unlinked all it had to; nothing else happened. */
  ghost predicate Pruned(y: System, z: System)
  {
    var w, x := y.writer, z.writer;
    && z.reader == y.reader
    && x == w.(disk := w.disk.(files := x.disk.files)) && Enabled(x, EndCheckpoint)
  }

  lemma {:induction false} PruneAll(steps: seq<SystemStep>) returns (out: seq<SystemStep>)
    requires SystemLegal(1, steps)
    requires SystemExec(1, steps).writer.proc.Some? && SystemExec(1, steps).writer.proc.value.pc.Pruning?
    ensures SystemLegal(1, out) && Pruned(SystemExec(1, steps), SystemExec(1, out))
    decreases |SystemExec(1, steps).writer.disk.files|
  {
    hide SystemExec, SystemLegal;
    out := steps;
    var w := SystemExec(1, steps).writer;
    if f :| f in w.disk.files && Stale(f, w.proc.value.version) {
      out := ExtendByWriter(steps, Unlink(f));
      assert w.disk.files == (w.disk.files - {f})[f := w.disk.files[f]];
      out := PruneAll(out);
    }
  }

  /** The writer has added id 7 this many times, publishing each time. */
  function Adds(n: nat, v: Vec): History
  {
    seq(n, i requires 0 <= i < n => Entry(i, Op.Add([7], [v])))
  }

  ghost predicate PublishedAdds(s: State, n: nat, v: Vec)
  {
    && Resting(s) && ManifestVersion(s.disk) == n && s.memory == Adds(n, v) && |s.calls| == n
    && s.published == seq(n + 1, i requires 0 <= i <= n => Adds(i, v))
  }

  lemma PublishOne(steps: seq<SystemStep>, n: nat, v: Vec) returns (out: seq<SystemStep>)
    requires SystemLegal(1, steps) && PublishedAdds(SystemExec(1, steps).writer, n, v)
    ensures SystemLegal(1, out) && PublishedAdds(SystemExec(1, out).writer, n + 1, v)
    ensures SystemExec(1, out).reader == SystemExec(1, steps).reader
    ensures var disk := SystemExec(1, out).writer.disk;
      ManifestPath(disk) == Some(n + 1) && forall f :: f in disk.files ==> !Stale(f, n + 1)
  {
    hide SystemExec, SystemLegal, SystemDo, Do, Enabled;
    var applied := LogAndApply(steps, Op.Add([7], [v]));
    out := PublishApplied(steps, applied, Op.Add([7], [v]));
    assert Adds(n + 1, v) == Adds(n, v) + [Entry(n, Op.Add([7], [v]))];
  }

  /** The reader has named the first version and not yet opened it. */
  ghost predicate NamedFirst(r: Reader)
  {
    r.pc == Named(1, Some(1)) && r.asOf == 1
  }

  lemma NameFirstVersion(steps: seq<SystemStep>) returns (out: seq<SystemStep>)
    requires SystemLegal(1, steps) && SystemExec(1, steps).reader == FRESH_READER
    requires ManifestPath(SystemExec(1, steps).writer.disk) == Some(1)
    requires ManifestVersion(SystemExec(1, steps).writer.disk) == 1
    ensures SystemLegal(1, out)
    ensures SystemExec(1, out).writer == SystemExec(1, steps).writer && NamedFirst(SystemExec(1, out).reader)
  {
    SystemExtend(1, steps, Read(Begin));
    out := steps + [Read(Begin)];
    SystemExtend(1, out, Read(Name));
    out := out + [Read(Name)];
  }

  /** The reader opened the vanished first version. */
  ghost predicate OpenedLate(y: System, z: System)
  {
    z.writer == y.writer && z.reader.pc.Ready? && z.reader.asOf == 1 && z.reader.index == Some(map[])
  }

  lemma OpenLate(steps: seq<SystemStep>) returns (out: seq<SystemStep>)
    requires SystemLegal(1, steps)
    requires var y := SystemExec(1, steps); NamedFirst(y.reader) && 1 !in y.writer.disk.files
    ensures SystemLegal(1, out) && OpenedLate(SystemExec(1, steps), SystemExec(1, out))
  {
    SystemExtend(1, steps, Read(Open));
    out := steps + [Read(Open)];
  }

  lemma StartWriter(v: Vec) returns (steps: seq<SystemStep>)
    ensures SystemLegal(1, steps) && PublishedAdds(SystemExec(1, steps).writer, 0, v)
    ensures SystemExec(1, steps).reader == FRESH_READER
  {
    steps := ExtendByWriter([], Restart);
    assert Adds(0, v) == [];
    assert [[]] == seq(1, i requires 0 <= i <= 0 => Adds(i, v));
  }

  /** A search that began at version 1 is about to run on an empty index; three versions hold the vector. */
  ghost predicate EmptyAnswer(y: System, v: Vec)
  {
    && y.reader.pc.Ready? && y.reader.asOf == 1 && y.reader.index == Some(map[])
    && |y.writer.published| == 4
    && forall i :: 1 <= i <= 3 ==> Fold(y.writer.published[i]) == map[7 := v]
  }

  lemma {:induction false} AddsFold(n: nat, v: Vec)
    ensures Fold(Adds(n, v)) == if n == 0 then map[] else map[7 := v]
  {
    if n == 0 {
      assert Ops(Adds(0, v)) == [];
    } else {
      var op := Op.Add([7], [v]);
      AddsFold(n - 1, v);
      assert Adds(n, v) == Adds(n - 1, v) + [Entry(n - 1, op)];
      FoldSnoc(Adds(n - 1, v), Entry(n - 1, op));
      AddSeven(if n == 1 then map[] else map[7 := v], v);
    }
  }

  lemma AddSeven(ix: Index, v: Vec)
    requires ix == map[] || ix == map[7 := v]
    ensures Apply(ix, Op.Add([7], [v])) == map[7 := v]
  {
    assert AddAll(ix[7 := v], [7][1..], [v][1..]) == ix[7 := v];
  }

  /**
   Without promptness the protocol fails: a run in which a search that began at version 1
   is answered from an empty index, although version 1 and all later ones hold a vector.
   */
  lemma LateOpenServesEmptyIndex(v: Vec) returns (steps: seq<SystemStep>)
    ensures SystemLegal(1, steps) && EmptyAnswer(SystemExec(1, steps), v)
  {
    hide SystemExec, SystemLegal, SystemDo, Do, Enabled, Fold, Adds;
    steps := StartWriter(v);
    steps := PublishOne(steps, 0, v);
    steps := NameFirstVersion(steps);
    steps := PublishOne(steps, 1, v);
    steps := PublishOne(steps, 2, v);
    assert Stale(1, 3);
    steps := OpenLate(steps);
    forall i: nat | 1 <= i <= 3 ensures Fold(SystemExec(1, steps).writer.published[i]) == map[7 := v] {
      AddsFold(i, v);
    }
  }
}
