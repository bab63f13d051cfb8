/**
 The live persistence classes.  `DataDir` is the shared data directory: the text of the log
 file, the manifest, the snapshot files.  Its ghost `steps` is the run of the writer
 protocol so far; each effect on the disk adds exactly one step to it, and the text of the
 log always shows the log of that run.  A method cannot be interrupted here, but every
 prefix of the run it adds is a state in which the process may die, and the results over
 runs speak of all of them; `DieInAppend` is a death in the middle of an append.
 */
module VersionedWriter {
  import opened Prelude
  import opened VectorIndex
  import opened LogFile
  import opened WalText
  import opened WriterProtocol

  class DataDir {
    const codec: Codec
    ghost const every: nat
    ghost var steps: seq<Step>
    var text: string  // the log file
    var manifest: Option<ManifestState>
    var files: map<nat, File>

    ghost predicate Valid()
      reads this
    {
      && every >= 1 && Legal(every, steps) && Exec(every, steps).every == every && codec.Sound()
      && Mirrors(Exec(every, steps).disk)
    }

    /** The real files are those of the protocol's disk. */
    ghost predicate Mirrors(disk: Disk)
      reads this
    {
      disk.manifest == manifest && disk.files == files && Shows(codec, text, disk.log)
    }

    ghost function Now(): State
      reads this
      requires Valid()
    {
      Exec(every, steps)
    }

    constructor (codec: Codec, ghost every: nat)
      requires every >= 1 && codec.Sound()
      ensures Valid() && this.codec == codec && this.every == every && steps == []
      ensures text == "" && manifest == None && files == map[]
    {
      this.codec, this.every := codec, every;
      steps, text, manifest, files := [], "", None, map[];
      EmptyFileShows(codec);
    }

    /** A step of the process that leaves the disk alone. */
    ghost method Take(step: Step)
      requires Valid() && Enabled(Now(), step) && Do(Now(), step).disk == Now().disk
      modifies this`steps
      ensures Valid() && steps == old(steps) + [step] && Now() == Do(old(Now()), step)
    {
      hide Do, Enabled, Exec, Legal, Shows;
      Extend(every, steps, step);
      EveryStays(Now(), step);
      steps := steps + [step];
    }

    /** A snapshot file appears, changes or goes. */
    method SetFiles(after: map<nat, File>, ghost step: Step)
      requires Valid() && Enabled(Now(), step) && Do(Now(), step).disk == Now().disk.(files := after)
      modifies this`steps, this`files
      ensures Valid() && files == after && steps == old(steps) + [step] && Now() == Do(old(Now()), step)
    {
      hide Do, Enabled, Exec, Legal, Shows;
      Extend(every, steps, step);
      EveryStays(Now(), step);
      steps := steps + [step];
      files := after;
    }

    /** The manifest is replaced in one effect. */
    method SetManifest(after: ManifestState, ghost step: Step)
      requires Valid() && Enabled(Now(), step) && Do(Now(), step).disk == Now().disk.(manifest := Some(after))
      modifies this`steps, this`manifest
      ensures Valid() && manifest == Some(after) && steps == old(steps) + [step] && Now() == Do(old(Now()), step)
    {
      hide Do, Enabled, Exec, Legal, Shows;
      Extend(every, steps, step);
      EveryStays(Now(), step);
      steps := steps + [step];
      manifest := Some(after);
    }

    /** The log file changes. */
    method SetText(after: string, ghost step: Step)
      requires Valid() && Enabled(Now(), step)
      requires Do(Now(), step).disk == Now().disk.(log := Do(Now(), step).disk.log)
      requires Shows(codec, after, Do(Now(), step).disk.log)
      modifies this`steps, this`text
      ensures Valid() && text == after && steps == old(steps) + [step] && Now() == Do(old(Now()), step)
    {
      hide Do, Enabled, Exec, Legal, Shows;
      Extend(every, steps, step);
      EveryStays(Now(), step);
      steps := steps + [step];
      text := after;
    }

    /** The log file never has more lines than the threshold and a bounded number per crash. */
    lemma FileBounded()
      requires Valid()
      ensures Newlines(text) <= every + (every + 3) * Now().crashes
    {
      hide Exec, Legal, Spells;
      LogExtentBound(every, steps);
    }

    /** The process holding the writer dies; the disk stays as it is. */
    ghost method Crash()
      requires Valid() && Now().proc.Some?
      modifies this`steps
      ensures Valid() && steps == old(steps) + [Step.Crash] && Now().proc.None?
    {
      Take(Step.Crash);
    }

    /** It dies in the middle of an append: any proper part of the line has reached the file. */
    method DieInAppend(op: Op, i: nat)
      requires Valid() && Enabled(Now(), Step.Append) && Now().proc.value.call == Some(op)
      requires 0 < i < |Line(codec, op)|
      modifies this`steps, this`text
      ensures Valid() && text == old(text) + Line(codec, op)[..i] && Now().proc.None?
      ensures steps == old(steps) + [TornAppend(CutOf(codec, op, i))]
    {
      WriteShown(codec, text, Now().disk.log, op, i);
      hide Exec, Legal, Shows;
      SetText(text + Line(codec, op)[..i], TornAppend(CutOf(codec, op, i)));
    }
  }

  class WriteAheadLog {
    const dir: DataDir

    constructor (dir: DataDir)
      ensures this.dir == dir
    {
      this.dir := dir;
    }

    /** One line, written and synced. */
    method Append(op: Op)
      requires dir.Valid() && Enabled(dir.Now(), Step.Append) && dir.Now().proc.value.call == Some(op)
      modifies dir`steps, dir`text
      ensures dir.Valid() && dir.steps == old(dir.steps) + [Step.Append]
      ensures dir.text == old(dir.text) + Line(dir.codec, op)
      ensures dir.Now() == Do(old(dir.Now()), Step.Append)
    {
      ghost var line := Line(dir.codec, op);
      assert line[..|line|] == line;
      LineLength(dir.codec, op);
      WriteShown(dir.codec, dir.text, dir.Now().disk.log, op, |line|);
      hide Exec, Legal, Shows;
      dir.SetText(dir.text + Line(dir.codec, op), Step.Append);
    }

    /** Reading the file gives the records that the protocol's log has readable. */
    method ReadAll() returns (entries: seq<Op>)
      requires dir.Valid()
      ensures entries == ReadText(dir.codec, dir.text) == Readable(dir.Now().disk.log)
    {
      entries := ReadLines(dir.codec, dir.text);
      ReadShown(dir.codec, dir.text, dir.Now().disk.log);
    }

    method Truncate()
      requires dir.Valid() && Enabled(dir.Now(), Step.Truncate)
      modifies dir`steps, dir`text
      ensures dir.Valid() && dir.steps == old(dir.steps) + [Step.Truncate]
      ensures dir.text == "" && dir.Now() == Do(old(dir.Now()), Step.Truncate)
    {
      EmptyFileShows(dir.codec);
      hide Exec, Legal, Shows;
      dir.SetText("", Step.Truncate);
    }
  }

  class IndexManifest {
    const dir: DataDir

    constructor (dir: DataDir)
      ensures this.dir == dir
    {
      this.dir := dir;
    }

    method Read() returns (state: Option<ManifestState>)
      ensures state == dir.manifest
    {
      state := dir.manifest;
    }

    method Commit(version: nat, file: nat)
      requires dir.Valid() && Enabled(dir.Now(), Step.Commit)
      requires version == file == dir.Now().proc.value.version + 1
      modifies dir`steps, dir`manifest
      ensures dir.Valid() && dir.steps == old(dir.steps) + [Step.Commit]
      ensures dir.manifest == Some(ManifestState(version, file))
      ensures dir.Now() == Do(old(dir.Now()), Step.Commit)
    {
      hide Exec, Legal, Shows;
      dir.SetManifest(ManifestState(version, file), Step.Commit);
    }

    method IndexPath() returns (path: Option<nat>)
      ensures path == if dir.manifest.Some? then Some(dir.manifest.value.file) else None
    {
      var state := Read();
      path := if state.Some? then Some(state.value.file) else None;
    }
  }

  class VersionedIndexWriter {
    const dir: DataDir
    const manifest: IndexManifest
    const wal: WriteAheadLog
    const checkpointEvery: nat
    var index: Index
    var version: nat
    var opsSinceCheckpoint: nat

    ghost predicate Wired()
      reads dir
    {
      dir.Valid() && manifest.dir == dir && wal.dir == dir && checkpointEvery == dir.every
    }

    /** This object is the live process of the protocol, at the given point of a call. */
    ghost predicate At(pc: Pc, call: Option<Op>)
      reads this, dir
    {
      Wired() && dir.Now().proc == Some(Proc(pc, index, version, opsSinceCheckpoint, call))
    }

    ghost predicate Valid()
      reads this, dir
    {
      At(Idle, None)
    }

    /**
     Recovery on construction: the snapshot the manifest names, then the log.  What it
     rebuilds is the fold of the recovered history, and of all logged operations in order
     as long as every crash was harmless.
     */
    constructor (dir: DataDir, checkpointEvery: nat)
      requires dir.Valid() && dir.Now().proc.None? && checkpointEvery == dir.every
      modifies dir`steps
      ensures Valid() && this.dir == dir && dir.steps == old(dir.steps) + [Restart]
      ensures index == Fold(Recovered(old(dir.Now())))
      ensures !old(dir.Now().slipped) ==> index == Fold(old(dir.Now().logged))
      ensures opsSinceCheckpoint == |Readable(dir.Now().disk.log)|
      ensures version == if dir.manifest.Some? then dir.manifest.value.version else 0
      ensures dir.Now().calls == old(dir.Now().calls)
    {
      hide Exec, Legal, Shows, Fold, Recovered;
      this.dir := dir;
      this.checkpointEvery := checkpointEvery;
      opsSinceCheckpoint := 0;
      index := map[];
      version := 0;
      manifest := new IndexManifest(dir);
      wal := new WriteAheadLog(dir);
      new;
      WhatRestartFinds(dir.every, dir.steps);
      var state := manifest.Read();
      version := if state.Some? then state.value.version else 0;
      var path := manifest.IndexPath();
      index := LoadFile(dir.files, path).value;
      ReplayWal();
      dir.Take(Restart);
    }

    method ReplayWal()
      requires wal.dir.Valid()
      modifies this`index, this`opsSinceCheckpoint
      ensures index == Replay(old(index), Readable(wal.dir.Now().disk.log))
      ensures opsSinceCheckpoint == |Readable(wal.dir.Now().disk.log)|
    {
      hide Shows, Readable, Apply, ReadText, Exec, Legal;
      var entries := wal.ReadAll();
      for i := 0 to |entries|
        invariant index == Replay(old(index), entries[..i])
      {
        ReplaySnoc(old(index), entries[..i], entries[i]);
        assert entries[..i + 1] == entries[..i] + [entries[i]];
        index := Apply(index, entries[i]);
      }
      assert entries[..|entries|] == entries;
      opsSinceCheckpoint := |entries|;
    }

    /** add and remove: log first, then apply, then count and perhaps checkpoint. */
    method Mutate(op: Op)
      requires Valid()
      modifies this`index, this`version, this`opsSinceCheckpoint, dir`steps, dir`text, dir`manifest, dir`files
      ensures Valid() && old(dir.steps) <= dir.steps
      ensures index == Apply(old(index), op)
      ensures dir.Now().calls == old(dir.Now().calls) + [CallRecord(op, true, true)]
      ensures dir.Now().crashes == old(dir.Now().crashes)
      ensures old(opsSinceCheckpoint) + 1 < checkpointEvery ==>
                && version == old(version) && opsSinceCheckpoint == old(opsSinceCheckpoint) + 1
                && dir.text == old(dir.text) + Line(dir.codec, op)
                && dir.manifest == old(dir.manifest) && dir.files == old(dir.files)
      ensures old(opsSinceCheckpoint) + 1 >= checkpointEvery ==> JustCheckpointed(old(version) + 1)
    {
      hide Exec, Legal, Shows, AfterWrite, Kept, Swallowed;
      dir.Take(Call(op));
      wal.Append(op);
      ghost var before := index;
      index := Apply(index, op);
      AfterOp(op, before);
    }

    /** The state after a completed checkpoint: empty log, only current and previous snapshot. */
    ghost predicate JustCheckpointed(v: nat)
      reads this, dir
    {
      && version == v && opsSinceCheckpoint == 0
      && dir.text == "" && dir.manifest == Some(ManifestState(v, v))
      && v in dir.files && dir.files[v] == Complete(index)
      && (forall f :: f in dir.files ==> !Stale(f, v))
    }

    method Add(ids: seq<Id>, vectors: seq<Vec>)
      requires Valid()
      modifies this`index, this`version, this`opsSinceCheckpoint, dir`steps, dir`text, dir`manifest, dir`files
      ensures Valid() && old(dir.steps) <= dir.steps
      ensures forall id, k: nat :: LastNamed(ids, vectors, id, k) ==> Lookup(index, id) == Some(vectors[k])
      ensures forall id :: !Names(ids, vectors, id) ==> Lookup(index, id) == Lookup(old(index), id)
      ensures dir.Now().calls == old(dir.Now().calls) + [CallRecord(VectorIndex.Op.Add(ids, vectors), true, true)]
      ensures opsSinceCheckpoint < checkpointEvery
    {
      hide Exec, Legal, Shows, LastNamed, Names, Lookup;
      ghost var before := index;
      Mutate(VectorIndex.Op.Add(ids, vectors));
      forall id {
        AddAllIs(before, ids, vectors, id);
      }
    }

    method Remove(id: Id)
      requires Valid()
      modifies this`index, this`version, this`opsSinceCheckpoint, dir`steps, dir`text, dir`manifest, dir`files
      ensures Valid() && old(dir.steps) <= dir.steps
      ensures index == old(index) - {id}
      ensures dir.Now().calls == old(dir.Now().calls) + [CallRecord(VectorIndex.Op.Remove(id), true, true)]
      ensures opsSinceCheckpoint < checkpointEvery
    {
      hide Exec, Legal, Shows;
      Mutate(VectorIndex.Op.Remove(id));
    }

    method AfterOp(ghost op: Op, ghost before: Index)
      requires Wired()
      requires dir.Now().calls != [] && Last(dir.Now().calls) == CallRecord(op, true, false)
      requires index == Apply(before, op)
      requires dir.Now().proc == Some(Proc(InLog, before, version, opsSinceCheckpoint, Some(op)))
      modifies this`version, this`opsSinceCheckpoint, dir`steps, dir`text, dir`manifest, dir`files
      ensures Valid() && old(dir.steps) <= dir.steps
      ensures dir.Now().calls == Front(old(dir.Now().calls)) + [CallRecord(op, true, true)]
      ensures dir.Now().crashes == old(dir.Now().crashes)
      ensures old(opsSinceCheckpoint) + 1 < checkpointEvery ==>
                && version == old(version) && opsSinceCheckpoint == old(opsSinceCheckpoint) + 1
                && dir.text == old(dir.text) && dir.manifest == old(dir.manifest) && dir.files == old(dir.files)
      ensures old(opsSinceCheckpoint) + 1 >= checkpointEvery ==> JustCheckpointed(old(version) + 1)
    {
      hide Exec, Legal, Shows;
      opsSinceCheckpoint := opsSinceCheckpoint + 1;
      dir.Take(ApplyInMemory);
      if opsSinceCheckpoint >= checkpointEvery {
        dir.Take(ThresholdCheckpoint);
        RunCheckpoint(Some(op));
      } else {
        dir.Take(ReturnCall);
      }
    }

    /** `snapshot()` and `checkpoint()` from outside a call. */
    method Checkpoint()
      requires Valid()
      modifies this`version, this`opsSinceCheckpoint, dir`steps, dir`text, dir`manifest, dir`files
      ensures Valid() && old(dir.steps) <= dir.steps
      ensures dir.Now().calls == old(dir.Now().calls)
      ensures old(opsSinceCheckpoint) == 0 ==> dir.steps == old(dir.steps) && version == old(version)
      ensures old(opsSinceCheckpoint) != 0 ==> JustCheckpointed(old(version) + 1)
    {
      hide Exec, Legal, Shows;
      if opsSinceCheckpoint == 0 {
        return;
      }
      dir.Take(ExplicitCheckpoint);
      RunCheckpoint(None);
    }

    /** The body of a checkpoint with pending operations. */
    method RunCheckpoint(ghost call: Option<Op>)
      requires At(Starting, call)
      modifies this`version, this`opsSinceCheckpoint, dir`steps, dir`text, dir`manifest, dir`files
      ensures Valid() && old(dir.steps) <= dir.steps
      ensures dir.Now().calls == if call.Some? then MarkAcked(old(dir.Now().calls)) else old(dir.Now().calls)
      ensures dir.Now().crashes == old(dir.Now().crashes)
      ensures JustCheckpointed(old(version) + 1)
    {
      hide Exec, Legal, Shows, MarkAcked;
      Publish(version + 1, call);
      PruneOldVersions(call);
      assert !Stale(version, version);
      dir.Take(EndCheckpoint);
    }

    /** Snapshot first, manifest second, and only then the log is cut. */
    method Publish(newVersion: nat, ghost call: Option<Op>)
      requires At(Starting, call) && newVersion == version + 1
      modifies this`version, this`opsSinceCheckpoint, dir`steps, dir`text, dir`manifest, dir`files
      ensures At(Pruning, call) && old(dir.steps) <= dir.steps
      ensures version == newVersion && opsSinceCheckpoint == 0
      ensures dir.text == "" && dir.manifest == Some(ManifestState(newVersion, newVersion))
      ensures dir.files == old(dir.files)[newVersion := Complete(index)]
      ensures dir.Now().calls == old(dir.Now().calls) && dir.Now().crashes == old(dir.Now().crashes)
    {
      hide Exec, Legal, Shows;
      WriteTo(newVersion, call);
      manifest.Commit(newVersion, newVersion);
      wal.Truncate();
      version := newVersion;
      opsSinceCheckpoint := 0;
    }

    /** `write_to`: the file appears, then it is complete; a crash may fall in between. */
    method WriteTo(file: nat, ghost call: Option<Op>)
      requires At(Starting, call) && file == version + 1
      modifies dir`steps, dir`files
      ensures At(Written, call) && old(dir.steps) <= dir.steps
      ensures dir.files == old(dir.files)[file := Complete(index)]
      ensures dir.Now().calls == old(dir.Now().calls) && dir.Now().crashes == old(dir.Now().crashes)
    {
      hide Exec, Legal, Shows;
      dir.SetFiles(dir.files[file := Partial], BeginWrite);
      dir.SetFiles(dir.files[file := Complete(index)], FinishWrite);
    }

    /** Unlinks, in whatever order the directory lists them, all files older than the previous version. */
    method PruneOldVersions(ghost call: Option<Op>)
      requires At(Pruning, call)
      modifies dir`steps, dir`files
      ensures At(Pruning, call) && old(dir.steps) <= dir.steps
      ensures forall f :: f in dir.files <==> f in old(dir.files) && !Stale(f, version)
      ensures forall f :: f in dir.files ==> dir.files[f] == old(dir.files[f])
      ensures dir.Now().calls == old(dir.Now().calls) && dir.Now().crashes == old(dir.Now().crashes)
    {
      hide Exec, Legal, Shows;
      var listing := dir.files.Keys;
      while listing != {}
        invariant At(Pruning, call) && old(dir.steps) <= dir.steps
        invariant forall f :: f in listing ==> f in dir.files
        invariant forall f :: f in dir.files ==> f in old(dir.files) && dir.files[f] == old(dir.files[f])
        invariant forall f :: f in old(dir.files) && !Stale(f, version) ==> f in dir.files
        invariant forall f :: f in dir.files && f !in listing ==> !Stale(f, version)
        invariant dir.Now().calls == old(dir.Now().calls) && dir.Now().crashes == old(dir.Now().crashes)
        decreases listing
      {
        var file :| file in listing;
        listing := listing - {file};
        if Stale(file, version) {
          dir.SetFiles(dir.files - {file}, Unlink(file));
        }
      }
    }
  }

  /** The index factory over the snapshot files. */
  function LoadFile(files: map<nat, File>, path: Option<nat>): Option<Index>
  {
    Load(Disk(EMPTY_LOG, None, files), path)
  }

  /** A dead writer's directory can be recovered, to the fold of its recovered history. */
  lemma WhatRestartFinds(every: nat, steps: seq<Step>)
    requires every >= 1 && Legal(every, steps) && Exec(every, steps).proc.None?
    ensures var s := Exec(every, steps);
      && Enabled(s, Restart) && Recover(s.disk) == Some(Fold(Recovered(s)))
      && (!s.slipped ==> Fold(Recovered(s)) == Fold(s.logged))
  {
    hide Exec, Legal, DiskOk, LogOk, MemoryOk, ProcOk, AcksOk, EntriesOk, LoggedOk, PlacedOk, OrderOk, UnterminatedOk,
         Recover, Fold, Recovered;
    var s := Exec(every, steps);
    RunInv(every, steps);
    RecoverIsFold(s);
    if !s.slipped {
      InvOrder(s);
    }
  }
}
