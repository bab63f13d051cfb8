/**
 The asynchronous job protocol as a state machine: API processes submit, one worker at a
 time reads, executes and acknowledges, records expire, and the worker may die between any
 two effects.  Unacknowledged messages are delivered again.
 */
module Jobs {
  import opened Prelude

  type JobId = nat
  type Message = nat  // position in the stream

  datatype JobStatus = Pending | Running | Done | Failed

  /** How a use case ends: a result, or an exception turned into text. */
  datatype Outcome = Completed(result: string) | Raised(error: string)

  datatype Job = Job(
    id: JobId,
    tenantId: string,
    kind: string,
    payload: string,
    status: JobStatus,
    result: Option<string>,
    error: Option<string>)
  {
    function Transition(target: JobStatus): Option<Job>
    {
      if Allowed(status, target) then Some(this.(status := target)) else None
    }

    /** `start`: None is `InvalidJobTransition`. */
    function Start(): Option<Job>
    {
      Transition(Running)
    }

    function Complete(r: string): Option<Job>
    {
      var t := Transition(Done);
      if t.None? then None else Some(t.value.(result := Some(r)))
    }

    function Fail(e: string): Option<Job>
    {
      var t := Transition(Failed);
      if t.None? then None else Some(t.value.(error := Some(e)))
    }

    /** Completed or failed, as the use case ended. */
    function Finish(outcome: Outcome): Option<Job>
    {
      match outcome
      case Completed(r) => Complete(r)
      case Raised(e) => Fail(e)
    }
  }

  predicate Allowed(current: JobStatus, target: JobStatus)
  {
    match current
    case Pending => target.Running?
    case Running => target.Done? || target.Failed?
    case Done => false
    case Failed => false
  }

  predicate Terminal(status: JobStatus)
  {
    status.Done? || status.Failed?
  }

  function NewJob(id: JobId, tenantId: string, kind: string, payload: string): Job
  {
    Job(id, tenantId, kind, payload, Pending, None, None)
  }

  datatype Worker =
    | Down
    | Waiting
    | Received(m: Message)
    | Loaded(m: Message, job: Job)     // the record was read
    | Missing(m: Message)              // there was none
    | Started(m: Message, job: Job)    // RUNNING has been saved
    | Entered(m: Message, job: Job)    // the use case has begun
    | Ended(m: Message, job: Job)      // its outcome is known, not yet saved
    | Recorded(m: Message)             // the outcome has been saved

  /**
   `store` and the stream (`stream`, `delivered`, `pending`) are Redis; `unsent` are jobs
   saved by an API process that has not enqueued them yet.  `used`, `entered` and `records`
   are bookkeeping: ids handed out, use cases begun, and the record last saved for each id
   whether or not it has expired since.
   */
  datatype World = World(
    store: map<JobId, Job>,
    stream: seq<JobId>,
    delivered: nat,
    pending: set<Message>,
    unsent: set<JobId>,
    worker: Worker,
    used: set<JobId>,
    entered: multiset<JobId>,
    records: map<JobId, Job>)

  const EMPTY_WORLD := World(map[], [], 0, {}, {}, Down, {}, multiset{}, map[])

  datatype Step =
    | SaveNew(id: JobId, tenantId: string, kind: string, payload: string)
    | Enqueue(id: JobId)
    | Expire(id: JobId)
    | WorkerUp | WorkerCrash
    | DeliverNew | Reclaim(m: Message)
    | LoadRecord | StartJob | EnterUseCase | EndUseCase(outcome: Outcome) | SaveOutcome | Ack

  predicate Enabled(w: World, step: Step)
  {
    match step
    case SaveNew(id, _, _, _) => id !in w.used
    case Enqueue(id) => id in w.unsent
    case Expire(id) => id in w.store
    case WorkerUp => w.worker.Down?
    case WorkerCrash => !w.worker.Down?
    case DeliverNew => w.worker.Waiting? && w.delivered < |w.stream|
    case Reclaim(m) => w.worker.Waiting? && m in w.pending && m < |w.stream|
    case LoadRecord => w.worker.Received? && w.worker.m < |w.stream|
    case StartJob => w.worker.Loaded?
    case EnterUseCase => w.worker.Started?
    case EndUseCase(outcome) => w.worker.Entered? && w.worker.job.Finish(outcome).Some?
    case SaveOutcome => w.worker.Ended?
    case Ack => w.worker.Recorded? || w.worker.Missing?
  }

  function Put(w: World, job: Job): World
  {
    w.(store := w.store[job.id := job], records := w.records[job.id := job])
  }

  function Do(w: World, step: Step): World
    requires Enabled(w, step)
  {
    match step
    case SaveNew(id, tenantId, kind, payload) =>
      Put(w, NewJob(id, tenantId, kind, payload)).(unsent := w.unsent + {id}, used := w.used + {id})
    case Enqueue(id) => w.(stream := w.stream + [id], unsent := w.unsent - {id})
    case Expire(id) => w.(store := w.store - {id})
    case WorkerUp => w.(worker := Waiting)
    case WorkerCrash => w.(worker := Down)
    case DeliverNew =>
      w.(worker := Received(w.delivered), pending := w.pending + {w.delivered}, delivered := w.delivered + 1)
    case Reclaim(m) => w.(worker := Received(m))
    case LoadRecord =>
      var id := w.stream[w.worker.m];
      w.(worker := if id in w.store then Loaded(w.worker.m, w.store[id]) else Missing(w.worker.m))
    case StartJob =>
      var started := w.worker.job.Start();
      // an invalid transition is raised outside the try block and kills the worker
      if started.None? then w.(worker := Down)
      else Put(w, started.value).(worker := Started(w.worker.m, started.value))
    case EnterUseCase =>
      w.(worker := Entered(w.worker.m, w.worker.job), entered := w.entered + multiset{w.worker.job.id})
    case EndUseCase(outcome) =>
      w.(worker := Ended(w.worker.m, w.worker.job.Finish(outcome).value))
    case SaveOutcome => Put(w, w.worker.job).(worker := Recorded(w.worker.m))
    case Ack => w.(worker := Waiting, pending := w.pending - {w.worker.m})
  }

  /** Every step of the run is enabled when taken, starting from `w`. */
  predicate Legal(w: World, steps: seq<Step>)
    decreases |steps|, 0
  {
    steps == [] || (Legal(w, Front(steps)) && Enabled(Exec(w, Front(steps)), Last(steps)))
  }

  function Exec(w: World, steps: seq<Step>): World
    requires Legal(w, steps)
    decreases |steps|, 1
  {
    if steps == [] then w else Do(Exec(w, Front(steps)), Last(steps))
  }

  lemma Extend(w: World, steps: seq<Step>, step: Step)
    requires Legal(w, steps) && Enabled(Exec(w, steps), step)
    ensures Legal(w, steps + [step])
    ensures Exec(w, steps + [step]) == Do(Exec(w, steps), step)
  {
    assert Front(steps + [step]) == steps;
  }

  // ---------------------------------------------------------------- the invariant

  predicate Distinct(s: seq<JobId>)
  {
    forall i, j :: 0 <= i < j < |s| ==> s[i] != s[j]
  }

  ghost predicate StreamOk(stream: seq<JobId>, delivered: nat, pending: set<Message>, used: set<JobId>, unsent: set<JobId>)
  {
    && Distinct(stream)
    && delivered <= |stream|
    && (forall m :: m in pending ==> m < delivered)
    && (forall i :: 0 <= i < |stream| ==> stream[i] in used && stream[i] !in unsent)
    && unsent <= used
  }

  ghost predicate RecordsOk(records: map<JobId, Job>, used: set<JobId>, unsent: set<JobId>)
  {
    && records.Keys == used
    && (forall id :: id in records ==> records[id].id == id)
    && (forall id :: id in unsent ==> id in records && records[id].status.Pending?)
  }

  /** The store shows the record last saved, or nothing. */
  ghost predicate StoreOk(store: map<JobId, Job>, records: map<JobId, Job>)
  {
    forall id :: id in store ==> id in records && store[id] == records[id]
  }

  predicate Past(records: map<JobId, Job>, id: JobId)
  {
    id in records && !records[id].status.Pending?
  }

  /** No use case has begun twice, nor while the last saved record is still PENDING. */
  ghost predicate EnteredOk(entered: multiset<JobId>, records: map<JobId, Job>)
  {
    forall id :: 0 <= entered[id] <= 1 && (entered[id] == 1 ==> Past(records, id))
  }

  predicate Settled(store: map<JobId, Job>, id: JobId)
  {
    id !in store || Terminal(store[id].status)
  }

  predicate Busy(k: Worker)
  {
    !k.Down? && !k.Waiting?
  }

  /** What a busy worker holds, against the record of its job. */
  ghost predicate HoldsOk(k: Worker, id: JobId, store: map<JobId, Job>, records: map<JobId, Job>, entered: multiset<JobId>)
  {
    && (k.Missing? ==> id !in store)
    && (k.Recorded? ==> id in records && Terminal(records[id].status))
    && (k.Loaded? || k.Started? || k.Entered? ==> id in records && k.job == records[id])
    && (k.Started? || k.Entered? ==> k.job.status.Running?)
    && (k.Started? ==> entered[id] == 0)
    && (k.Entered? ==> entered[id] == 1)
    && (k.Ended? ==> id in records && records[id].status.Running? && entered[id] == 1
                     && exists o :: records[id].Finish(o) == Some(k.job))
  }

  ghost predicate WorkerOk(w: World)
  {
    Busy(w.worker) ==>
      && w.worker.m in w.pending && w.worker.m < |w.stream|
      && HoldsOk(w.worker, w.stream[w.worker.m], w.store, w.records, w.entered)
  }

  ghost predicate AckedOk(stream: seq<JobId>, delivered: nat, pending: set<Message>, store: map<JobId, Job>)
  {
    forall m :: 0 <= m < delivered && m < |stream| && m !in pending ==> Settled(store, stream[m])
  }

  ghost predicate Inv(w: World)
  {
    && StreamOk(w.stream, w.delivered, w.pending, w.used, w.unsent)
    && RecordsOk(w.records, w.used, w.unsent)
    && StoreOk(w.store, w.records)
    && EnteredOk(w.entered, w.records)
    && WorkerOk(w)
    && AckedOk(w.stream, w.delivered, w.pending, w.store)
  }

  /** The job ended as the use case did: DONE with its result, or FAILED with its error, and otherwise as it was. */
  predicate EndedAs(job: Job, outcome: Outcome, t: Job)
  {
    match outcome
    case Completed(result) => t == job.(status := Done, result := Some(result))
    case Raised(error) => t == job.(status := Failed, error := Some(error))
  }

  /** Exactly a RUNNING job can be finished, and it ends as the use case did. */
  lemma FinishKeepsIdentity(job: Job, outcome: Outcome)
    requires job.Finish(outcome).Some?
    ensures job.status.Running? && EndedAs(job, outcome, job.Finish(outcome).value)
    ensures var t := job.Finish(outcome).value;
      Terminal(t.status) && Evolves(job, t) && t.id == job.id
  {
  }

  /** How the record of one job may change: forward only, and a terminal record not at all. */
  predicate Evolves(a: Job, b: Job)
  {
    && b.id == a.id && b.tenantId == a.tenantId && b.kind == a.kind && b.payload == a.payload
    && Rank(a.status) <= Rank(b.status)
    && (Rank(a.status) == Rank(b.status) ==> a == b)
  }

  function Rank(status: JobStatus): nat
  {
    match status
    case Pending => 0
    case Running => 1
    case Done => 2
    case Failed => 2
  }

  lemma SaveNewKeeps(w: World, step: Step)
    requires Inv(w) && Enabled(w, step) && step.SaveNew?
    ensures Inv(Do(w, step))
  {
    NewId(w, step.id);
    hide Distinct, HoldsOk;
  }

  /** An id not handed out before is nowhere. */
  lemma NewId(w: World, id: JobId)
    requires Inv(w) && id !in w.used
    ensures id !in w.records && id !in w.store && w.entered[id] == 0 && id !in w.stream
  {
    hide WorkerOk, AckedOk;
  }

  lemma EnqueueKeeps(w: World, step: Step)
    requires Inv(w) && Enabled(w, step) && step.Enqueue?
    ensures Inv(Do(w, step))
  {
    hide HoldsOk, StoreOk, EnteredOk;
  }

  lemma ExpireKeeps(w: World, step: Step)
    requires Inv(w) && Enabled(w, step) && step.Expire?
    ensures Inv(Do(w, step))
  {
    hide StreamOk, RecordsOk, EnteredOk;
  }

  lemma DeliverKeeps(w: World, step: Step)
    requires Inv(w) && Enabled(w, step)
    requires step.WorkerUp? || step.WorkerCrash? || step.DeliverNew? || step.Reclaim?
    ensures Inv(Do(w, step))
  {
    hide RecordsOk, EnteredOk, StoreOk, Distinct;
  }

  lemma LoadKeeps(w: World)
    requires Inv(w) && Enabled(w, LoadRecord)
    ensures Inv(Do(w, LoadRecord))
  {
    hide StreamOk, RecordsOk, EnteredOk, AckedOk;
  }

  lemma AckKeeps(w: World)
    requires Inv(w) && Enabled(w, Ack)
    ensures Inv(Do(w, Ack))
  {
    hide RecordsOk, EnteredOk, Distinct;
  }

  /** Saving the record of a job whose message is pending, once it is past PENDING. */
  lemma PutKeeps(w: World, job: Job, m: Message)
    requires StreamOk(w.stream, w.delivered, w.pending, w.used, w.unsent) && RecordsOk(w.records, w.used, w.unsent)
    requires StoreOk(w.store, w.records) && EnteredOk(w.entered, w.records)
    requires AckedOk(w.stream, w.delivered, w.pending, w.store)
    requires m in w.pending && m < |w.stream| && w.stream[m] == job.id && !job.status.Pending?
    ensures RecordsOk(Put(w, job).records, w.used, w.unsent) && StoreOk(Put(w, job).store, Put(w, job).records)
    ensures EnteredOk(w.entered, Put(w, job).records)
    ensures AckedOk(w.stream, w.delivered, w.pending, Put(w, job).store)
  {
  }

  /** The job a worker has started, entered or ended is the one its message names. */
  lemma WorkerJobId(w: World)
    requires Inv(w) && (w.worker.Loaded? || w.worker.Started? || w.worker.Entered? || w.worker.Ended?)
    ensures w.worker.m in w.pending && w.worker.m < |w.stream| && w.worker.job.id == w.stream[w.worker.m]
    ensures w.worker.Ended? ==> Terminal(w.worker.job.status)
  {
    hide StreamOk, EnteredOk, AckedOk, StoreOk;
    if w.worker.Ended? {
      var id := w.stream[w.worker.m];
      var o :| w.records[id].Finish(o) == Some(w.worker.job);
      FinishKeepsIdentity(w.records[id], o);
    }
  }

  lemma StartKeeps(w: World)
    requires Inv(w) && Enabled(w, StartJob)
    ensures Inv(Do(w, StartJob))
  {
    hide StreamOk, RecordsOk, StoreOk, AckedOk;
    WorkerJobId(w);
    var started := w.worker.job.Start();
    if started.Some? {
      PutKeeps(w, started.value, w.worker.m);
    }
  }

  lemma EnterKeeps(w: World)
    requires Inv(w) && Enabled(w, EnterUseCase)
    ensures Inv(Do(w, EnterUseCase))
  {
    hide StreamOk, RecordsOk, StoreOk, AckedOk;
    WorkerJobId(w);
  }

  lemma EndKeeps(w: World, outcome: Outcome)
    requires Inv(w) && Enabled(w, EndUseCase(outcome))
    ensures Inv(Do(w, EndUseCase(outcome)))
  {
    hide StreamOk, RecordsOk, StoreOk, AckedOk, EnteredOk;
    FinishKeepsIdentity(w.worker.job, outcome);
  }

  lemma SaveKeeps(w: World)
    requires Inv(w) && Enabled(w, SaveOutcome)
    ensures Inv(Do(w, SaveOutcome))
  {
    hide StreamOk, RecordsOk, StoreOk, AckedOk, EnteredOk;
    WorkerJobId(w);
    PutKeeps(w, w.worker.job, w.worker.m);
  }

  lemma StepKeeps(w: World, step: Step)
    requires Inv(w) && Enabled(w, step)
    ensures Inv(Do(w, step))
  {
    hide Inv, Do, Enabled;
    match step
    case SaveNew(_, _, _, _) => SaveNewKeeps(w, step);
    case Enqueue(_) => EnqueueKeeps(w, step);
    case Expire(_) => ExpireKeeps(w, step);
    case LoadRecord => LoadKeeps(w);
    case StartJob => StartKeeps(w);
    case EnterUseCase => EnterKeeps(w);
    case EndUseCase(outcome) => EndKeeps(w, outcome);
    case SaveOutcome => SaveKeeps(w);
    case Ack => AckKeeps(w);
    case _ => DeliverKeeps(w, step);
  }

  /** From the job a worker holds to the record it saves. */
  lemma WorkerEvolves(w: World)
    requires Inv(w)
    ensures w.worker.Ended? ==> w.worker.job.id in w.records && Evolves(w.records[w.worker.job.id], w.worker.job)
    ensures w.worker.Loaded? ==> w.worker.job.id in w.records && w.worker.job == w.records[w.worker.job.id]
  {
    hide StreamOk, EnteredOk, AckedOk, StoreOk;
    if w.worker.Ended? {
      var id := w.stream[w.worker.m];
      var o :| w.records[id].Finish(o) == Some(w.worker.job);
      FinishKeepsIdentity(w.records[id], o);
    }
  }

  predicate RecordsEvolve(before: map<JobId, Job>, after: map<JobId, Job>)
  {
    forall id :: id in before ==> id in after && Evolves(before[id], after[id])
  }

  /** Records only move forward along a step. */
  lemma StepEvolves(w: World, step: Step)
    requires Inv(w) && Enabled(w, step)
    ensures RecordsEvolve(w.records, Do(w, step).records)
  {
    WorkerEvolves(w);
    if step.SaveNew? {
      NewId(w, step.id);
    }
    hide Inv;
  }

  lemma {:induction false} RunInv(w: World, steps: seq<Step>)
    requires Inv(w) && Legal(w, steps)
    ensures Inv(Exec(w, steps))
  {
    if steps != [] {
      hide Inv, Do, Enabled;
      RunInv(w, Front(steps));
      StepKeeps(Exec(w, Front(steps)), Last(steps));
    }
  }

  lemma PendingInStream(w: World)
    requires Inv(w)
    ensures w.delivered <= |w.stream| && forall m :: m in w.pending ==> m < w.delivered
  {
    hide RecordsOk, StoreOk, EnteredOk, AckedOk, WorkerOk;
  }

  lemma InitInv()
    ensures Inv(EMPTY_WORLD)
  {
  }

  // ---------------------------------------------------------------- results over every run

  /** At-most-once: over all crashes, redeliveries and expiries each use case is entered at most once. */
  lemma {:induction false} AtMostOnce(steps: seq<Step>, id: JobId)
    requires Legal(EMPTY_WORLD, steps)
    ensures Exec(EMPTY_WORLD, steps).entered[id] <= 1
  {
    hide Exec, Legal, StreamOk, RecordsOk, StoreOk, WorkerOk, AckedOk;
    InitInv();
    RunInv(EMPTY_WORLD, steps);
  }

  lemma {:induction false} PrefixLegal(w: World, steps: seq<Step>, more: seq<Step>)
    requires Legal(w, steps + more)
    ensures Legal(w, steps)
    decreases more
  {
    hide Do, Enabled;
    if more == [] {
      assert steps + more == steps;
    } else {
      assert Front(steps + more) == steps + Front(more);
      PrefixLegal(w, steps, Front(more));
    }
  }

  lemma EvolveTransitively(a: map<JobId, Job>, b: map<JobId, Job>, c: map<JobId, Job>)
    requires RecordsEvolve(a, b) && RecordsEvolve(b, c)
    ensures RecordsEvolve(a, c)
  {
    forall id | id in a ensures id in c && Evolves(a[id], c[id]) {
      assert Evolves(a[id], b[id]) && Evolves(b[id], c[id]);
    }
  }

  /**
   The record of a job moves PENDING to RUNNING to one terminal state and then stays as it
   is, across crashes, redeliveries and expiry.
   */
  lemma {:induction false} RecordsMoveForward(steps: seq<Step>, more: seq<Step>)
    requires Legal(EMPTY_WORLD, steps + more)
    ensures Legal(EMPTY_WORLD, steps)
    ensures RecordsEvolve(Exec(EMPTY_WORLD, steps).records, Exec(EMPTY_WORLD, steps + more).records)
    decreases more
  {
    hide Inv, Do, Enabled, RecordsEvolve;
    PrefixLegal(EMPTY_WORLD, steps, more);
    if more == [] {
      assert steps + more == steps;
      SameEvolves(Exec(EMPTY_WORLD, steps).records);
    } else {
      assert Front(steps + more) == steps + Front(more) && Last(steps + more) == Last(more);
      var x := Exec(EMPTY_WORLD, steps + Front(more));
      RecordsMoveForward(steps, Front(more));
      InitInv();
      RunInv(EMPTY_WORLD, steps + Front(more));
      StepEvolves(x, Last(more));
      EvolveTransitively(Exec(EMPTY_WORLD, steps).records, x.records, Do(x, Last(more)).records);
    }
  }

  lemma SameEvolves(records: map<JobId, Job>)
    ensures RecordsEvolve(records, records)
  {
  }

  /** What the store shows is the record last saved, or nothing once it has expired. */
  lemma {:induction false} StoreShowsLastRecord(steps: seq<Step>, id: JobId)
    requires Legal(EMPTY_WORLD, steps)
    ensures var w := Exec(EMPTY_WORLD, steps);
      id in w.store ==> id in w.records && w.store[id] == w.records[id]
  {
    hide Exec, Legal, StreamOk, RecordsOk, EnteredOk, WorkerOk, AckedOk;
    InitInv();
    RunInv(EMPTY_WORLD, steps);
  }

  /** A message is acknowledged only when its job's record is terminal or absent, and that stays so. */
  lemma {:induction false} AckedMeansSettled(steps: seq<Step>, m: Message)
    requires Legal(EMPTY_WORLD, steps)
    requires m < Exec(EMPTY_WORLD, steps).delivered && m !in Exec(EMPTY_WORLD, steps).pending
    ensures var w := Exec(EMPTY_WORLD, steps);
      m < |w.stream| && Settled(w.store, w.stream[m])
  {
    hide Exec, Legal, RecordsOk, StoreOk, EnteredOk, WorkerOk;
    InitInv();
    RunInv(EMPTY_WORLD, steps);
  }

  // ---------------------------------------------------------------- what redelivery can do

  predicate NoExpiry(steps: seq<Step>, id: JobId)
  {
    forall i :: 0 <= i < |steps| ==> steps[i] != Expire(id)
  }

  /** The worker is not past the start of message `m`. */
  predicate NotPastStart(w: World, m: Message)
  {
    Busy(w.worker) && w.worker.m == m ==> w.worker.Received? || w.worker.Loaded?
  }

  /**
   A redelivered message whose record is RUNNING or terminal is stuck: whatever happens,
   short of the record expiring, it is never acknowledged, never executed and its record
   never changes.
   */
  lemma {:induction false} RedeliveredStuck(w: World, m: Message, more: seq<Step>)
    requires Inv(w) && m in w.pending && m < |w.stream| && NotPastStart(w, m)
    requires var id := w.stream[m]; id in w.store && !w.store[id].status.Pending?
    requires Legal(w, more) && NoExpiry(more, w.stream[m])
    ensures Inv(Exec(w, more))
    ensures var x, id := Exec(w, more), w.stream[m];
      && m in x.pending && m < |x.stream| && x.stream[m] == id && NotPastStart(x, m)
      && id in x.store && x.store[id] == w.store[id] && x.entered[id] == w.entered[id]
    decreases more
  {
    hide Inv, Do, Enabled;
    if more != [] {
      var before, step := Exec(w, Front(more)), Last(more);
      RedeliveredStuck(w, m, Front(more));
      StepKeeps(before, step);
      StuckStep(before, m, step);
    }
  }

  /** A busy worker on another message works on another job. */
  lemma OtherJob(w: World, m: Message)
    requires Inv(w) && Busy(w.worker) && m < |w.stream|
    ensures w.worker.m < |w.stream| && (w.worker.m != m ==> w.stream[w.worker.m] != w.stream[m])
  {
    hide RecordsOk, StoreOk, EnteredOk, AckedOk, HoldsOk;
  }

  lemma StuckStep(w: World, m: Message, step: Step)
    requires Inv(w) && m in w.pending && m < |w.stream| && NotPastStart(w, m)
    requires var id := w.stream[m]; id in w.store && !w.store[id].status.Pending?
    requires Enabled(w, step) && step != Expire(w.stream[m])
    ensures var x, id := Do(w, step), w.stream[m];
      && m in x.pending && m < |x.stream| && x.stream[m] == id && NotPastStart(x, m)
      && id in x.store && x.store[id] == w.store[id] && x.entered[id] == w.entered[id]
  {
    if Busy(w.worker) {
      OtherJob(w, m);
    }
    if w.worker.Loaded? || w.worker.Started? || w.worker.Entered? || w.worker.Ended? {
      WorkerJobId(w);
    }
    StoredIsUsed(w, w.stream[m]);
    WorkerEvolves(w);
    hide StreamOk, RecordsOk, EnteredOk, AckedOk, HoldsOk;
  }

  lemma StoredIsUsed(w: World, id: JobId)
    requires Inv(w) && id in w.store
    ensures id in w.used
  {
    hide StreamOk, EnteredOk, AckedOk, WorkerOk;
  }

  lemma Then(w: World, steps: seq<Step>, step: Step, id: JobId) returns (out: seq<Step>)
    requires Legal(w, steps) && Enabled(Exec(w, steps), step) && NoExpiry(steps, id) && step != Expire(id)
    ensures Legal(w, out) && Exec(w, out) == Do(Exec(w, steps), step) && NoExpiry(out, id)
  {
    out := steps + [step];
    Extend(w, steps, step);
  }

  /** A redelivered message whose record is absent is dropped in three steps. */
  lemma AbsentIsDropped(w: World, m: Message) returns (steps: seq<Step>)
    requires w.worker.Waiting? && m in w.pending && m < |w.stream| && w.stream[m] !in w.store
    ensures Legal(w, steps) && NoExpiry(steps, w.stream[m]) && m !in Exec(w, steps).pending
  {
    var id := w.stream[m];
    steps := Then(w, [], Reclaim(m), id);
    steps := Then(w, steps, LoadRecord, id);
    steps := Then(w, steps, Ack, id);
  }

  lemma StartPending(w: World, m: Message) returns (steps: seq<Step>)
    requires w.worker.Waiting? && m in w.pending && m < |w.stream|
    requires w.stream[m] in w.store && w.store[w.stream[m]].status.Pending?
    ensures Legal(w, steps) && NoExpiry(steps, w.stream[m])
    ensures var job := w.store[w.stream[m]].(status := Running);
      Exec(w, steps) == Put(w, job).(worker := Started(m, job))
  {
    var id := w.stream[m];
    steps := Then(w, [], Reclaim(m), id);
    steps := Then(w, steps, LoadRecord, id);
    steps := Then(w, steps, StartJob, id);
  }

  lemma FinishStarted(w: World, steps: seq<Step>, m: Message, job: Job, outcome: Outcome) returns (out: seq<Step>)
    requires Legal(w, steps) && NoExpiry(steps, job.id) && job.status.Running?
    requires Exec(w, steps).worker == Started(m, job) && m in Exec(w, steps).pending
    ensures Legal(w, out) && NoExpiry(out, job.id)
    ensures var x, y := Exec(w, steps), Exec(w, out);
      && m !in y.pending && y.entered == x.entered + multiset{job.id}
      && job.id in y.store && Some(y.store[job.id]) == job.Finish(outcome)
  {
    hide Exec, Legal;
    FinishKeepsIdentity(job, outcome);
    out := Then(w, steps, EnterUseCase, job.id);
    out := Then(w, out, EndUseCase(outcome), job.id);
    out := Then(w, out, SaveOutcome, job.id);
    out := Then(w, out, Ack, job.id);
  }

  /** One whose record is still PENDING is executed, once, and acknowledged like a first delivery. */
  lemma PendingIsExecuted(w: World, m: Message, outcome: Outcome) returns (steps: seq<Step>)
    requires w.worker.Waiting? && m in w.pending && m < |w.stream|
    requires w.stream[m] in w.store && w.store[w.stream[m]].status.Pending? && w.store[w.stream[m]].id == w.stream[m]
    ensures Legal(w, steps) && NoExpiry(steps, w.stream[m])
    ensures var x, id := Exec(w, steps), w.stream[m];
      && m !in x.pending && x.entered == w.entered + multiset{id} && id in x.store
      && Some(x.store[id]) == w.store[id].(status := Running).Finish(outcome)
  {
    var job := w.store[w.stream[m]].(status := Running);
    steps := StartPending(w, m);
    steps := FinishStarted(w, steps, m, job, outcome);
  }

  lemma StoredId(w: World, id: JobId)
    requires Inv(w) && id in w.store
    ensures w.store[id].id == id
  {
    hide StreamOk, EnteredOk, AckedOk, WorkerOk;
  }

  /**
   Redelivery is safe only in part.  A message delivered again can ever be acknowledged
   without its record expiring if and only if the record is absent or still PENDING; a
   crash after RUNNING was saved strands the message for as long as the record lives.
   */
  lemma RedeliveryIff(w: World, m: Message)
    requires Inv(w) && w.worker.Waiting? && m in w.pending && m < |w.stream|
    ensures (exists steps :: Legal(w, steps) && NoExpiry(steps, w.stream[m]) && m !in Exec(w, steps).pending)
            <==> (w.stream[m] !in w.store || w.store[w.stream[m]].status.Pending?)
  {
    hide Inv, Exec, Legal;
    var id := w.stream[m];
    if id !in w.store {
      var steps := AbsentIsDropped(w, m);
    } else if w.store[id].status.Pending? {
      StoredId(w, id);
      var steps := PendingIsExecuted(w, m, Completed(""));
    } else {
      forall steps | Legal(w, steps) && NoExpiry(steps, id) ensures m in Exec(w, steps).pending {
        RedeliveredStuck(w, m, steps);
      }
    }
  }

  /** Such a run exists: submit, deliver, save RUNNING, crash, restart. */
  lemma CrashAfterStartStrands() returns (steps: seq<Step>)
    ensures Legal(EMPTY_WORLD, steps)
    ensures var w := Exec(EMPTY_WORLD, steps);
      && w.worker.Waiting? && 0 in w.pending && w.stream == [0] && w.entered[0] == 0
      && 0 in w.store && w.store[0].status.Running?
  {
    var w := EMPTY_WORLD;
    steps := Then(w, [], SaveNew(0, "t", "index", ""), 0);
    steps := Then(w, steps, Enqueue(0), 0);
    steps := Then(w, steps, WorkerUp, 0);
    steps := Then(w, steps, DeliverNew, 0);
    steps := Then(w, steps, LoadRecord, 0);
    steps := Then(w, steps, StartJob, 0);
    steps := Then(w, steps, WorkerCrash, 0);
    steps := Then(w, steps, WorkerUp, 0);
  }
}
