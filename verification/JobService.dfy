/**
 The live job classes.  `RedisJobs` is the record store and the stream with its consumer
 group; its ghost `steps` is the run of the job protocol so far.  `JobService` submits and
 executes, and `RunWorkerLoop` reads, executes and acknowledges.
 */
module JobService {
  import opened Prelude
  import opened Jobs

  class RedisJobs {
    ghost var steps: seq<Step>
    var store: map<JobId, Job>
    var stream: seq<JobId>
    var delivered: nat
    var pending: set<Message>

    ghost predicate Valid()
      reads this
    {
      Legal(EMPTY_WORLD, steps) && Inv(Now()) && Shows(Now())
    }

    ghost function Now(): World
      reads this
      requires Legal(EMPTY_WORLD, steps)
    {
      Exec(EMPTY_WORLD, steps)
    }

    /** The visible part of the state. */
    ghost predicate Shows(w: World)
      reads this
    {
      w.store == store && w.stream == stream && w.delivered == delivered && w.pending == pending
    }

    /** A message whose record is there but can no longer be started. */
    predicate Stranded(m: Message)
      reads this
    {
      m < |stream| && stream[m] in store && !store[stream[m]].status.Pending?
    }

    constructor ()
      ensures Valid() && steps == []
    {
      steps, store, stream, delivered, pending := [], map[], [], 0, {};
      InitInv();
    }

    /** A step of a process that leaves Redis alone. */
    ghost method Take(step: Step)
      requires Valid() && Enabled(Now(), step) && Shows(Do(Now(), step))
      modifies this`steps
      ensures Valid() && steps == old(steps) + [step] && Now() == Do(old(Now()), step)
    {
      StepKeeps(Now(), step);
      Extend(EMPTY_WORLD, steps, step);
      steps := steps + [step];
    }

    /** `save`: one SET. */
    method Save(job: Job, ghost step: Step)
      requires Valid() && Enabled(Now(), step)
      requires Do(Now(), step).store == store[job.id := job] && Do(Now(), step).stream == stream
      requires Do(Now(), step).delivered == delivered && Do(Now(), step).pending == pending
      modifies this`steps, this`store
      ensures Valid() && steps == old(steps) + [step] && Now() == Do(old(Now()), step)
      ensures store == old(store)[job.id := job]
    {
      hide Exec, Legal, Inv, Do, Enabled;
      StepKeeps(Now(), step);
      Extend(EMPTY_WORLD, steps, step);
      steps := steps + [step];
      store := store[job.id := job];
    }

    /** `by_id`: one GET. */
    method ById(id: JobId) returns (job: Option<Job>)
      ensures job == if id in store then Some(store[id]) else None
    {
      job := if id in store then Some(store[id]) else None;
    }

    /** `enqueue`: one XADD. */
    method AddMessage(id: JobId)
      requires Valid() && Enabled(Now(), Enqueue(id))
      modifies this`steps, this`stream
      ensures Valid() && steps == old(steps) + [Enqueue(id)] && Now() == Do(old(Now()), Enqueue(id))
      ensures stream == old(stream) + [id]
    {
      StepKeeps(Now(), Enqueue(id));
      Extend(EMPTY_WORLD, steps, Enqueue(id));
      steps := steps + [Enqueue(id)];
      stream := stream + [id];
    }

    /**
     `read_one`: an abandoned pending message if one has been idle long enough, else the
     next new message, else nothing.  `idle` are the pending messages XAUTOCLAIM may return.
     */
    method ReadOne(idle: set<Message>) returns (item: Option<(Message, JobId)>)
      requires Valid() && Now().worker.Waiting?
      modifies this`steps, this`delivered, this`pending
      ensures Valid()
      ensures item.None? ==> steps == old(steps) && pending == old(pending) && Now().worker.Waiting?
                             && idle * pending == {} && delivered == |stream|
      ensures item.Some? ==>
        && Now().worker == Received(item.value.0)
        && item.value.0 < |stream| && stream[item.value.0] == item.value.1
        && pending == old(pending) + {item.value.0} && old(steps) < steps
      ensures item.Some? && idle * old(pending) != {} ==>
                item.value.0 in idle && item.value.0 in old(pending) && delivered == old(delivered)
      ensures item.Some? && idle * old(pending) == {} ==>
                item.value.0 == old(delivered) && item.value.0 !in old(pending) && delivered == old(delivered) + 1
      ensures item.None? ==> delivered == old(delivered)
      ensures Now().entered == old(Now().entered)
    {
      hide Exec, Legal, Inv;
      PendingInStream(Now());
      assert forall m :: m in pending ==> m < delivered;
      var claimed := idle * pending;
      if claimed != {} {
        var m :| m in claimed;
        Take(Reclaim(m));
        return Some((m, stream[m]));
      }
      if delivered == |stream| {
        return None;
      }
      var m := delivered;
      StepKeeps(Now(), DeliverNew);
      Extend(EMPTY_WORLD, steps, DeliverNew);
      steps := steps + [DeliverNew];
      pending := pending + {m};
      delivered := delivered + 1;
      item := Some((m, stream[m]));
    }

    /** `ack`: one XACK. */
    method Acknowledge(m: Message)
      requires Valid() && Enabled(Now(), Ack) && Now().worker.m == m
      modifies this`steps, this`pending
      ensures Valid() && steps == old(steps) + [Ack] && Now() == Do(old(Now()), Ack)
      ensures pending == old(pending) - {m}
    {
      StepKeeps(Now(), Ack);
      Extend(EMPTY_WORLD, steps, Ack);
      steps := steps + [Ack];
      pending := pending - {m};
    }
  }

  datatype ExecuteResult = Executed(job: Job) | UnknownJob | InvalidTransition

  class JobService {
    const jobs: RedisJobs
    const useCase: Job -> Outcome

    constructor (jobs: RedisJobs, useCase: Job -> Outcome)
      ensures this.jobs == jobs && this.useCase == useCase
    {
      this.jobs, this.useCase := jobs, useCase;
    }

    /** `_submit`: the record first, then the message; `id` is a fresh uuid. */
    method Submit(id: JobId, tenantId: string, kind: string, payload: string)
      requires jobs.Valid() && id !in jobs.Now().used
      modifies jobs`steps, jobs`store, jobs`stream
      ensures jobs.Valid() && jobs.stream == old(jobs.stream) + [id]
      ensures jobs.store == old(jobs.store)[id := Job(id, tenantId, kind, payload, Pending, None, None)]
      ensures jobs.steps == old(jobs.steps) + [SaveNew(id, tenantId, kind, payload), Enqueue(id)]
    {
      hide Exec, Legal, Inv;
      jobs.Save(NewJob(id, tenantId, kind, payload), SaveNew(id, tenantId, kind, payload));
      jobs.AddMessage(id);
    }

    /**
     `execute`: start and save, run, record the outcome.  A missing record and an invalid
     transition propagate; a use-case exception becomes a FAILED record.
     */
    method Execute(jobId: JobId) returns (r: ExecuteResult)
      requires jobs.Valid() && jobs.Now().worker.Received?
      requires jobs.Now().worker.m < |jobs.stream| && jobs.stream[jobs.Now().worker.m] == jobId
      modifies jobs`steps, jobs`store
      ensures jobs.Valid() && old(jobs.steps) < jobs.steps
      ensures r.UnknownJob? <==> jobId !in old(jobs.store)
      ensures r.InvalidTransition? <==> jobId in old(jobs.store) && !old(jobs.store)[jobId].status.Pending?
      ensures r.Executed? ==>
        && (var started := old(jobs.store)[jobId].(status := Running); EndedAs(started, useCase(started), r.job))
        && jobs.store == old(jobs.store)[jobId := r.job]
        && jobs.Now().entered == old(jobs.Now().entered) + multiset{jobId}
        && jobs.Now().worker == Recorded(old(jobs.Now().worker.m))
      ensures !r.Executed? ==> jobs.store == old(jobs.store) && jobs.Now().entered == old(jobs.Now().entered)
      ensures r.UnknownJob? ==> jobs.Now().worker == Missing(old(jobs.Now().worker.m))
      ensures r.InvalidTransition? ==> jobs.Now().worker.Down?
    {
      hide Exec, Legal, Inv, Do, Enabled;
      var begun := Begin(jobId);
      match begun
      case Executed(started) =>
        var finished := RunStarted(started);
        r := Executed(finished);
      case UnknownJob => r := UnknownJob;
      case InvalidTransition => r := InvalidTransition;
    }

    /** Loads the record, moves it to RUNNING and saves that; the result holds the started job. */
    method Begin(jobId: JobId) returns (r: ExecuteResult)
      requires jobs.Valid() && jobs.Now().worker.Received?
      requires jobs.Now().worker.m < |jobs.stream| && jobs.stream[jobs.Now().worker.m] == jobId
      modifies jobs`steps, jobs`store
      ensures jobs.Valid() && old(jobs.steps) < jobs.steps && jobs.Now().entered == old(jobs.Now().entered)
      ensures r.UnknownJob? <==> jobId !in old(jobs.store)
      ensures r.InvalidTransition? <==> jobId in old(jobs.store) && !old(jobs.store)[jobId].status.Pending?
      ensures r.Executed? ==>
        && r.job == old(jobs.store)[jobId].(status := Running) && r.job.id == jobId
        && jobs.store == old(jobs.store)[jobId := r.job]
        && jobs.Now().worker == Started(old(jobs.Now().worker.m), r.job)
      ensures !r.Executed? ==> jobs.store == old(jobs.store)
      ensures r.UnknownJob? ==> jobs.Now().worker == Missing(old(jobs.Now().worker.m))
      ensures r.InvalidTransition? ==> jobs.Now().worker.Down?
    {
      var job := jobs.ById(jobId);
      jobs.Take(LoadRecord);
      if job.None? {
        return UnknownJob;
      }
      var started := job.value.Start();
      if started.None? {
        jobs.Take(StartJob);
        return InvalidTransition;
      }
      jobs.Save(started.value, StartJob);
      r := Executed(started.value);
    }

    /** Runs the use case, turning an exception into FAILED, and saves the outcome. */
    method RunStarted(job: Job) returns (finished: Job)
      requires jobs.Valid() && jobs.Now().worker.Started? && jobs.Now().worker.job == job
      requires job.status.Running? && jobs.Now().worker.m < |jobs.stream|
      modifies jobs`steps, jobs`store
      ensures jobs.Valid() && old(jobs.steps) < jobs.steps
      ensures EndedAs(job, useCase(job), finished)
      ensures jobs.store == old(jobs.store)[job.id := finished]
      ensures jobs.Now().entered == old(jobs.Now().entered) + multiset{job.id}
      ensures jobs.Now().worker == Recorded(old(jobs.Now().worker.m))
    {
      jobs.Take(EnterUseCase);
      var outcome := useCase(job);
      FinishKeepsIdentity(job, outcome);
      finished := job.Finish(outcome).value;
      jobs.Take(EndUseCase(outcome));
      jobs.Save(finished, SaveOutcome);
    }
  }

  /** How many deliveries have been acknowledged. */
  function Handled(delivered: nat, pending: set<Message>): int
  {
    delivered - |pending|
  }

  lemma HandledOneMore(delivered: nat, pending: set<Message>, m: Message, next: nat)
    requires next == if m in pending then delivered else delivered + 1
    ensures Handled(next, pending + {m} - {m}) == Handled(delivered, pending) + 1
  {
    if m in pending {
      assert pending + {m} - {m} == pending - {m};
    } else {
      assert pending + {m} - {m} == pending;
    }
  }

  /**
   The worker loop, for as many rounds as `should_stop` allows; `idle[i]` are the messages
   that may be reclaimed in round i.  The loop ends early only when an invalid transition
   kills the worker.  If it ends normally, every round took and acknowledged one message,
   new or pending, except rounds that found the stream fully delivered, and nothing else
   became pending; if not, the message that killed it is still pending and its record
   neither absent nor PENDING.
   */
  method RunWorkerLoop(service: JobService, idle: seq<set<Message>>) returns (alive: bool)
    requires service.jobs.Valid() && service.jobs.Now().worker.Down?
    modifies service.jobs`steps, service.jobs`store, service.jobs`delivered, service.jobs`pending
    ensures service.jobs.Valid()
    ensures alive ==> service.jobs.Now().worker.Waiting? && service.jobs.pending <= old(service.jobs.pending)
    ensures alive ==>
      var taken := Handled(service.jobs.delivered, service.jobs.pending)
                   - Handled(old(service.jobs.delivered), old(service.jobs.pending));
      taken <= |idle| && (taken == |idle| || service.jobs.delivered == |service.jobs.stream|)
    ensures !alive ==> service.jobs.Now().worker.Down?
    ensures !alive ==> exists m :: m in service.jobs.pending && service.jobs.Stranded(m)
  {
    hide Exec, Legal, Inv, Handled;
    var jobs := service.jobs;
    jobs.Take(WorkerUp);
    for round := 0 to |idle|
      invariant jobs.Valid() && jobs.Now().worker.Waiting? && jobs.pending <= old(jobs.pending)
      invariant var taken := Handled(jobs.delivered, jobs.pending) - Handled(old(jobs.delivered), old(jobs.pending));
        taken <= round && (taken == round || jobs.delivered == |jobs.stream|)
    {
      ghost var delivered, pending := jobs.delivered, jobs.pending;
      var item := jobs.ReadOne(idle[round]);
      if item.None? {
        continue;
      }
      var (messageId, jobId) := item.value;
      var r := service.Execute(jobId);
      if r.InvalidTransition? {
        return false;
      }
      jobs.Acknowledge(messageId);
      HandledOneMore(delivered, pending, messageId, jobs.delivered);
    }
    alive := true;
  }
}
