/**
  What a worker's calls leave in the shared queue (internal/queue/worker.go, internal/queueprocessor/worker.go): a poll
  delivers the job as it is stored, and the end of processJob files it, sends it back or, when its calls fail, leaves
  it.
 */
module ClusterSettles {
  import opened Prelude
  import opened JobQueue
  import opened QueueInvariant
  import opened QueueEffects
  import opened WorkerPool
  import opened RedisQueue
  import opened Cluster

  /** Goroutine i of worker p is in processJob with the job. */
  predicate Processes(s: System, p: nat, i: nat, job: RawJob) {
    p < |s.pools| && i < |s.pools[p].tasks| && s.pools[p].tasks[i] == Running(job)
  }

  /** The goroutine is past processJob, and nobody else has moved. */
  predicate LetsGo(s: System, s': System, p: nat, i: nat) {
    && |s'.pools| == |s.pools| && p < |s.pools| && i < |s.pools[p].tasks|
    && s'.pools[p] == s.pools[p].(tasks := s.pools[p].tasks[i := Settled])
    && forall k :: 0 <= k < |s.pools| && k != p ==> s'.pools[k] == s.pools[k]
  }

  /** A job that was processed without an error ends up in completed: no attempt is counted, and nothing is retried. */
  lemma SettleCompletes(s: System, p: nat, i: nat, job: RawJob)
    requires SystemInv(s) && Processes(s, p, i, job)
    ensures CanDo(s, End(p, i, CompleteWith(true)))
    ensures var s' := Do(s, End(p, i, CompleteWith(true)));
      LetsGo(s, s', p, i) && s'.stranded == s.stranded && CompletedNow(s.q, s'.q, job.id)
  {
    EndedAsStored(s, p, i);
    CompletionEffect(s.q, job.id);
  }

  /**
    A job that was processed with an error goes to delayed, with the reason and the backoff of its attempt, while that
    leaves it an attempt, and otherwise to failed.
   */
  lemma SettleFails(s: System, p: nat, i: nat, job: RawJob, reason: string)
    requires SystemInv(s) && Processes(s, p, i, job) && InInt64(job.opts.backoff.delay)
    ensures CanDo(s, End(p, i, FailWith(reason, SettleOk)))
    ensures var s' := Do(s, End(p, i, FailWith(reason, SettleOk)));
      && LetsGo(s, s', p, i) && s'.stranded == s.stranded
      && if job.attemptsMade + 1 < job.opts.attempts
         then RetriedLater(s.q, s'.q, job.id, reason, job.opts.backoff.delay)
         else FailedNow(s.q, s'.q, job.id, reason)
  {
    EndedAsStored(s, p, i);
    FailureEffect(s.q, job.id, reason, job.opts);
  }

  /**
    A settle whose calls fail leaves the queue as it was, but for an attempt that HINCRBY may have counted; the
    goroutine lets go of the job all the same, and so it is stranded.
   */
  lemma SettleLost(s: System, p: nat, i: nat, job: RawJob, ending: Ending)
    requires SystemInv(s) && Processes(s, p, i, job)
    requires ending == CompleteWith(false) || (ending.FailWith? && ending.io != SettleOk)
    ensures CanDo(s, End(p, i, ending))
    ensures var s' := Do(s, End(p, i, ending));
      && LetsGo(s, s', p, i) && s'.stranded == s.stranded + multiset{job.id} && job.id in s'.q.active
      && job.id in s.q.jobs
      && s'.q == if ending.FailWith? && ending.io == CountedThenError
                 then s.q.(jobs := s.q.jobs[job.id := s.q.jobs[job.id].(attemptsMade := job.attemptsMade + 1)])
                 else s.q
  {
    EndedAsStored(s, p, i);
  }

  /**
    A poll that goes through holds the job at the head of the queue as its hash says; when the script took effect but
    the worker did not learn of it, the job is active and stranded; and when it did not, nothing has happened.
   */
  lemma PollDelivers(s: System, p: nat, io: PopIO, id: Id)
    requires SystemInv(s) && p < |s.pools| && s.pools[p].loop.Polling? && Pop(s.q).1 == Some(id)
    ensures var s' := Do(s, PopBy(p, io));
      && id in s.q.jobs && |s'.pools| == |s.pools|
      && match io
         case PopOk =>
           && s'.stranded == s.stranded && id in s'.q.active
           && var job := s.q.jobs[id];
              s'.pools[p].loop == Holding(RawJob(id, job.name, job.data, job.opts, job.attemptsMade))
         case ScriptError => s'.q == s.q && s'.stranded == s.stranded && s'.pools[p].loop.Selecting?
         case _ => s'.stranded == s.stranded + multiset{id} && id in s'.q.active && s'.pools[p].loop.Selecting?
  {
    PopKeeps(s.q);
  }

  /** A producer adds its job to the shared queue as it gave it, whatever the workers do; they hold what they held. */
  lemma ProduceAdds(s: System, spec: AddSpec, io: EntryIO)
    requires SystemInv(s)
    ensures var s' := Do(s, Produce(spec, io));
      && s'.pools == s.pools && s'.stranded == s.stranded
      && if PipelineRuns(s.q, spec, io) then Adds(s.q, s'.q, IdFor(s.q, spec), spec)
         else s'.q.(lastId := s.q.lastId) == s.q
  {
    AdditionEffect(s.q, spec, io);
  }

  /** In every run, what a worker holds is what the job's hash says: name, data, options and attempts. */
  lemma HeldIsStored(s: System, actions: seq<Action>, s': System, p: nat, job: RawJob)
    requires Initial(s) && SystemRun(s, actions, s') && p < |s'.pools| && Holds(s'.pools[p], job)
    ensures job.id in s'.q.jobs && job.id in s'.q.active
    ensures var stored := s'.q.jobs[job.id];
      && job.name == stored.name && job.data == stored.data && job.opts == stored.opts
      && job.attemptsMade == stored.attemptsMade && stored.expireAt.None?
  {
    InitialInv(s);
    SystemRunKeeps(s, actions, s');
    assert OwnedId(s', job.id);
    HeldFacts(s', p, job);
    assert AsStored(s'.q, job);
  }
}
