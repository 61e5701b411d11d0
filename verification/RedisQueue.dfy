/** internal/bullmq/bullmq.go on mutable fields: each method is proved to take the queue to the state JobQueue says. */
module RedisQueue {
  import opened Prelude
  import opened JobQueue

  /** Outcome of the script call (without effect, or with its reply lost) and of the HGETALL after it. */
  datatype PopIO = PopOk | ScriptError | ScriptLost | ReadError

  datatype PopResult = NoJob | Popped(job: RawJob) | PopFailed

  class Queue {
    var wait: seq<Id>
    var prioritized: seq<Entry>
    var active: seq<Id>
    var delayed: seq<Entry>
    var completed: map<Id, int>
    var failed: map<Id, int>
    var jobs: map<Id, Job>
    var lastId: nat
    var clock: nat

    constructor ()
      ensures Contents() == EMPTY
    {
      wait, prioritized, active, delayed := [], [], [], [];
      completed, failed, jobs := map[], map[], map[];
      lastId, clock := 0, 0;
    }

    ghost function Contents(): State
      reads this
    {
      State(wait, prioritized, active, delayed, completed, failed, jobs, lastId, clock)
    }

    /** HSET of the fields a new job gets. */
    method WriteJob(id: Id, spec: AddSpec)
      modifies this`jobs
      ensures jobs == old(jobs)[id := JobOrNew(old(Contents()), id).(name := spec.name, data := spec.data,
                                  opts := spec.opts, timestamp := clock, attemptsMade := 0,
                                  attemptsStarted := 0, stalledCounter := 0)]
    {
      var job := if id in jobs then jobs[id] else NO_JOB;
      jobs := jobs[id := job.(name := spec.name, data := spec.data, opts := spec.opts,
                              timestamp := clock, attemptsMade := 0, attemptsStarted := 0, stalledCounter := 0)];
    }

    /** One round of AddBulk's loop. */
    method AddOne(spec: AddSpec, io: EntryIO) returns (goesOn: bool)
      modifies this
      ensures Contents() == AddEntry(old(Contents()), spec, io).0
      ensures goesOn == GoesOn(AddEntry(old(Contents()), spec, io).1, io)
    {
      var id := spec.jobId;
      if spec.jobId != NO_ID {
        if io == ExistsError { return false; }
        if spec.jobId in jobs { return true; }
      } else {
        if io == IncrError { return false; }
        lastId := lastId + 1;
        if io == IncrLost { return false; }
        id := AutoId(lastId);
      }
      if io == MarshalError || io == ExecError { return false; }
      var score := Score(NonNeg(spec.opts.priority), clock);
      WriteJob(id, spec);
      if spec.opts.priority > 0 {
        prioritized := ZAdd(prioritized, Entry(score, id));
      } else {
        wait := [id] + wait;
      }
      return io != ExecLost;
    }

    method AddBulk(specs: seq<AddSpec>, io: seq<EntryIO>) returns (ok: bool)
      requires |io| == |specs|
      modifies this
      ensures (Contents(), ok) == AddAll(old(Contents()), specs, io)
    {
      ghost var start := Contents();
      var i := 0;
      while i < |specs|
        invariant 0 <= i <= |specs|
        invariant AddAll(start, specs, io) == AddAll(Contents(), specs[i..], io[i..])
      {
        var goesOn := AddOne(specs[i], io[i]);
        if !goesOn { return false; }
        i := i + 1;
      }
      return true;
    }

    /** The moveToActive script followed by HGETALL. A lost reply or a failed read leaves the job in active. */
    method PopJob(io: PopIO) returns (r: PopResult)
      modifies this
      ensures Contents() == if io == ScriptError then old(Contents()) else Pop(old(Contents())).0
      ensures io == ScriptError || io == ScriptLost ==> r == PopFailed
      ensures io != ScriptError && io != ScriptLost ==>
        match Pop(old(Contents())).1
        case None => r == NoJob
        case Some(id) =>
          if io == ReadError || id !in old(jobs) then r == PopFailed
          else
            && r.Popped? && r.job.id == id && r.job.attemptsMade == old(jobs)[id].attemptsMade
            && r.job.name == old(jobs)[id].name && r.job.data == old(jobs)[id].data
            && r.job.opts == old(jobs)[id].opts
    {
      if io == ScriptError { return PopFailed; }
      var id: Id;
      if prioritized != [] {
        id, prioritized := prioritized[0].member, prioritized[1..];
      } else if wait != [] {
        id, wait := wait[|wait| - 1], wait[..|wait| - 1];
      } else {
        return if io == ScriptLost then PopFailed else NoJob;
      }
      active := [id] + active;
      if io == ScriptLost || io == ReadError || id !in jobs { return PopFailed; }
      var job := jobs[id];
      return Popped(RawJob(id, job.name, job.data, job.opts, job.attemptsMade));
    }

    /** ok: the pipeline took effect. The callers discard the error, so a lost reply makes no difference to them. */
    method CompleteJob(id: Id, ok: bool)
      modifies this
      ensures Contents() == if ok then JobQueue.CompleteJob(old(Contents()), id) else old(Contents())
    {
      if !ok { return; }
      var job := if id in jobs then jobs[id] else NO_JOB;
      active := LRem(active, id);
      completed := completed[id := clock];
      jobs := jobs[id := job.(finishedOn := Some(clock), expireAt := Some(clock + COMPLETE_AGE_MS))];
    }

    method FailJob(id: Id, reason: string, opts: Opts, io: SettleIO)
      modifies this
      ensures Contents() == JobQueue.FailJob(old(Contents()), id, reason, opts, io)
    {
      if io == SettleError { return; }
      var job := if id in jobs then jobs[id] else NO_JOB;
      var attempts := job.attemptsMade + 1;
      jobs := jobs[id := job.(attemptsMade := attempts)];
      if io == CountedThenError { return; }
      job := jobs[id];
      active := LRem(active, id);
      if attempts < opts.attempts {
        var delay := ExponentialDelay(opts.backoff.delay, attempts - 1);
        delayed := ZAdd(delayed, Entry(clock + delay, id));
        jobs := jobs[id := job.(failedReason := reason)];
      } else {
        failed := failed[id := clock];
        jobs := jobs[id := job.(failedReason := reason, finishedOn := Some(clock),
                                expireAt := Some(clock + FAIL_AGE_MS))];
      }
      ghost var counted := CountAttempt(old(Contents()), id);
      assert Contents() == Refile(counted, id, reason, opts);
    }

    method ExponentialDelay(base: int, attempt: int) returns (d: int)
      ensures d == JobQueue.ExponentialDelay(base, attempt)
    {
      d := base;
      var i := 0;
      while i < attempt
        invariant 0 <= i <= Max(attempt, 0)
        invariant d == JobQueue.ExponentialDelay(base, i)
      {
        d := Wrap64(2 * d);
        i := i + 1;
      }
    }
  }
}
