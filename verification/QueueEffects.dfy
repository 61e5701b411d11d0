/**
  What each call leaves in the queue, read off the structures themselves: who is where afterwards, what each hash says,
  and what stays as it was.
 */
module QueueEffects {
  import opened Prelude
  import opened JobQueue
  import opened QueueInvariant
  import opened QueueRuns
  import opened QueueRetries

  // ---------- settling ----------

  /** Nothing but id has moved, and no hash but that of id has changed. */
  ghost predicate OnlyTouches(q: State, q': State, id: Id) {
    && q'.wait == q.wait && q'.prioritized == q.prioritized && q'.lastId == q.lastId && q'.clock == q.clock
    && (forall x :: x != id ==> (x in q'.jobs <==> x in q.jobs) && (x in q.jobs ==> q'.jobs[x] == q.jobs[x]))
    && (forall x :: x != id ==> (x in q'.active <==> x in q.active))
  }

  lemma LRemMembers(q: State, id: Id)
    ensures id !in LRem(q.active, id)
    ensures forall x :: x != id ==> (x in LRem(q.active, id) <==> x in q.active)
  {
    forall x ensures x in LRem(q.active, id) <==> x != id && x in q.active {
      OccIn(q.active, x);
      OccIn(LRem(q.active, id), x);
      OccLRem(q.active, id, x);
    }
  }

  /** The job is in completed, under the clock, and its hash lasts one more hour; nothing else has happened. */
  ghost predicate CompletedNow(q: State, q': State, id: Id) {
    && OnlyTouches(q, q', id) && id !in q'.active
    && q'.completed == q.completed[id := q.clock] && q'.failed == q.failed && q'.delayed == q.delayed
    && id in q.jobs && id in q'.jobs
    && q'.jobs[id] == q.jobs[id].(finishedOn := Some(q.clock), expireAt := Some(q.clock + 3_600_000))
  }

  lemma CompletionEffect(q: State, id: Id)
    requires Inv(q) && id in q.active
    ensures CompletedNow(q, CompleteJob(q, id), id)
  {
    ActiveFacts(q, id);
    LRemMembers(q, id);
  }

  /** The same set of entries, but for those of id. */
  ghost predicate SameBut(z: seq<Entry>, z': seq<Entry>, id: Id) {
    forall e: Entry :: e.member != id ==> (e in z' <==> e in z)
  }

  /**
    One more attempt is counted, and the job is in delayed for base * 2^(attempts - 1) ms, wrapped to an int; nothing
    else has happened.
   */
  ghost predicate RetriedLater(q: State, q': State, id: Id, reason: string, base: int) {
    && OnlyTouches(q, q', id) && id !in q'.active
    && q'.completed == q.completed && q'.failed == q.failed && SameBut(q.delayed, q'.delayed, id)
    && id in q.jobs && id in q'.jobs
    && Entry(q.clock + Wrap64(base * Pow2(q.jobs[id].attemptsMade)), id) in q'.delayed
    && q'.jobs[id] == q.jobs[id].(attemptsMade := q.jobs[id].attemptsMade + 1, failedReason := reason)
  }

  /** One more attempt is counted, and the job is in failed, under the clock, with a hash that lasts one more day. */
  ghost predicate FailedNow(q: State, q': State, id: Id, reason: string) {
    && OnlyTouches(q, q', id) && id !in q'.active
    && q'.completed == q.completed && q'.failed == q.failed[id := q.clock] && q'.delayed == q.delayed
    && id in q.jobs && id in q'.jobs
    && q'.jobs[id] == q.jobs[id].(attemptsMade := q.jobs[id].attemptsMade + 1, failedReason := reason,
                                  finishedOn := Some(q.clock), expireAt := Some(q.clock + 86_400_000))
  }

  lemma RetryEffect(q: State, id: Id, reason: string, opts: Opts)
    requires Inv(q) && id in q.active && InInt64(opts.backoff.delay)
    requires JobOrNew(q, id).attemptsMade + 1 < opts.attempts
    ensures RetriedLater(q, FailJob(q, id, reason, opts, SettleOk), id, reason, opts.backoff.delay)
  {
    ActiveFacts(q, id);
    RetryIsDelayed(q, id, reason, opts);
    LRemMembers(q, id);
    var e := Entry(q.clock + ExponentialDelay(opts.backoff.delay, q.jobs[id].attemptsMade), id);
    ZRemElements(q.delayed, id);
    InsertElements(ZRem(q.delayed, id), e);
  }

  /** A failure retries the job if that leaves it an attempt, and otherwise files it as failed. */
  lemma FailureEffect(q: State, id: Id, reason: string, opts: Opts)
    requires Inv(q) && id in q.active && InInt64(opts.backoff.delay)
    ensures var q' := FailJob(q, id, reason, opts, SettleOk);
      && id in q.jobs
      && if q.jobs[id].attemptsMade + 1 < opts.attempts then RetriedLater(q, q', id, reason, opts.backoff.delay)
         else FailedNow(q, q', id, reason)
  {
    ActiveFacts(q, id);
    if q.jobs[id].attemptsMade + 1 < opts.attempts {
      RetryEffect(q, id, reason, opts);
    } else {
      LRemMembers(q, id);
    }
  }

  /** The scheduler's move takes the job out of delayed and queues it again, behind the score given if prioritized. */
  lemma PromotionEffect(q: State, id: Id, score: int)
    ensures var q' := Promote(q, id, score);
      && q'.jobs == q.jobs && q'.active == q.active && q'.completed == q.completed && q'.failed == q.failed
      && SameBut(q.delayed, q'.delayed, id) && (forall e :: e in q'.delayed ==> e.member != id)
      && if JobOrNew(q, id).opts.priority > 0
         then q'.wait == q.wait && SameBut(q.prioritized, q'.prioritized, id) && Entry(score, id) in q'.prioritized
         else q'.wait == [id] + q.wait && q'.prioritized == q.prioritized
  {
    ZRemElements(q.delayed, id);
    ZRemElements(q.prioritized, id);
    InsertElements(ZRem(q.prioritized, id), Entry(score, id));
  }

  // ---------- adding ----------

  /** The id an entry would get. */
  function IdFor(q: State, spec: AddSpec): Id {
    if spec.jobId == NO_ID then AutoId(q.lastId + 1) else spec.jobId
  }

  /** Some call of the entry fails or loses its reply, so that AddBulk gives up with an error. */
  predicate CallFails(q: State, spec: AddSpec, io: EntryIO) {
    if spec.jobId == NO_ID then io != IoOk && io != ExistsError
    else io == ExistsError || (spec.jobId !in q.jobs && (io == MarshalError || io == ExecError || io == ExecLost))
  }

  /** The pipeline of the entry takes effect. */
  predicate PipelineRuns(q: State, spec: AddSpec, io: EntryIO) {
    && (!CallFails(q, spec, io) || io == ExecLost)
    && (spec.jobId != NO_ID ==> spec.jobId !in q.jobs)
  }

  /** The hash of a new job. */
  function NewJob(spec: AddSpec, now: nat): Job {
    Job(spec.name, spec.data, spec.opts, now, 0, 0, 0, "", None, None)
  }

  /** Everything but the hashes, the two queues and the counter is as it was. */
  predicate OnlyAdds(q: State, q': State) {
    && q'.active == q.active && q'.delayed == q.delayed && q'.clock == q.clock
    && q'.completed == q.completed && q'.failed == q.failed
  }

  /** The job is at the head of wait, or in prioritized under its score; nothing else in the queues has changed. */
  ghost predicate Placed(q: State, q': State, id: Id, opts: Opts) {
    if opts.priority > 0
    then
      && q'.wait == q.wait && SameBut(q.prioritized, q'.prioritized, id)
      && Entry(Score(opts.priority, q.clock), id) in q'.prioritized
    else q'.wait == [id] + q.wait && q'.prioritized == q.prioritized
  }

  lemma EnqueueEffect(q: State, id: Id, spec: AddSpec)
    requires id !in q.jobs
    ensures var q' := Enqueue(q, id, spec);
      && q'.lastId == q.lastId && OnlyAdds(q, q') && Placed(q, q', id, spec.opts)
      && q'.jobs == q.jobs[id := NewJob(spec, q.clock)]
  {
    if spec.opts.priority > 0 {
      ZRemElements(q.prioritized, id);
      InsertElements(ZRem(q.prioritized, id), Entry(Score(spec.opts.priority, q.clock), id));
    }
  }

  /** Which entries add a job, under which id, and when the counter moves. */
  lemma AddedExactly(q: State, spec: AddSpec, io: EntryIO)
    ensures var (q', outcome) := AddEntry(q, spec, io);
      && (outcome.Added? <==> PipelineRuns(q, spec, io))
      && (outcome.Added? ==> outcome.id == IdFor(q, spec))
      && (outcome.Skipped? <==> spec.jobId != NO_ID && spec.jobId in q.jobs && io != ExistsError)
      && q'.lastId == q.lastId + (if spec.jobId == NO_ID && io != IncrError then 1 else 0)
  {}

  /** The entry has added the job under id, and nothing else. */
  ghost predicate Adds(q: State, q': State, id: Id, spec: AddSpec) {
    && id !in q.jobs && q'.jobs == q.jobs[id := NewJob(spec, q.clock)]
    && OnlyAdds(q, q') && Placed(q, q', id, spec.opts)
  }

  lemma CustomAdds(q: State, spec: AddSpec, io: EntryIO)
    requires PipelineRuns(q, spec, io) && spec.jobId != NO_ID
    ensures Adds(q, AddEntry(q, spec, io).0, spec.jobId, spec)
  {
    EnqueueEffect(q, spec.jobId, spec);
    assert AddEntry(q, spec, io).0 == Enqueue(q, spec.jobId, spec);
  }

  lemma AutoAdds(q: State, spec: AddSpec, io: EntryIO)
    requires Inv(q) && PipelineRuns(q, spec, io) && spec.jobId == NO_ID
    ensures Adds(q, AddEntry(q, spec, io).0, AutoId(q.lastId + 1), spec)
  {
    CounterKeeps(q);
    var q1 := q.(lastId := q.lastId + 1);
    EnqueueEffect(q1, AutoId(q1.lastId), spec);
    assert AddEntry(q, spec, io).0 == Enqueue(q1, AutoId(q1.lastId), spec);
  }

  lemma NothingAdded(q: State, spec: AddSpec, io: EntryIO)
    requires !PipelineRuns(q, spec, io)
    ensures AddEntry(q, spec, io).0.(lastId := q.lastId) == q
  {}

  /**
    An entry whose pipeline takes effect adds one job, as the producer gave it, to the head of wait or to prioritized;
    any other entry changes nothing but the counter.
   */
  lemma AdditionEffect(q: State, spec: AddSpec, io: EntryIO)
    requires Inv(q)
    ensures var q' := AddEntry(q, spec, io).0;
      if PipelineRuns(q, spec, io) then Adds(q, q', IdFor(q, spec), spec) else q'.(lastId := q.lastId) == q
  {
    if !PipelineRuns(q, spec, io) {
      NothingAdded(q, spec, io);
    } else if spec.jobId == NO_ID {
      AutoAdds(q, spec, io);
    } else {
      CustomAdds(q, spec, io);
    }
  }

  // ---------- AddBulk ----------

  /** The queue after the first n entries, whatever became of their calls. */
  function AfterEntries(q: State, specs: seq<AddSpec>, io: seq<EntryIO>, n: nat): State
    requires n <= |specs| == |io|
  {
    if n == 0 then q else AddEntry(AfterEntries(q, specs, io, n - 1), specs[n - 1], io[n - 1]).0
  }

  lemma {:induction false} AfterEntriesTail(q: State, specs: seq<AddSpec>, io: seq<EntryIO>, n: nat)
    requires 0 < n <= |specs| == |io|
    ensures AfterEntries(q, specs, io, n)
      == AfterEntries(AddEntry(q, specs[0], io[0]).0, specs[1..], io[1..], n - 1)
  {
    if n == 1 {
      assert AfterEntries(q, specs, io, 0) == q;
    } else {
      AfterEntriesTail(q, specs, io, n - 1);
    }
  }

  /** The first n entries go through. */
  ghost predicate NoneFails(q: State, specs: seq<AddSpec>, io: seq<EntryIO>, n: nat)
    requires n <= |specs| == |io|
  {
    forall i :: 0 <= i < n ==> !CallFails(AfterEntries(q, specs, io, i), specs[i], io[i])
  }

  lemma NoneFailsTail(q: State, specs: seq<AddSpec>, io: seq<EntryIO>, n: nat)
    requires n < |specs| == |io| && !CallFails(q, specs[0], io[0])
    ensures NoneFails(AddEntry(q, specs[0], io[0]).0, specs[1..], io[1..], n) ==> NoneFails(q, specs, io, n + 1)
  {
    var q1 := AddEntry(q, specs[0], io[0]).0;
    if NoneFails(q1, specs[1..], io[1..], n) {
      forall i | 0 <= i < n + 1 ensures !CallFails(AfterEntries(q, specs, io, i), specs[i], io[i]) {
        if i > 0 {
          AfterEntriesTail(q, specs, io, i);
          assert specs[1..][i - 1] == specs[i] && io[1..][i - 1] == io[i];
        }
      }
    }
  }

  /**
    AddBulk reports success if and only if no call of any entry fails, and has then handled every entry; otherwise it
    has handled the entries up to and including the first of which a call fails. A duplicate never stops it.
   */
  lemma {:induction false} AddAllStops(q: State, specs: seq<AddSpec>, io: seq<EntryIO>) returns (n: nat)
    requires |io| == |specs|
    ensures n <= |specs| && AddAll(q, specs, io).0 == AfterEntries(q, specs, io, n)
    ensures if AddAll(q, specs, io).1 then n == |specs| && NoneFails(q, specs, io, n)
            else
              && n > 0 && NoneFails(q, specs, io, n - 1)
              && CallFails(AfterEntries(q, specs, io, n - 1), specs[n - 1], io[n - 1])
    decreases |specs|
  {
    if specs == [] {
      n := 0;
    } else {
      var (q1, outcome) := AddEntry(q, specs[0], io[0]);
      assert GoesOn(outcome, io[0]) <==> !CallFails(q, specs[0], io[0]);
      if GoesOn(outcome, io[0]) {
        var rest := AddAllStops(q1, specs[1..], io[1..]);
        n := rest + 1;
        AfterEntriesTail(q, specs, io, n);
        NoneFailsTail(q, specs, io, if AddAll(q, specs, io).1 then rest else rest - 1);
        if rest > 0 { AfterEntriesTail(q, specs, io, n - 1); }
      } else {
        n := 1;
        assert AfterEntries(q, specs, io, 0) == q;
      }
    }
  }

  // ---------- delivery ----------

  /** How often a run counts a failure of id. */
  function FailuresIn(steps: seq<Step>, id: Id): nat {
    if steps == [] then 0
    else
      (if steps[0].Fail? && steps[0].id == id && steps[0].settleIO != SettleError then 1 else 0)
      + FailuresIn(steps[1..], id)
  }

  lemma {:induction false} AttemptsCounted(q: State, steps: seq<Step>, q': State, id: Id)
    requires Inv(q) && Run(q, steps, q') && Persistent(q, id) && !FiledIn(q, steps, id)
    ensures Persistent(q', id) && q'.jobs[id].attemptsMade == q.jobs[id].attemptsMade + FailuresIn(steps, id)
    decreases |steps|
  {
    if steps == [] {
    } else {
      StepKeeps(q, steps[0]);
      StepFiles(q, steps[0], id);
      HashKept(q, steps[0], id);
      AttemptsCounted(Apply(q, steps[0]), steps[1..], q', id);
    }
  }

  lemma PopDelivers(q: State, id: Id)
    requires Pop(q).1 == Some(id) && id in q.jobs
    ensures GetJob(Pop(q).0, id)
      == Some(RawJob(id, q.jobs[id].name, q.jobs[id].data, q.jobs[id].opts, q.jobs[id].attemptsMade))
  {}

  /** A job that is still live at the end of a run, as it was given and with its failures counted. */
  lemma LiveAsAdded(before: seq<Step>, q: State, spec: AddSpec, io: EntryIO, steps: seq<Step>, q': State, id: Id)
    requires Run(EMPTY, before, q) && NotNumeral(spec.jobId) && AddEntry(q, spec, io).1 == Added(id)
    requires Run(AddEntry(q, spec, io).0, steps, q') && !FiledIn(AddEntry(q, spec, io).0, steps, id)
    ensures id in q'.jobs && Written(q'.jobs[id]) == (spec.name, spec.data, spec.opts, q.clock)
    ensures q'.jobs[id].attemptsMade == FailuresIn(steps, id)
  {
    EmptyInv();
    RunKeeps(EMPTY, before, q);
    var q1 := AddEntry(q, spec, io).0;
    AddedFresh(q, spec, io, q1, id);
    AttemptsCounted(q1, steps, q', id);
    NoJobLost(before, q, spec, io, steps, q', id);
  }

  /**
    What a worker gets is what the producer gave: whenever the job is popped before it is filed, the pop hands over
    its name, data and options, and the number of its failures so far.
   */
  lemma DeliveredAsAdded(before: seq<Step>, q: State, spec: AddSpec, io: EntryIO, steps: seq<Step>, q': State, id: Id)
    requires Run(EMPTY, before, q) && NotNumeral(spec.jobId) && AddEntry(q, spec, io).1 == Added(id)
    requires Run(AddEntry(q, spec, io).0, steps, q') && !FiledIn(AddEntry(q, spec, io).0, steps, id)
    requires Pop(q').1 == Some(id)
    ensures GetJob(Pop(q').0, id) == Some(RawJob(id, spec.name, spec.data, spec.opts, FailuresIn(steps, id)))
  {
    LiveAsAdded(before, q, spec, io, steps, q', id);
    PopDelivers(q', id);
  }
}
