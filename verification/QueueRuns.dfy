/** Safety of the queue over whole runs, under any interleaving of producers, workers and the promoting scheduler. */
module QueueRuns {
  import opened JobQueue
  import opened QueueInvariant

  // ---------- conservation ----------

  /** Every step keeps the invariant. */
  lemma StepKeeps(q: State, step: Step)
    requires Inv(q) && Enabled(q, step)
    ensures Inv(Apply(q, step))
  {
    match step
    case Add(spec, io) => AddEntryKeeps(q, spec, io);
    case PopNext => PopKeeps(q);
    case Complete(id) => CompleteKeeps(q, id);
    case Fail(id, reason, opts, io) =>
      if io != SettleError {
        CountAttemptKeeps(q, id);
        if io == SettleOk { RefileKeeps(CountAttempt(q, id), id, reason, opts); }
      }
    case Promotion(id, score) => PromoteKeeps(q, id, score);
    case Wait(ms) => TickKeeps(q, ms);
  }

  lemma {:induction false} RunKeeps(q: State, steps: seq<Step>, q': State)
    requires Inv(q) && Run(q, steps, q')
    ensures Inv(q')
    decreases |steps|
  {
    if steps == [] {
    } else {
      StepKeeps(q, steps[0]);
      RunKeeps(Apply(q, steps[0]), steps[1..], q');
    }
  }

  lemma EmptyInv()
    ensures Inv(EMPTY)
  {
    forall id ensures Count(EMPTY, id) == if Persistent(EMPTY, id) then 1 else 0 {}
  }

  ghost predicate NoDup(s: seq<Id>) {
    forall i, j :: 0 <= i < j < |s| ==> s[i] != s[j]
  }

  function Members(z: seq<Entry>): seq<Id> {
    seq(|z|, i requires 0 <= i < |z| => z[i].member)
  }

  lemma {:induction false} OccTwice(s: seq<Id>, i: nat, j: nat)
    requires i < j < |s| && s[i] == s[j]
    ensures Occ(s, s[i]) >= 2
  {
    if i == 0 { OccIn(s[1..], s[0]); assert s[j] == s[1..][j - 1]; } else { OccTwice(s[1..], i - 1, j - 1); }
  }

  lemma OnceMeansNoDup(s: seq<Id>)
    requires forall id :: Occ(s, id) <= 1
    ensures NoDup(s)
  {
    forall i, j | 0 <= i < j < |s| ensures s[i] != s[j] {
      if s[i] == s[j] { OccTwice(s, i, j); }
    }
  }

  lemma {:induction false} ZOccMembers(z: seq<Entry>, id: Id)
    ensures ZOcc(z, id) == Occ(Members(z), id)
  {
    if z == [] {
    } else {
      ZOccMembers(z[1..], id);
      assert Members(z)[1..] == Members(z[1..]);
    }
  }

  /**
    In every reachable state the four live structures hold no id twice and share none, and every live job has a lasting
    hash.
   */
  lemma LiveDisjoint(steps: seq<Step>, q: State)
    requires Run(EMPTY, steps, q)
    ensures var all := q.wait + Members(q.prioritized) + q.active + Members(q.delayed);
      && NoDup(all)
      && forall id :: id in all <==> Persistent(q, id)
  {
    EmptyInv();
    RunKeeps(EMPTY, steps, q);
    var all := q.wait + Members(q.prioritized) + q.active + Members(q.delayed);
    forall id ensures Occ(all, id) == Count(q, id) && Count(q, id) <= 1 {
      OccAppend(q.wait, Members(q.prioritized), id);
      OccAppend(q.wait + Members(q.prioritized), q.active, id);
      OccAppend(q.wait + Members(q.prioritized) + q.active, Members(q.delayed), id);
      ZOccMembers(q.prioritized, id);
      ZOccMembers(q.delayed, id);
    }
    forall id ensures id in all <==> Persistent(q, id) {
      OccIn(all, id);
      assert Occ(all, id) == Count(q, id);
    }
    OnceMeansNoDup(all);
  }

  lemma {:induction false} OccAppend(s: seq<Id>, t: seq<Id>, id: Id)
    ensures Occ(s + t, id) == Occ(s, id) + Occ(t, id)
  {
    if s == [] {
      assert s + t == t;
    } else {
      assert (s + t)[1..] == s[1..] + t;
      OccAppend(s[1..], t, id);
    }
  }

  // ---------- what steps do to a lasting hash ----------

  lemma AddKeepsHash(q: State, spec: AddSpec, io: EntryIO, id: Id)
    requires Inv(q) && NotNumeral(spec.jobId) && id in q.jobs
    ensures id in AddEntry(q, spec, io).0.jobs && AddEntry(q, spec, io).0.jobs[id] == q.jobs[id]
  {
    AddEntryFrame(q, spec, io);
    AddEntryKeeps(q, spec, io);
  }

  predicate CountsAttempt(step: Step, id: Id) {
    step.Fail? && step.id == id && step.settleIO != SettleError
  }

  /** The job as its producer wrote it. */
  function Written(job: Job): (string, string, Opts, int) {
    (job.name, job.data, job.opts, job.timestamp)
  }

  /** A lasting hash keeps what its producer wrote, and its attempts unless the step counts one. */
  lemma HashKept(q: State, step: Step, id: Id)
    requires Inv(q) && Enabled(q, step) && Persistent(q, id)
    ensures var q' := Apply(q, step);
      && id in q'.jobs && Written(q'.jobs[id]) == Written(q.jobs[id])
      && q'.jobs[id].attemptsMade == q.jobs[id].attemptsMade + if CountsAttempt(step, id) then 1 else 0
  {
    match step
    case Add(spec, io) => AddKeepsHash(q, spec, io, id);
    case Fail(x, reason, opts, io) => FailKeepsHash(q, x, reason, opts, io, id);
    case _ =>
  }

  lemma FailKeepsHash(q: State, x: Id, reason: string, opts: Opts, io: SettleIO, id: Id)
    requires id in q.jobs
    ensures var q' := FailJob(q, x, reason, opts, io);
      && id in q'.jobs && Written(q'.jobs[id]) == Written(q.jobs[id])
      && q'.jobs[id].attemptsMade == q.jobs[id].attemptsMade + if x == id && io != SettleError then 1 else 0
  {
    if io == SettleOk { assert Refile(CountAttempt(q, x), x, reason, opts) == FailJob(q, x, reason, opts, io); }
  }

  // ---------- no job is lost ----------

  /** The step is a failure that uses up the job's last attempt. */
  predicate FailsForGood(q: State, step: Step) {
    step.Fail? && step.settleIO == SettleOk && !Retries(CountAttempt(q, step.id), step.id, step.opts)
  }

  /** The step ends the current instance of id. */
  predicate Files(q: State, step: Step, id: Id) {
    step == Complete(id) || (FailsForGood(q, step) && step.id == id)
  }

  lemma FailFiles(q: State, x: Id, reason: string, opts: Opts, io: SettleIO, id: Id)
    requires Persistent(q, id)
    ensures var q', done := FailJob(q, x, reason, opts, io), x == id && FailsForGood(q, Fail(x, reason, opts, io));
      && (Persistent(q', id) <==> !done)
      && (done ==> id in q'.failed && q'.failed[id] == q.clock)
  {
    match io
    case SettleOk => assert FailJob(q, x, reason, opts, io) == Refile(CountAttempt(q, x), x, reason, opts);
    case SettleError =>
    case CountedThenError =>
  }

  /**
    An instance stays live in every step but the one that completes it or fails it for good, and that step files it.
   */
  lemma StepFiles(q: State, step: Step, id: Id)
    requires Inv(q) && Enabled(q, step) && Persistent(q, id)
    ensures Persistent(Apply(q, step), id) <==> !Files(q, step, id)
    ensures step == Complete(id) ==> id in Apply(q, step).completed && Apply(q, step).completed[id] == q.clock
    ensures Files(q, step, id) && step != Complete(id) ==>
      id in Apply(q, step).failed && Apply(q, step).failed[id] == q.clock
  {
    match step
    case Add(spec, io) => AddKeepsHash(q, spec, io, id);
    case Fail(x, reason, opts, io) => FailFiles(q, x, reason, opts, io, id);
    case _ =>
  }

  /** id was filed as completed or failed at time t or later. */
  ghost predicate FiledSince(q: State, id: Id, t: int) {
    (id in q.completed && q.completed[id] >= t) || (id in q.failed && q.failed[id] >= t)
  }

  lemma FiledGrows(q: State, step: Step, id: Id, t: int)
    requires FiledSince(q, id, t) && t <= q.clock
    ensures FiledSince(Apply(q, step), id, t) && t <= Apply(q, step).clock
  {
    if step.Add? { AddEntryFrame(q, step.spec, step.addIO); }
  }

  lemma ClockRises(q: State, step: Step)
    ensures Apply(q, step).clock >= q.clock
  {
    if step.Add? { AddEntryFrame(q, step.spec, step.addIO); }
  }

  ghost predicate FiledIn(q: State, steps: seq<Step>, id: Id)
    decreases |steps|
  {
    steps != [] && (Files(q, steps[0], id) || FiledIn(Apply(q, steps[0]), steps[1..], id))
  }

  lemma {:induction false} FiledStays(q: State, steps: seq<Step>, q': State, id: Id, t: int)
    requires Run(q, steps, q') && FiledSince(q, id, t) && t <= q.clock
    ensures FiledSince(q', id, t)
    decreases |steps|
  {
    if steps == [] {
    } else {
      FiledGrows(q, steps[0], id, t);
      FiledStays(Apply(q, steps[0]), steps[1..], q', id, t);
    }
  }

  /** A live instance is still live at the end of a run, as it was written, unless the run filed it. */
  lemma {:induction false} InstanceKept(q: State, steps: seq<Step>, q': State, id: Id, t: int)
    requires Inv(q) && Run(q, steps, q') && Persistent(q, id) && t <= q.clock
    ensures if FiledIn(q, steps, id) then FiledSince(q', id, t)
            else Count(q', id) == 1 && Persistent(q', id) && Written(q'.jobs[id]) == Written(q.jobs[id])
    decreases |steps|
  {
    if steps == [] {
    } else {
      var q1 := Apply(q, steps[0]);
      StepKeeps(q, steps[0]);
      StepFiles(q, steps[0], id);
      HashKept(q, steps[0], id);
      ClockRises(q, steps[0]);
      if Files(q, steps[0], id) {
        FiledStays(q1, steps[1..], q', id, t);
      } else {
        InstanceKept(q1, steps[1..], q', id, t);
      }
    }
  }

  /** If id has a time to live it lasts until `end`, and otherwise `end` is over. */
  predicate Past(q: State, id: Id, end: int) {
    if id in q.jobs && q.jobs[id].expireAt.Some? then q.jobs[id].expireAt.value >= end else q.clock > end
  }

  /** Whatever id was filed for has had its time before another instance was live. */
  predicate Spaced(q: State, id: Id) {
    && (id in q.completed ==> q.completed[id] <= q.clock && Past(q, id, q.completed[id] + COMPLETE_AGE_MS))
    && (id in q.failed ==> q.failed[id] <= q.clock && Past(q, id, q.failed[id] + FAIL_AGE_MS))
  }

  lemma RefileKeepsSpaced(q: State, x: Id, reason: string, opts: Opts, id: Id)
    requires Spaced(q, id) && Persistent(q, x)
    ensures Spaced(Refile(q, x, reason, opts), id)
  {
    if Retries(q, x, opts) { assert Refile(q, x, reason, opts).failed == q.failed; }
  }

  lemma FailKeepsSpaced(q: State, x: Id, reason: string, opts: Opts, io: SettleIO, id: Id)
    requires Spaced(q, id) && Persistent(q, x)
    ensures Spaced(FailJob(q, x, reason, opts, io), id)
  {
    assert Spaced(CountAttempt(q, x), id) && Persistent(CountAttempt(q, x), x);
    RefileKeepsSpaced(CountAttempt(q, x), x, reason, opts, id);
  }

  lemma StepKeepsSpaced(q: State, step: Step, id: Id)
    requires Inv(q) && Enabled(q, step) && Spaced(q, id)
    ensures Spaced(Apply(q, step), id)
  {
    match step
    case Add(spec, io) => AddEntryFrame(q, spec, io); AddEntryKeeps(q, spec, io);
    case PopNext =>
    case Complete(x) => ActiveFacts(q, x);
    case Fail(x, reason, opts, io) => ActiveFacts(q, x); FailKeepsSpaced(q, x, reason, opts, io, id);
    case Promotion(_, _) =>
    case Wait(_) =>
  }

  lemma {:induction false} RunKeepsSpaced(q: State, steps: seq<Step>, q': State, id: Id)
    requires Inv(q) && Run(q, steps, q') && Spaced(q, id)
    ensures Spaced(q', id)
    decreases |steps|
  {
    if steps == [] {
    } else {
      StepKeeps(q, steps[0]);
      StepKeepsSpaced(q, steps[0], id);
      RunKeepsSpaced(Apply(q, steps[0]), steps[1..], q', id);
    }
  }

  /**
    No job is lost: from the moment an instance is added it is in exactly one live structure, with the name, data and
    options it was added with, until a worker completes it or fails it for good; then it is filed with a time that is
    not before it was added, while every earlier instance was filed before that.
   */
  lemma NoJobLost(before: seq<Step>, q: State, spec: AddSpec, io: EntryIO, after: seq<Step>, q': State, id: Id)
    requires Run(EMPTY, before, q) && NotNumeral(spec.jobId) && AddEntry(q, spec, io).1 == Added(id)
    requires Run(AddEntry(q, spec, io).0, after, q')
    ensures !FiledSince(q, id, q.clock)
    ensures if FiledIn(AddEntry(q, spec, io).0, after, id) then FiledSince(q', id, q.clock)
            else
              && Count(q', id) == 1 && Persistent(q', id)
              && Written(q'.jobs[id]) == (spec.name, spec.data, spec.opts, q.clock)
  {
    EmptyInv();
    RunKeeps(EMPTY, before, q);
    RunKeepsSpaced(EMPTY, before, q, id);
    AddEntryKeeps(q, spec, io);
    AddEntryFrame(q, spec, io);
    AddedHash(q, spec, io);
    InstanceKept(AddEntry(q, spec, io).0, after, q', id, q.clock);
  }

  lemma AddedHash(q: State, spec: AddSpec, io: EntryIO)
    requires Inv(q) && AddEntry(q, spec, io).1.Added? && AddEntry(q, spec, io).1.id !in q.jobs
    ensures var (q', outcome) := AddEntry(q, spec, io);
      && outcome.id in q'.jobs && q'.jobs[outcome.id].attemptsMade == 0
      && Written(q'.jobs[outcome.id]) == (spec.name, spec.data, spec.opts, q.clock)
  {}

  // ---------- AddBulk in runs ----------

  /** A call of AddBulk is a run: what is proved of all runs is true of its results, wherever it stops. */
  lemma {:induction false} AddAllRuns(q: State, specs: seq<AddSpec>, io: seq<EntryIO>) returns (steps: seq<Step>)
    requires |io| == |specs| && forall i :: 0 <= i < |specs| ==> NotNumeral(specs[i].jobId)
    ensures Run(q, steps, AddAll(q, specs, io).0)
    ensures |steps| <= |specs| && forall i :: 0 <= i < |steps| ==> steps[i] == Add(specs[i], io[i])
    decreases |specs|
  {
    if specs == [] {
      steps := [];
    } else {
      var (q1, outcome) := AddEntry(q, specs[0], io[0]);
      var first := Add(specs[0], io[0]);
      if GoesOn(outcome, io[0]) {
        var rest := AddAllRuns(q1, specs[1..], io[1..]);
        steps := [first] + rest;
        assert steps[1..] == rest;
      } else {
        steps := [first];
        assert steps[1..] == [];
      }
    }
  }

  // ---------- deduplication ----------

  /** Until t + age, id keeps a hash that expires no earlier than that. */
  ghost predicate Window(q: State, id: Id, t: int, age: nat) {
    q.clock <= t + age ==> id in q.jobs && q.jobs[id].expireAt.Some? && q.jobs[id].expireAt.value >= t + age
  }

  lemma StepKeepsWindow(q: State, step: Step, id: Id, t: int, age: nat)
    requires Inv(q) && Enabled(q, step) && Window(q, id, t, age)
    ensures Window(Apply(q, step), id, t, age)
  {
    match step
    case Add(spec, io) => AddEntryFrame(q, spec, io); AddEntryKeeps(q, spec, io);
    case PopNext =>
    case Complete(x) => ActiveFacts(q, x);
    case Fail(x, _, _, _) => ActiveFacts(q, x);
    case Promotion(_, _) =>
    case Wait(_) =>
  }

  lemma {:induction false} RunKeepsWindow(q: State, steps: seq<Step>, q': State, id: Id, t: int, age: nat)
    requires Inv(q) && Run(q, steps, q') && Window(q, id, t, age)
    ensures Window(q', id, t, age)
    decreases |steps|
  {
    if steps == [] {
    } else {
      StepKeeps(q, steps[0]);
      StepKeepsWindow(q, steps[0], id, t, age);
      RunKeepsWindow(Apply(q, steps[0]), steps[1..], q', id, t, age);
    }
  }

  /**
    Two instances of a custom job id: the later one is accepted only when no instance is live,
    more than an hour after the earlier one completed and more than a day after it failed for good.
   */
  lemma DedupWindow(before: seq<Step>, q: State, last: Step, after: seq<Step>, q': State, spec: AddSpec, io: EntryIO)
    requires Run(EMPTY, before, q) && Enabled(q, last)
    requires Run(Apply(q, last), after, q') && spec.jobId != NO_ID && AddEntry(q', spec, io).1 == Added(spec.jobId)
    ensures Count(q', spec.jobId) == 0
    ensures last == Complete(spec.jobId) ==> q'.clock > q.clock + COMPLETE_AGE_MS
    ensures FailsForGood(q, last) && last.id == spec.jobId ==> q'.clock > q.clock + FAIL_AGE_MS
  {
    EmptyInv();
    RunKeeps(EMPTY, before, q);
    StepKeeps(q, last);
    var q1 := Apply(q, last);
    RunKeeps(q1, after, q');
    var id := spec.jobId;
    if last == Complete(id) {
      RunKeepsWindow(q1, after, q', id, q.clock, COMPLETE_AGE_MS);
    } else if FailsForGood(q, last) && last.id == id {
      RunKeepsWindow(q1, after, q', id, q.clock, FAIL_AGE_MS);
    }
  }

  /**
    The window is exact: with nothing else happening, the id is refused until its hour (or day) is over and accepted
    from then on.
   */
  lemma WindowExact(q: State, id: Id, ms: nat, reason: string, opts: Opts, spec: AddSpec)
    requires Inv(q) && id in q.active && id != NO_ID && spec.jobId == id
    ensures AddEntry(Tick(CompleteJob(q, id), ms), spec, IoOk).1 == if ms <= COMPLETE_AGE_MS then Skipped else Added(id)
    ensures var counted := CountAttempt(q, id);
      !Retries(counted, id, opts) ==>
        AddEntry(Tick(Refile(counted, id, reason, opts), ms), spec, IoOk).1
          == if ms <= FAIL_AGE_MS then Skipped else Added(id)
  {
    ActiveFacts(q, id);
  }
}
