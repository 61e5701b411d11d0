/** Retries: the backoff delays, their total, and a measure that bounds every run without new jobs. */
module QueueRetries {
  import opened Prelude
  import opened JobQueue
  import opened QueueInvariant
  import opened QueueRuns

  // ---------- backoff ----------

  lemma WrapShift(m: int, k: int)
    ensures Wrap64(m + 0x1_0000_0000_0000_0000 * k) == Wrap64(m)
  {
    var w := 0x1_0000_0000_0000_0000;
    var x := m - MIN_INT64;
    assert (x + w * k) % w == x % w;
  }

  lemma WrapDouble(m: int)
    ensures Wrap64(2 * Wrap64(m)) == Wrap64(2 * m)
  {
    var k := (m - MIN_INT64) / 0x1_0000_0000_0000_0000;
    assert Wrap64(m) == m - 0x1_0000_0000_0000_0000 * k;
    WrapShift(2 * m, -2 * k);
  }

  lemma {:induction false} DelayIsWrapped(base: int, attempt: nat)
    requires InInt64(base)
    ensures ExponentialDelay(base, attempt) == Wrap64(base * Pow2(attempt))
  {
    if attempt == 0 {
    } else {
      DelayIsWrapped(base, attempt - 1);
      WrapDouble(base * Pow2(attempt - 1));
      DoublePower(base, attempt);
    }
  }

  lemma DoublePower(base: int, attempt: nat)
    requires attempt > 0
    ensures base * Pow2(attempt) == 2 * (base * Pow2(attempt - 1))
  {}

  /** The loop computes base * 2^attempt in 64-bit arithmetic, so it is that number exactly when the number fits. */
  lemma DelayIsPower(base: int, attempt: nat)
    requires InInt64(base)
    ensures ExponentialDelay(base, attempt) == Wrap64(base * Pow2(attempt))
    ensures ExponentialDelay(base, attempt) == base * Pow2(attempt) <==> InInt64(base * Pow2(attempt))
  {
    DelayIsWrapped(base, attempt);
    WrapIsIdentity(base * Pow2(attempt));
  }

  lemma WrapIsIdentity(m: int)
    ensures Wrap64(m) == m <==> InInt64(m)
  {}

  /** The waits of the first n retries. */
  function TotalDelay(base: int, n: nat): int {
    if n == 0 then 0 else TotalDelay(base, n - 1) + ExponentialDelay(base, n - 1)
  }

  lemma Doubling(base: nat, p: nat)
    requires p > 0
    ensures base * (2 * p) == base * p + base * p && base <= base * p
    ensures base * (p - 1) + base * p == base * (2 * p - 1)
  {
    assert base * 1 <= base * p;
  }

  /** The waits of n retries are base * (2^n - 1) ms in all, if the longest of them, base * 2^(n-1), fits an int. */
  lemma {:induction false} TotalDelayIsGeometric(base: nat, n: nat)
    requires n > 0 ==> base * Pow2(n - 1) <= MAX_INT64
    ensures TotalDelay(base, n) == base * (Pow2(n) - 1)
  {
    if n == 0 {
    } else {
      Doubling(base, Pow2(n - 1));
      if n > 1 { Doubling(base, Pow2(n - 2)); }
      TotalDelayIsGeometric(base, n - 1);
      DelayIsPower(base, n - 1);
    }
  }

  /** Failing attempt k (from 1) of a retried job delays it by base * 2^(k-1) ms, wrapped to an int where it must be. */
  lemma RetryIsDelayed(q: State, id: Id, reason: string, opts: Opts)
    requires Inv(q) && id in q.active && InInt64(opts.backoff.delay)
    requires JobOrNew(q, id).attemptsMade + 1 < opts.attempts
    ensures var q' := FailJob(q, id, reason, opts, SettleOk);
      var wait := opts.backoff.delay * Pow2(JobOrNew(q, id).attemptsMade);
      && Entry(q.clock + Wrap64(wait), id) in q'.delayed && (InInt64(wait) ==> Wrap64(wait) == wait)
      && id !in q'.active && q'.failed == q.failed
  {
    ActiveFacts(q, id);
    var made := q.jobs[id].attemptsMade;
    DelayIsPower(opts.backoff.delay, made);
    var counted := CountAttempt(q, id);
    var e := Entry(q.clock + ExponentialDelay(opts.backoff.delay, made), id);
    ZRemElements(counted.delayed, id);
    InsertElements(ZRem(counted.delayed, id), e);
    OccLRem(q.active, id, id);
    OccIn(LRem(q.active, id), id);
  }

  /** How long a step makes id wait for its next attempt. */
  function WaitOf(q: State, step: Step, id: Id): int {
    if step.Fail? && step.id == id && step.settleIO == SettleOk && Retries(CountAttempt(q, id), id, step.opts)
    then ExponentialDelay(step.opts.backoff.delay, JobOrNew(q, id).attemptsMade) else 0
  }

  ghost function WaitsIn(q: State, steps: seq<Step>, id: Id): int
    decreases |steps|
  {
    if steps == [] then 0 else WaitOf(q, steps[0], id) + WaitsIn(Apply(q, steps[0]), steps[1..], id)
  }

  /** Failures of id are settled with the stored options and without an error in between. */
  predicate SettledWell(q: State, step: Step, id: Id) {
    step.Fail? && step.id == id ==> step.settleIO != CountedThenError && step.opts == JobOrNew(q, id).opts
  }

  ghost predicate AllSettledWell(q: State, steps: seq<Step>, id: Id)
    decreases |steps|
  {
    steps == [] || (SettledWell(q, steps[0], id) && AllSettledWell(Apply(q, steps[0]), steps[1..], id))
  }

  lemma StepWaits(q: State, step: Step, id: Id)
    requires Inv(q) && Enabled(q, step) && Persistent(q, id) && SettledWell(q, step, id) && !Files(q, step, id)
    ensures var made, made' := q.jobs[id].attemptsMade, JobOrNew(Apply(q, step), id).attemptsMade;
      TotalDelay(q.jobs[id].opts.backoff.delay, made) + WaitOf(q, step, id)
        == TotalDelay(q.jobs[id].opts.backoff.delay, made')
  {
    HashKept(q, step, id);
    var made := q.jobs[id].attemptsMade;
    assert TotalDelay(q.jobs[id].opts.backoff.delay, made + 1)
        == TotalDelay(q.jobs[id].opts.backoff.delay, made) + ExponentialDelay(q.jobs[id].opts.backoff.delay, made);
  }

  /** Over any run, a live instance has waited for exactly the attempts it has used up. */
  lemma {:induction false} RunWaits(q: State, steps: seq<Step>, q': State, id: Id)
    requires Inv(q) && Run(q, steps, q') && Persistent(q, id) && AllSettledWell(q, steps, id) && !FiledIn(q, steps, id)
    ensures Persistent(q', id)
    ensures TotalDelay(q.jobs[id].opts.backoff.delay, q.jobs[id].attemptsMade) + WaitsIn(q, steps, id)
      == TotalDelay(q.jobs[id].opts.backoff.delay, q'.jobs[id].attemptsMade)
    decreases |steps|
  {
    if steps == [] {
    } else {
      StepKeeps(q, steps[0]);
      StepFiles(q, steps[0], id);
      HashKept(q, steps[0], id);
      StepWaits(q, steps[0], id);
      RunWaits(Apply(q, steps[0]), steps[1..], q', id);
    }
  }

  lemma AddedFresh(q: State, spec: AddSpec, io: EntryIO, q1: State, id: Id)
    requires Inv(q) && NotNumeral(spec.jobId) && AddEntry(q, spec, io) == (q1, Added(id))
    ensures Inv(q1) && Persistent(q1, id) && q1.jobs[id].opts == spec.opts && q1.jobs[id].attemptsMade == 0
  {
    AddEntryKeeps(q, spec, io);
    AddedHash(q, spec, io);
  }

  /** A new job that has used up n attempts and is still live has waited base * (2^n - 1) ms in all. */
  lemma WaitsAreGeometric(q: State, spec: AddSpec, io: EntryIO, q1: State, steps: seq<Step>, q': State, id: Id)
    requires Inv(q) && NotNumeral(spec.jobId) && AddEntry(q, spec, io) == (q1, Added(id))
    requires spec.opts.backoff.delay >= 0
    requires Run(q1, steps, q') && AllSettledWell(q1, steps, id) && !FiledIn(q1, steps, id)
    ensures Persistent(q', id)
    ensures var base, n := spec.opts.backoff.delay, q'.jobs[id].attemptsMade;
      (n > 0 ==> base * Pow2(n - 1) <= MAX_INT64) ==> WaitsIn(q1, steps, id) == base * (Pow2(n) - 1)
  {
    AddedFresh(q, spec, io, q1, id);
    RunWaits(q1, steps, q', id);
    var base, n := spec.opts.backoff.delay, q'.jobs[id].attemptsMade;
    if n > 0 ==> base * Pow2(n - 1) <= MAX_INT64 { TotalDelayIsGeometric(base, n); }
  }

  /** While the settles go through, a live instance has not used up its attempts. */
  lemma {:induction false} RunKeepsAttempts(q: State, steps: seq<Step>, q': State, id: Id)
    requires Inv(q) && Run(q, steps, q') && Persistent(q, id) && AllSettledWell(q, steps, id) && !FiledIn(q, steps, id)
    requires q.jobs[id].attemptsMade < Tries(q.jobs[id].opts)
    ensures Persistent(q', id) && q'.jobs[id].attemptsMade < Tries(q'.jobs[id].opts)
    decreases |steps|
  {
    if steps == [] {
    } else {
      StepKeeps(q, steps[0]);
      StepFiles(q, steps[0], id);
      HashKept(q, steps[0], id);
      RunKeepsAttempts(Apply(q, steps[0]), steps[1..], q', id);
    }
  }

  // ---------- the bound on all waits of an instance ----------

  /** The waits of the instance of id that is live in q, up to the step that files it. */
  ghost function InstanceWaits(q: State, steps: seq<Step>, id: Id): int
    decreases |steps|
  {
    if steps == [] || Files(q, steps[0], id) then 0
    else WaitOf(q, steps[0], id) + InstanceWaits(Apply(q, steps[0]), steps[1..], id)
  }

  /** Until the instance is filed, its failures are reported with the options it was stored with. */
  ghost predicate OwnOptions(q: State, steps: seq<Step>, id: Id)
    decreases |steps|
  {
    || steps == []
    || ((steps[0].Fail? && steps[0].id == id ==> steps[0].opts == JobOrNew(q, id).opts)
        && (Files(q, steps[0], id) || OwnOptions(Apply(q, steps[0]), steps[1..], id)))
  }

  /** The longest wait that the options can call for, before the last of n tries, fits an int. */
  predicate WaitsFit(base: nat, n: nat) {
    n >= 2 ==> base * Pow2(n - 2) <= MAX_INT64
  }

  lemma {:induction false} Pow2Rises(m: nat, n: nat)
    requires m <= n
    ensures Pow2(m) <= Pow2(n)
  {
    if m == n {
    } else {
      Pow2Rises(m, n - 1);
    }
  }

  lemma ProductRises(base: nat, x: nat, y: nat)
    requires x <= y
    ensures 0 <= base * x <= base * y
  {
    assert base * y == base * x + base * (y - x);
  }

  lemma TotalStep(base: nat, m: nat, n: nat)
    requires WaitsFit(base, n) && m + 1 < n
    ensures TotalDelay(base, m) <= TotalDelay(base, m + 1)
  {
    Pow2Rises(m, n - 2);
    ProductRises(base, Pow2(m), Pow2(n - 2));
    DelayIsPower(base, m);
    assert TotalDelay(base, m + 1) == TotalDelay(base, m) + ExponentialDelay(base, m);
  }

  lemma {:induction false} TotalRises(base: nat, l: nat, m: nat, n: nat)
    requires WaitsFit(base, n) && l <= m < n
    ensures TotalDelay(base, l) <= TotalDelay(base, m)
    decreases m
  {
    if l == m {
    } else {
      TotalRises(base, l, m - 1, n);
      TotalStep(base, m - 1, n);
    }
  }

  /** What a job with these options has waited at most once it has used up `made` attempts. */
  function Capped(opts: Opts, made: nat): int {
    TotalDelay(opts.backoff.delay, Min(made, Tries(opts) - 1))
  }

  /** One step adds no more to the waits than to the cap, whatever the attempts that were counted and then lost. */
  lemma StepWaitsCapped(q: State, step: Step, id: Id)
    requires Inv(q) && Enabled(q, step) && Persistent(q, id) && !Files(q, step, id)
    requires step.Fail? && step.id == id ==> step.opts == q.jobs[id].opts
    requires q.jobs[id].opts.backoff.delay >= 0 && WaitsFit(q.jobs[id].opts.backoff.delay, Tries(q.jobs[id].opts))
    ensures Capped(q.jobs[id].opts, q.jobs[id].attemptsMade) + WaitOf(q, step, id)
      <= Capped(q.jobs[id].opts, JobOrNew(Apply(q, step), id).attemptsMade)
  {
    HashKept(q, step, id);
    var opts, made := q.jobs[id].opts, q.jobs[id].attemptsMade;
    if CountsAttempt(step, id) && made + 1 < Tries(opts) { TotalStep(opts.backoff.delay, made, Tries(opts)); }
  }

  lemma {:induction false} RunWaitsCapped(q: State, steps: seq<Step>, q': State, id: Id)
    requires Inv(q) && Run(q, steps, q') && Persistent(q, id) && OwnOptions(q, steps, id)
    requires q.jobs[id].opts.backoff.delay >= 0 && WaitsFit(q.jobs[id].opts.backoff.delay, Tries(q.jobs[id].opts))
    ensures Capped(q.jobs[id].opts, q.jobs[id].attemptsMade) + InstanceWaits(q, steps, id)
      <= Capped(q.jobs[id].opts, Tries(q.jobs[id].opts))
    decreases |steps|
  {
    var opts := q.jobs[id].opts;
    if steps == [] || Files(q, steps[0], id) {
      TotalRises(opts.backoff.delay, Min(q.jobs[id].attemptsMade, Tries(opts) - 1), Tries(opts) - 1, Tries(opts));
    } else {
      StepKeeps(q, steps[0]);
      StepFiles(q, steps[0], id);
      HashKept(q, steps[0], id);
      StepWaitsCapped(q, steps[0], id);
      RunWaitsCapped(Apply(q, steps[0]), steps[1..], q', id);
    }
  }

  lemma FreshWaitsBounded(q: State, steps: seq<Step>, q': State, id: Id, opts: Opts)
    requires Inv(q) && Run(q, steps, q') && Persistent(q, id) && OwnOptions(q, steps, id)
    requires q.jobs[id].opts == opts && q.jobs[id].attemptsMade == 0
    requires opts.backoff.delay >= 0 && WaitsFit(opts.backoff.delay, Tries(opts))
    ensures InstanceWaits(q, steps, id) <= opts.backoff.delay * (Pow2(Tries(opts) - 1) - 1)
  {
    RunWaitsCapped(q, steps, q', id);
    TotalDelayIsGeometric(opts.backoff.delay, Tries(opts) - 1);
  }

  /**
    The options bound the waits: from its addition until it is filed, and over any run, a job waits at most
    base * (2^(Attempts-1) - 1) ms in all, if the longest wait its options can call for fits an int.
   */
  lemma WaitsAreBounded(q: State, spec: AddSpec, io: EntryIO, q1: State, steps: seq<Step>, q': State, id: Id)
    requires Inv(q) && NotNumeral(spec.jobId) && AddEntry(q, spec, io) == (q1, Added(id))
    requires spec.opts.backoff.delay >= 0 && WaitsFit(spec.opts.backoff.delay, Tries(spec.opts))
    requires Run(q1, steps, q') && OwnOptions(q1, steps, id)
    ensures InstanceWaits(q1, steps, id) <= spec.opts.backoff.delay * (Pow2(Tries(spec.opts) - 1) - 1)
  {
    AddedFresh(q, spec, io, q1, id);
    FreshWaitsBounded(q1, steps, q', id, spec.opts);
  }

  /** A job whose settles go through is live with fewer attempts used up than its options allow. */
  lemma LiveBelowLimit(q: State, spec: AddSpec, io: EntryIO, q1: State, steps: seq<Step>, q': State, id: Id)
    requires Inv(q) && NotNumeral(spec.jobId) && AddEntry(q, spec, io) == (q1, Added(id))
    requires Run(q1, steps, q') && AllSettledWell(q1, steps, id) && !FiledIn(q1, steps, id)
    ensures Persistent(q', id) && q'.jobs[id].attemptsMade < Tries(spec.opts)
  {
    AddedFresh(q, spec, io, q1, id);
    RunKeepsAttempts(q1, steps, q', id);
    InstanceKept(q1, steps, q', id, q1.clock);
  }

  // ---------- termination ----------

  /** Attempts a job still has. */
  function Remaining(jobs: map<Id, Job>, id: Id): nat {
    if id in jobs then Max(0, Tries(jobs[id].opts) - jobs[id].attemptsMade) else 0
  }

  function Weight(jobs: map<Id, Job>, id: Id, rank: nat): nat {
    3 * Remaining(jobs, id) + rank + 1
  }

  ghost function Sum(jobs: map<Id, Job>, s: seq<Id>, rank: nat): nat {
    if s == [] then 0 else Weight(jobs, s[0], rank) + Sum(jobs, s[1..], rank)
  }

  ghost function ZSum(jobs: map<Id, Job>, z: seq<Entry>, rank: nat): nat {
    if z == [] then 0 else Weight(jobs, z[0].member, rank) + ZSum(jobs, z[1..], rank)
  }

  /** What is left to do: three per remaining attempt, and where the job is on its way to the next one. */
  ghost function Work(q: State): nat {
    Sum(q.jobs, q.wait, 1) + ZSum(q.jobs, q.prioritized, 1) + Sum(q.jobs, q.active, 0) + ZSum(q.jobs, q.delayed, 2)
  }

  lemma {:induction false} SumFrame(jobs: map<Id, Job>, jobs': map<Id, Job>, s: seq<Id>, id: Id, rank: nat)
    requires Occ(s, id) == 0 && forall x :: x != id ==> Remaining(jobs', x) == Remaining(jobs, x)
    ensures Sum(jobs', s, rank) == Sum(jobs, s, rank)
  {
    if s == [] {
    } else {
      SumFrame(jobs, jobs', s[1..], id, rank);
    }
  }

  lemma {:induction false} ZSumFrame(jobs: map<Id, Job>, jobs': map<Id, Job>, z: seq<Entry>, id: Id, rank: nat)
    requires ZOcc(z, id) == 0 && forall x :: x != id ==> Remaining(jobs', x) == Remaining(jobs, x)
    ensures ZSum(jobs', z, rank) == ZSum(jobs, z, rank)
  {
    if z == [] {
    } else {
      ZSumFrame(jobs, jobs', z[1..], id, rank);
    }
  }

  lemma {:induction false} SumLRem(jobs: map<Id, Job>, s: seq<Id>, id: Id, rank: nat)
    requires Occ(s, id) <= 1
    ensures Sum(jobs, s, rank) == Sum(jobs, LRem(s, id), rank) + if Occ(s, id) == 1 then Weight(jobs, id, rank) else 0
  {
    if s == [] {
    } else {
      SumLRem(jobs, s[1..], id, rank);
    }
  }

  lemma {:induction false} ZSumZRem(jobs: map<Id, Job>, z: seq<Entry>, id: Id, rank: nat)
    requires ZOcc(z, id) <= 1
    ensures ZSum(jobs, z, rank)
      == ZSum(jobs, ZRem(z, id), rank) + if ZOcc(z, id) == 1 then Weight(jobs, id, rank) else 0
  {
    if z == [] {
    } else {
      ZSumZRem(jobs, z[1..], id, rank);
    }
  }

  lemma {:induction false} ZSumInsert(jobs: map<Id, Job>, z: seq<Entry>, e: Entry, rank: nat)
    ensures ZSum(jobs, Insert(z, e), rank) == ZSum(jobs, z, rank) + Weight(jobs, e.member, rank)
  {
    if z != [] && !EntryLess(e, z[0]) { ZSumInsert(jobs, z[1..], e, rank); }
  }

  lemma ZSumZAdd(jobs: map<Id, Job>, z: seq<Entry>, e: Entry, rank: nat)
    requires ZOcc(z, e.member) == 0
    ensures ZSum(jobs, ZAdd(z, e), rank) == ZSum(jobs, z, rank) + Weight(jobs, e.member, rank)
  {
    ZSumInsert(jobs, ZRem(z, e.member), e, rank);
    ZSumZRem(jobs, z, e.member, rank);
  }

  lemma {:induction false} SumSnoc(jobs: map<Id, Job>, s: seq<Id>, id: Id, rank: nat)
    ensures Sum(jobs, s + [id], rank) == Sum(jobs, s, rank) + Weight(jobs, id, rank)
  {
    if s == [] {
    } else {
      SumSnoc(jobs, s[1..], id, rank);
      assert (s + [id])[1..] == s[1..] + [id];
    }
  }

  lemma PopWorks(q: State)
    requires Pop(q).1.Some?
    ensures Work(Pop(q).0) < Work(q)
  {
    if q.prioritized == [] {
      var n := |q.wait| - 1;
      assert q.wait == q.wait[..n] + [q.wait[n]];
      SumSnoc(q.jobs, q.wait[..n], q.wait[n], 1);
    }
  }

  /** What the others still have to do, once an active id has been taken out and its hash changed. */
  lemma SettledWork(q: State, jobs': map<Id, Job>, id: Id)
    requires LiveInv(q) && id in q.active && forall x :: x != id ==> Remaining(jobs', x) == Remaining(q.jobs, x)
    ensures Sum(jobs', q.wait, 1) + ZSum(jobs', q.prioritized, 1) + Sum(jobs', LRem(q.active, id), 0)
      + ZSum(jobs', q.delayed, 2)
      + Weight(q.jobs, id, 0) == Work(q)
  {
    ActiveFacts(q, id);
    SumLRem(q.jobs, q.active, id, 0);
    OccLRem(q.active, id, id);
    SumFrame(q.jobs, jobs', q.wait, id, 1);
    ZSumFrame(q.jobs, jobs', q.prioritized, id, 1);
    SumFrame(q.jobs, jobs', LRem(q.active, id), id, 0);
    ZSumFrame(q.jobs, jobs', q.delayed, id, 2);
  }

  lemma CompleteWorks(q: State, id: Id)
    requires LiveInv(q) && id in q.active
    ensures Work(CompleteJob(q, id)) < Work(q)
  {
    SettledWork(q, CompleteJob(q, id).jobs, id);
  }

  /** A failure that is retried uses up one of the remaining attempts; the others keep theirs. */
  lemma FailRemaining(q: State, id: Id, reason: string)
    requires Persistent(q, id)
    ensures var q' := FailJob(q, id, reason, q.jobs[id].opts, SettleOk);
      && (forall x :: x != id ==> Remaining(q'.jobs, x) == Remaining(q.jobs, x))
      && (Retries(CountAttempt(q, id), id, q.jobs[id].opts) ==> Remaining(q'.jobs, id) + 1 == Remaining(q.jobs, id))
  {
    var counted := CountAttempt(q, id);
    assert FailJob(q, id, reason, q.jobs[id].opts, SettleOk) == Refile(counted, id, reason, q.jobs[id].opts);
  }

  function RetryEntry(q: State, id: Id, opts: Opts): Entry {
    Entry(q.clock + ExponentialDelay(opts.backoff.delay, JobOrNew(q, id).attemptsMade), id)
  }

  /** Where a failed job goes. */
  lemma FailPlaces(q: State, id: Id, reason: string, opts: Opts)
    requires id in q.jobs
    ensures var q' := FailJob(q, id, reason, opts, SettleOk);
      && q'.wait == q.wait && q'.prioritized == q.prioritized && q'.active == LRem(q.active, id)
      && if Retries(CountAttempt(q, id), id, opts)
         then q'.delayed == ZAdd(q.delayed, RetryEntry(q, id, opts))
         else q'.delayed == q.delayed
  {}

  /** A counted failure, settled with the job's own options, moves the job forward. */
  lemma FailWorks(q: State, id: Id, reason: string)
    requires LiveInv(q) && id in q.active
    ensures Work(FailJob(q, id, reason, JobOrNew(q, id).opts, SettleOk)) < Work(q)
  {
    ActiveFacts(q, id);
    var opts := q.jobs[id].opts;
    var q' := FailJob(q, id, reason, opts, SettleOk);
    FailRemaining(q, id, reason);
    FailPlaces(q, id, reason, opts);
    SettledWork(q, q'.jobs, id);
    if Retries(CountAttempt(q, id), id, opts) {
      ZSumZAdd(q'.jobs, q.delayed, RetryEntry(q, id, opts), 2);
    }
  }

  lemma PromoteWorks(q: State, id: Id, score: int)
    requires LiveInv(q) && ZOcc(q.delayed, id) > 0
    ensures Work(Promote(q, id, score)) < Work(q)
  {
    assert Count(q, id) <= 1;
    ZSumZRem(q.jobs, q.delayed, id, 2);
    if id in q.jobs && q.jobs[id].opts.priority > 0 {
      ZSumZAdd(q.jobs, q.prioritized, Entry(score, id), 1);
    }
  }

  lemma WaitWorks(q: State, ms: nat)
    requires LiveInv(q)
    ensures Work(Tick(q, ms)) == Work(q)
  {
    var q' := Tick(q, ms);
    LiveWeights(q, q'.jobs, q.wait, 1);
    LiveWeights(q, q'.jobs, q.active, 0);
    ZLiveWeights(q, q'.jobs, q.prioritized, 1);
    ZLiveWeights(q, q'.jobs, q.delayed, 2);
  }

  /** Ids that are live keep their weight when only expiring hashes go. */
  lemma {:induction false} LiveWeights(q: State, jobs': map<Id, Job>, s: seq<Id>, rank: nat)
    requires LiveInv(q) && forall id :: Occ(s, id) <= Count(q, id)
    requires forall id :: Persistent(q, id) ==> id in jobs' && jobs'[id] == q.jobs[id]
    ensures Sum(jobs', s, rank) == Sum(q.jobs, s, rank)
  {
    if s == [] {
    } else {
      assert Occ(s, s[0]) > 0;
      assert Persistent(q, s[0]) by { assert Count(q, s[0]) > 0; }
      forall id ensures Occ(s[1..], id) <= Count(q, id) { assert Occ(s, id) <= Count(q, id); }
      LiveWeights(q, jobs', s[1..], rank);
    }
  }

  lemma {:induction false} ZLiveWeights(q: State, jobs': map<Id, Job>, z: seq<Entry>, rank: nat)
    requires LiveInv(q) && forall id :: ZOcc(z, id) <= Count(q, id)
    requires forall id :: Persistent(q, id) ==> id in jobs' && jobs'[id] == q.jobs[id]
    ensures ZSum(jobs', z, rank) == ZSum(q.jobs, z, rank)
  {
    if z == [] {
    } else {
      assert ZOcc(z, z[0].member) > 0;
      assert Persistent(q, z[0].member) by { assert Count(q, z[0].member) > 0; }
      forall id ensures ZOcc(z[1..], id) <= Count(q, id) { assert ZOcc(z, id) <= Count(q, id); }
      ZLiveWeights(q, jobs', z[1..], rank);
    }
  }

  /** A step that moves a job: a pop that finds one, a settle that goes through, a promotion. */
  predicate Moves(q: State, step: Step) {
    match step
    case Add(_, _) => false
    case PopNext => Pop(q).1.Some?
    case Complete(_) => true
    case Fail(_, _, _, _) => true
    case Promotion(_, _) => true
    case Wait(_) => false
  }

  /** Settles go through and failures are settled with the options the job was stored with. */
  predicate Orderly(q: State, step: Step) {
    !step.Add? && (step.Fail? ==> step.settleIO == SettleOk && step.opts == JobOrNew(q, step.id).opts)
  }

  ghost predicate OrderlyRun(q: State, steps: seq<Step>)
    decreases |steps|
  {
    steps == [] || (Enabled(q, steps[0]) && Orderly(q, steps[0]) && OrderlyRun(Apply(q, steps[0]), steps[1..]))
  }

  ghost function MovesIn(q: State, steps: seq<Step>): nat
    decreases |steps|
  {
    if steps == [] then 0 else (if Moves(q, steps[0]) then 1 else 0) + MovesIn(Apply(q, steps[0]), steps[1..])
  }

  /** However workers, scheduler and clock interleave, a run that adds nothing moves jobs at most Work(q) times. */
  lemma {:induction false} MovesAreBounded(q: State, steps: seq<Step>)
    requires Inv(q) && OrderlyRun(q, steps)
    ensures MovesIn(q, steps) <= Work(q)
    decreases |steps|
  {
    if steps == [] {
    } else {
      var step := steps[0];
      StepKeeps(q, step);
      MovesAreBounded(Apply(q, step), steps[1..]);
      match step
      case PopNext => if Pop(q).1.Some? { PopWorks(q); }
      case Complete(id) => CompleteWorks(q, id);
      case Fail(id, reason, _, _) => FailWorks(q, id, reason);
      case Promotion(id, score) => PromoteWorks(q, id, score);
      case Wait(ms) => WaitWorks(q, ms);
    }
  }
}
