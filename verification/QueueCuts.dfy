/**
  The pipelines of AddBulk, CompleteJob and FailJob are not transactions. These lemmas say exactly at which
  command a pipeline may be cut off without breaking the queue, and what assumption the custom ids rest on.
 */
module QueueCuts {
  import opened Prelude
  import opened JobQueue
  import opened QueueInvariant
  import opened QueueRuns
  import Decimal

  /** The first k of the add pipeline's commands: HSET, then ZADD or LPUSH, then XADD (which moves no job). */
  function PlaceCut(q: State, id: Id, spec: AddSpec, score: int, k: nat): State {
    if k == 0 then q
    else if k == 1 then q.(jobs := Place(q, id, spec, score).jobs)
    else Place(q, id, spec, score)
  }

  /** The first k of LREM active, ZADD completed, HSET finishedOn, EXPIRE. */
  function CompleteCut(q: State, id: Id, k: nat): State {
    var q1 := if k >= 1 then q.(active := LRem(q.active, id)) else q;
    var q2 := if k >= 2 then q1.(completed := q.completed[id := q.clock]) else q1;
    var q3 := if k >= 3 then q2.(jobs := q.jobs[id := JobOrNew(q, id).(finishedOn := Some(q.clock))]) else q2;
    if k >= 4 then CompleteJob(q, id) else q3
  }

  /**
    The first k of FailJob's second pipeline: LREM active, ZADD delayed or failed, HSET, and EXPIRE for a final failure.
   */
  function RefileCut(q: State, id: Id, reason: string, opts: Opts, k: nat): State {
    var full := Refile(q, id, reason, opts);
    var q1 := if k >= 1 then q.(active := full.active) else q;
    var q2 := if k >= 2 then q1.(delayed := full.delayed, failed := full.failed) else q1;
    var finishedOn := if Retries(q, id, opts) then JobOrNew(q, id).finishedOn else Some(q.clock);
    var q3 := if k >= 3
              then q2.(jobs := q.jobs[id := JobOrNew(q, id).(failedReason := reason, finishedOn := finishedOn)])
              else q2;
    if k >= 4 then full else q3
  }

  /**
    Cut right after HSET, the add leaves a lasting hash of a job that no structure holds; anywhere else it is harmless.
   */
  lemma AddCut(q: State, id: Id, spec: AddSpec, score: int, k: nat)
    requires Inv(q) && id !in q.jobs
    ensures LiveInv(PlaceCut(q, id, spec, score, k)) <==> k != 1
  {
    assert Count(q, id) == 0;
    if k == 1 {
      var q' := PlaceCut(q, id, spec, score, k);
      assert Persistent(q', id) && Count(q', id) == 0;
    } else if k >= 2 {
      PlaceLive(q, id, spec, score);
    }
  }

  /**
    A completion may be cut before its first command or after its last; cut in between, the job is in no live structure
    but its hash has no expiry.
   */
  lemma CompletionCut(q: State, id: Id, k: nat)
    requires Inv(q) && id in q.active
    ensures LiveInv(CompleteCut(q, id, k)) <==> k == 0 || k >= 4
  {
    ActiveFacts(q, id);
    OccLRem(q.active, id, id);
    if k >= 4 {
      CompleteKeeps(q, id);
    } else if k > 0 {
      var q' := CompleteCut(q, id, k);
      assert Persistent(q', id) && Count(q', id) == 0;
    }
  }

  /** A retry is only lost between LREM and ZADD; a final failure anywhere short of EXPIRE. */
  lemma FailureCut(q: State, id: Id, reason: string, opts: Opts, k: nat)
    requires Inv(q) && id in q.active
    ensures LiveInv(RefileCut(q, id, reason, opts, k)) <==>
      if Retries(q, id, opts) then k != 1 else k == 0 || k >= 4
  {
    ActiveFacts(q, id);
    OccLRem(q.active, id, id);
    var q' := RefileCut(q, id, reason, opts, k);
    if k >= 4 {
      RefileKeeps(q, id, reason, opts);
    } else if k == 1 || (k > 0 && !Retries(q, id, opts)) {
      assert Persistent(q', id) && Count(q', id) == 0;
    } else if k >= 2 {
      RetryCutIsWhole(q, id, reason, opts, k);
    }
  }

  lemma RetryCutIsWhole(q: State, id: Id, reason: string, opts: Opts, k: nat)
    requires Inv(q) && id in q.active && Retries(q, id, opts) && k >= 2
    ensures LiveInv(RefileCut(q, id, reason, opts, k))
  {
    var full, q' := Refile(q, id, reason, opts), RefileCut(q, id, reason, opts, k);
    ActiveFacts(q, id);
    RefileKeeps(q, id, reason, opts);
    LiveSame(full, q');
  }

  // ---------- custom ids that are numerals ----------

  /** k jobs added without an id of their own. */
  function Autos(q: State, auto: AddSpec, k: nat): State
    decreases k
  {
    if k == 0 then q else AddEntry(Autos(q, auto, k - 1), auto, IoOk).0
  }

  /** Where id is found after x was enqueued: LPUSH adds an occurrence, ZADD makes it one. */
  lemma EnqueuePlaces(q: State, x: Id, spec: AddSpec, id: Id)
    ensures var q' := Enqueue(q, x, spec);
      && Occ(q'.wait, id) == Occ(q.wait, id) + (if x == id && spec.opts.priority <= 0 then 1 else 0)
      && ZOcc(q'.prioritized, id) == (if x == id && spec.opts.priority > 0 then 1 else ZOcc(q.prioritized, id))
      && q'.active == q.active && q'.delayed == q.delayed && q'.lastId == q.lastId && q'.clock == q.clock
  {
    ZOccZAdd(q.prioritized, Entry(Score(NonNeg(spec.opts.priority), q.clock), x), id);
  }

  lemma AutoEnqueues(q: State, auto: AddSpec)
    requires auto.jobId == NO_ID
    ensures AddEntry(q, auto, IoOk).0 == Enqueue(q.(lastId := q.lastId + 1), AutoId(q.lastId + 1), auto)
  {}

  /** Where an id stands, the two structures that adding leaves alone, and the counter and the clock. */
  ghost predicate Passed(q: State, q': State, id: Id, k: nat) {
    && Occ(q'.wait, id) == Occ(q.wait, id) && ZOcc(q'.prioritized, id) == ZOcc(q.prioritized, id)
    && q'.active == q.active && q'.delayed == q.delayed && q'.lastId == q.lastId + k && q'.clock == q.clock
  }

  lemma {:induction false} AutosPass(q: State, auto: AddSpec, k: nat, n: nat)
    requires auto.jobId == NO_ID && q.lastId + k < n
    ensures Passed(q, Autos(q, auto, k), AutoId(n), k)
    decreases k
  {
    if k == 0 {
    } else {
      var before := Autos(q, auto, k - 1);
      AutosPass(q, auto, k - 1, n);
      AutoPasses(before, auto, n);
      AutosStep(q, auto, k - 1);
    }
  }

  lemma AutoPasses(q: State, auto: AddSpec, n: nat)
    requires auto.jobId == NO_ID && q.lastId + 1 < n
    ensures Passed(q, AddEntry(q, auto, IoOk).0, AutoId(n), 1)
  {
    AutoEnqueues(q, auto);
    if AutoId(q.lastId + 1) == AutoId(n) { Decimal.DigitsInjective(q.lastId + 1, n); }
    EnqueuePlaces(q.(lastId := q.lastId + 1), AutoId(q.lastId + 1), auto, AutoId(n));
  }

  predicate HasPriority(spec: AddSpec) {
    spec.opts.priority > 0
  }

  /** id is in wait `inWait` times, in prioritized `inSet` times, and nowhere else. */
  ghost predicate Placed(q: State, id: Id, inWait: nat, inSet: nat) {
    && Occ(q.wait, id) == inWait && ZOcc(q.prioritized, id) == inSet
    && Occ(q.active, id) == 0 && ZOcc(q.delayed, id) == 0
  }

  lemma CustomPlaced(q: State, n: nat, spec: AddSpec)
    requires Inv(q) && n > q.lastId && spec.jobId == AutoId(n)
    ensures var q1 := AddEntry(q, spec, IoOk).0;
      && q1.lastId == q.lastId
      && if HasPriority(spec) then Placed(q1, AutoId(n), 0, 1) else Placed(q1, AutoId(n), 1, 0)
  {
    Decimal.DigitsAreDigits(n);
    assert Count(q, AutoId(n)) == 0;
    EnqueuePlaces(q, AutoId(n), spec, AutoId(n));
  }

  lemma AutoPlaced(q: State, auto: AddSpec, inWait: nat, inSet: nat)
    requires auto.jobId == NO_ID && Placed(q, AutoId(q.lastId + 1), inWait, inSet)
    ensures var q1, id := AddEntry(q, auto, IoOk).0, AutoId(q.lastId + 1);
      && (if HasPriority(auto) then Placed(q1, id, inWait, 1) else Placed(q1, id, inWait + 1, inSet))
      && id in q1.jobs && Written(q1.jobs[id]) == (auto.name, auto.data, auto.opts, q.clock)
  {
    AutoEnqueues(q, auto);
    EnqueuePlaces(q.(lastId := q.lastId + 1), AutoId(q.lastId + 1), auto, AutoId(q.lastId + 1));
  }

  lemma CounterArrives(q: State, n: nat, auto: AddSpec, inWait: nat, inSet: nat)
    requires auto.jobId == NO_ID && n > q.lastId && Placed(q, AutoId(n), inWait, inSet)
    ensures var q', id := Autos(q, auto, n - q.lastId), AutoId(n);
      && (if HasPriority(auto) then Placed(q', id, inWait, 1) else Placed(q', id, inWait + 1, inSet))
      && id in q'.jobs && Written(q'.jobs[id]) == (auto.name, auto.data, auto.opts, q.clock)
  {
    var k: nat := n - q.lastId - 1;
    var before := Autos(q, auto, k);
    AutosPass(q, auto, k, n);
    assert before.lastId + 1 == n;
    assert Placed(before, AutoId(n), inWait, inSet);
    AutoPlaced(before, auto, inWait, inSet);
    AutosStep(q, auto, k);
  }

  lemma AutosStep(q: State, auto: AddSpec, k: nat)
    ensures Autos(q, auto, k + 1) == AddEntry(Autos(q, auto, k), auto, IoOk).0
  {}

  /**
    A custom id that is a numeral still ahead of the counter is taken over by the automatic job that the counter gives
    it to: the hash is then that job's, and the id is queued twice, or once if both jobs have priority.
   */
  lemma NumeralIdCollides(q: State, n: nat, spec: AddSpec, auto: AddSpec)
    requires Inv(q) && n > q.lastId && spec.jobId == AutoId(n) && auto.jobId == NO_ID
    ensures var q', id := Autos(AddEntry(q, spec, IoOk).0, auto, n - q.lastId), AutoId(n);
      && Count(q', id) == (if HasPriority(spec) && HasPriority(auto) then 1 else 2)
      && id in q'.jobs && Written(q'.jobs[id]) == (auto.name, auto.data, auto.opts, q.clock)
  {
    CustomPlaced(q, n, spec);
    var q1 := AddEntry(q, spec, IoOk).0;
    if HasPriority(spec) {
      CounterArrives(q1, n, auto, 0, 1);
    } else {
      CounterArrives(q1, n, auto, 1, 0);
    }
  }

  /** Automatic jobs keep the invariant and every hash that is there. */
  lemma {:induction false} AutosKeep(q: State, auto: AddSpec, k: nat, id: Id)
    requires Inv(q) && auto.jobId == NO_ID && id in q.jobs
    ensures var q' := Autos(q, auto, k); Inv(q') && id in q'.jobs && q'.jobs[id] == q.jobs[id]
    decreases k
  {
    if k == 0 {
    } else {
      AutosKeep(q, auto, k - 1, id);
      NoIdIsNoNumeral();
      var before := Autos(q, auto, k - 1);
      AddEntryKeeps(before, auto, IoOk);
      AddKeepsHash(before, auto, IoOk, id);
    }
  }

  lemma NoIdIsNoNumeral()
    ensures NotNumeral(NO_ID)
  {
    forall n: nat | n > 0 ensures NO_ID != AutoId(n) { Decimal.DigitsAreDigits(n); }
  }

  /** The queue is in order, and id still stands for the job that was added under it. */
  ghost predicate Intact(q: State, id: Id, spec: AddSpec, t: nat) {
    LiveInv(q) && id in q.jobs && Written(q.jobs[id]) == (spec.name, spec.data, spec.opts, t)
  }

  /**
    A custom id is safe from the counter, however many automatic jobs (different from its own) follow, if and only if it
    is no numeral ahead of it.
   */
  lemma CustomIdSafeExactly(q: State, spec: AddSpec, auto: AddSpec)
    requires Inv(q) && spec.jobId != NO_ID && spec.jobId !in q.jobs && auto.jobId == NO_ID
    requires (spec.name, spec.data, spec.opts) != (auto.name, auto.data, auto.opts)
    ensures (forall k :: Intact(Autos(AddEntry(q, spec, IoOk).0, auto, k), spec.jobId, spec, q.clock))
      <==> forall n: nat :: n > q.lastId ==> spec.jobId != AutoId(n)
  {
    var q1 := AddEntry(q, spec, IoOk).0;
    if n: nat :| n > q.lastId && spec.jobId == AutoId(n) {
      NumeralIdCollides(q, n, spec, auto);
      assert !Intact(Autos(q1, auto, n - q.lastId), spec.jobId, spec, q.clock);
    } else {
      EnqueueKeeps(q, spec.jobId, spec);
      AddedHash(q, spec, IoOk);
      forall k ensures Intact(Autos(q1, auto, k), spec.jobId, spec, q.clock) { AutosKeep(q1, auto, k, spec.jobId); }
    }
  }
}
