/**
  The BullMQ-compatible job queue as a value: Redis lists, sorted sets, job hashes and the id counter,
  and one function per atomic Redis step. RedisQueue runs the same steps on mutable fields.
 */
module JobQueue {
  import opened Prelude
  import Strings
  import Decimal

  /** A job id; the empty text stands for no id. */
  datatype Id = Id(text: string)

  const NO_ID := Id("")

  /** strconv.FormatInt of a counter value. */
  function AutoId(n: nat): Id {
    Id(Decimal.Format(n))
  }

  const COMPLETE_AGE_MS: nat := 3600 * 1000
  const FAIL_AGE_MS: nat := 86400 * 1000

  datatype Backoff = Backoff(kind: string, delay: int)
  datatype Opts = Opts(attempts: int, priority: int, backoff: Backoff)

  /** The hash bull:{queue}:{id}; expireAt is the key's time to live, as an absolute time in ms. */
  datatype Job = Job(name: string, data: string, opts: Opts, timestamp: nat, attemptsMade: nat,
                     attemptsStarted: nat, stalledCounter: nat, failedReason: string, finishedOn: Option<int>,
                     expireAt: Option<int>)

  /** What PopJob hands to a worker. */
  datatype RawJob = RawJob(id: Id, name: string, data: string, opts: Opts, attemptsMade: nat)

  /** One entry of a sorted set. Redis orders entries by score, then by member. */
  datatype Entry = Entry(score: int, member: Id)

  /** Lists are read from head to tail; the sorted sets that are consumed are kept in Redis order. */
  datatype State = State(wait: seq<Id>, prioritized: seq<Entry>, active: seq<Id>, delayed: seq<Entry>,
                         completed: map<Id, int>, failed: map<Id, int>, jobs: map<Id, Job>, lastId: nat, clock: nat)

  const EMPTY := State([], [], [], [], map[], map[], map[], 0, 0)

  // ---------- sorted sets and lists ----------

  predicate EntryLess(a: Entry, b: Entry) {
    a.score < b.score || (a.score == b.score && Strings.Less(a.member.text, b.member.text))
  }

  function Insert(z: seq<Entry>, e: Entry): seq<Entry> {
    if z == [] || EntryLess(e, z[0]) then [e] + z else [z[0]] + Insert(z[1..], e)
  }

  function ZRem(z: seq<Entry>, id: Id): seq<Entry> {
    if z == [] then []
    else if z[0].member == id then ZRem(z[1..], id)
    else [z[0]] + ZRem(z[1..], id)
  }

  /** ZADD: a member that is already there is moved to its new score. */
  function ZAdd(z: seq<Entry>, e: Entry): seq<Entry> {
    Insert(ZRem(z, e.member), e)
  }

  /** LREM key 0 id. */
  function LRem(s: seq<Id>, id: Id): seq<Id> {
    if s == [] then []
    else if s[0] == id then LRem(s[1..], id)
    else [s[0]] + LRem(s[1..], id)
  }

  // ---------- float64 scores ----------

  const TWO53: nat := 0x20_0000_0000_0000
  const PRIORITY_UNIT: nat := 1_000_000_000_000

  /** Rounds n >= 2^53 to 53 significant bits; sticky tells whether a bit that was already dropped was 1. */
  function RoundBits(n: nat, sticky: bool): nat
    requires n >= TWO53
  {
    if n < 2 * TWO53 then
      var h := n / 2;
      if n % 2 == 1 && (sticky || h % 2 == 1) then 2 * (h + 1) else 2 * h
    else 2 * RoundBits(n / 2, sticky || n % 2 == 1)
  }

  /** float64(n): round to nearest, ties to even. */
  function Float64(n: nat): nat {
    if n < TWO53 then n else RoundBits(n, false)
  }

  /** float64(priority)*1e12 + float64(now), rounding after each operation. */
  function Score(priority: nat, now: nat): nat {
    Float64(Float64(Float64(priority) * PRIORITY_UNIT) + Float64(now))
  }

  // ---------- adding ----------

  /** AddJobOpts with its data already marshalled; jobId is NO_ID when none was given. */
  datatype AddSpec = AddSpec(name: string, data: string, opts: Opts, jobId: Id)

  /**
    What happens to the round trips and the marshalling of one AddBulk entry. An error means that the call had no
    effect; lost means that it took effect but its reply did not arrive.
   */
  datatype EntryIO = IoOk | ExistsError | IncrError | IncrLost | MarshalError | ExecError | ExecLost

  /** What became of an entry in Redis; AddBulk also gives up after adding one whose reply was lost. */
  datatype AddOutcome = Added(id: Id) | Skipped | Aborted

  const NO_OPTS := Opts(0, 0, Backoff("", 0))
  const NO_JOB := Job("", "", NO_OPTS, 0, 0, 0, 0, "", None, None)

  /** HSET and HINCRBY change fields of an existing hash and create a missing one. */
  function JobOrNew(q: State, id: Id): Job {
    if id in q.jobs then q.jobs[id] else NO_JOB
  }

  /** The add pipeline: HSET, then ZADD or LPUSH. */
  function Place(q: State, id: Id, spec: AddSpec, score: int): State {
    var job := JobOrNew(q, id).(name := spec.name, data := spec.data, opts := spec.opts,
                                timestamp := q.clock, attemptsMade := 0, attemptsStarted := 0, stalledCounter := 0);
    var q1 := q.(jobs := q.jobs[id := job]);
    if spec.opts.priority > 0
    then q1.(prioritized := ZAdd(q.prioritized, Entry(score, id)))
    else q1.(wait := [id] + q.wait)
  }

  function Enqueue(q: State, id: Id, spec: AddSpec): State {
    Place(q, id, spec, Score(NonNeg(spec.opts.priority), q.clock))
  }

  function AddEntry(q: State, spec: AddSpec, io: EntryIO): (State, AddOutcome) {
    if spec.jobId != NO_ID then
      if io == ExistsError then (q, Aborted)
      else if spec.jobId in q.jobs then (q, Skipped)
      else if io == MarshalError || io == ExecError then (q, Aborted)
      else (Enqueue(q, spec.jobId, spec), Added(spec.jobId))
    else
      if io == IncrError then (q, Aborted)
      else
        var q1 := q.(lastId := q.lastId + 1);
        var id := AutoId(q1.lastId);
        if io == IncrLost || io == MarshalError || io == ExecError then (q1, Aborted)
        else (Enqueue(q1, id, spec), Added(id))
  }

  /** AddBulk goes on to the next entry after a skipped one and after one it knows to be added. */
  predicate GoesOn(outcome: AddOutcome, io: EntryIO) {
    outcome.Skipped? || (outcome.Added? && io != ExecLost)
  }

  /** AddBulk: entries in order, up to the first that fails. */
  function AddAll(q: State, specs: seq<AddSpec>, io: seq<EntryIO>): (State, bool)
    requires |io| == |specs|
    decreases |specs|
  {
    if specs == [] then (q, true)
    else
      var (q1, outcome) := AddEntry(q, specs[0], io[0]);
      if GoesOn(outcome, io[0]) then AddAll(q1, specs[1..], io[1..]) else (q1, false)
  }

  // ---------- popping ----------

  /** The moveToActive script. */
  function Pop(q: State): (State, Option<Id>) {
    if q.prioritized != [] then
      var id := q.prioritized[0].member;
      (q.(prioritized := q.prioritized[1..], active := [id] + q.active), Some(id))
    else if q.wait != [] then
      var id := q.wait[|q.wait| - 1];
      (q.(wait := q.wait[..|q.wait| - 1], active := [id] + q.active), Some(id))
    else (q, None)
  }

  function GetJob(q: State, id: Id): Option<RawJob> {
    if id in q.jobs
    then Some(RawJob(id, q.jobs[id].name, q.jobs[id].data, q.jobs[id].opts, q.jobs[id].attemptsMade))
    else None
  }

  // ---------- settling ----------

  function CompleteJob(q: State, id: Id): State {
    q.(active := LRem(q.active, id),
       completed := q.completed[id := q.clock],
       jobs := q.jobs[id := JobOrNew(q, id).(finishedOn := Some(q.clock), expireAt := Some(q.clock + COMPLETE_AGE_MS))])
  }

  function Wrap64(n: int): int {
    (n - MIN_INT64) % 0x1_0000_0000_0000_0000 + MIN_INT64
  }

  /** exponentialDelay: doubling in 64-bit arithmetic. */
  function ExponentialDelay(base: int, attempt: int): int
    decreases attempt
  {
    if attempt <= 0 then base else Wrap64(2 * ExponentialDelay(base, attempt - 1))
  }

  /** HINCRBY attemptsMade 1. */
  function CountAttempt(q: State, id: Id): State {
    var job := JobOrNew(q, id);
    q.(jobs := q.jobs[id := job.(attemptsMade := job.attemptsMade + 1)])
  }

  /** How often a job may be tried: at least once, whatever its options say. */
  function Tries(opts: Opts): (n: nat)
    ensures n >= 1
  {
    if opts.attempts < 1 then 1 else opts.attempts
  }

  predicate Retries(q: State, id: Id, opts: Opts) {
    JobOrNew(q, id).attemptsMade < opts.attempts
  }

  /** The second pipeline of FailJob, run after the attempt has been counted. */
  function Refile(q: State, id: Id, reason: string, opts: Opts): State {
    var job := JobOrNew(q, id);
    var q1 := q.(active := LRem(q.active, id));
    if Retries(q, id, opts) then
      var retryAt := q.clock + ExponentialDelay(opts.backoff.delay, job.attemptsMade - 1);
      q1.(delayed := ZAdd(q.delayed, Entry(retryAt, id)), jobs := q.jobs[id := job.(failedReason := reason)])
    else
      q1.(failed := q.failed[id := q.clock],
          jobs := q.jobs[id := job.(failedReason := reason, finishedOn := Some(q.clock),
                                    expireAt := Some(q.clock + FAIL_AGE_MS))])
  }

  /**
    The calls of FailJob. SettleOk: all took effect, whether or not the last reply arrived. CountedThenError: HINCRBY
    took effect, but its reply or the pipeline after it was lost.
   */
  datatype SettleIO = SettleOk | SettleError | CountedThenError

  function FailJob(q: State, id: Id, reason: string, opts: Opts, io: SettleIO): State {
    match io
    case SettleError => q
    case CountedThenError => CountAttempt(q, id)
    case SettleOk => Refile(CountAttempt(q, id), id, reason, opts)
  }

  // ---------- the environment ----------

  /** Time passes; Redis drops the hashes whose expiry time now lies in the past. */
  function Tick(q: State, ms: nat): State {
    var now := q.clock + ms;
    q.(clock := now,
       jobs := map id | id in q.jobs && (q.jobs[id].expireAt.Some? ==> now <= q.jobs[id].expireAt.value) :: q.jobs[id])
  }

  /** The BullMQ scheduler moves a delayed job back to the queue; the score of a prioritized one is its choice. */
  function Promote(q: State, id: Id, score: int): State {
    var q1 := q.(delayed := ZRem(q.delayed, id));
    if id in q.jobs && q.jobs[id].opts.priority > 0
    then q1.(prioritized := ZAdd(q.prioritized, Entry(score, id)))
    else q1.(wait := [id] + q.wait)
  }

  // ---------- the invariant ----------

  /** How often id occurs in a list, and in a sorted set. */
  ghost function Occ(s: seq<Id>, id: Id): nat {
    if s == [] then 0 else (if s[0] == id then 1 else 0) + Occ(s[1..], id)
  }

  ghost function ZOcc(z: seq<Entry>, id: Id): nat {
    if z == [] then 0 else (if z[0].member == id then 1 else 0) + ZOcc(z[1..], id)
  }

  /** How often id occurs in wait, prioritized, active and delayed together. */
  ghost function Count(q: State, id: Id): nat {
    Occ(q.wait, id) + ZOcc(q.prioritized, id) + Occ(q.active, id) + ZOcc(q.delayed, id)
  }

  predicate Persistent(q: State, id: Id) {
    id in q.jobs && q.jobs[id].expireAt.None?
  }

  ghost predicate Sorted(z: seq<Entry>) {
    forall i, j :: 0 <= i < j < |z| ==> EntryLess(z[i], z[j])
  }

  /** An id whose hash has no time to live is in exactly one live structure, once; any other id is in none. */
  ghost predicate LiveInv(q: State) {
    forall id :: Count(q, id) == if Persistent(q, id) then 1 else 0
  }

  /** The next counter values are unused. */
  ghost predicate FreshInv(q: State) {
    forall n: nat :: n > q.lastId ==> AutoId(n) !in q.jobs
  }

  ghost predicate SortedInv(q: State) {
    Sorted(q.prioritized) && Sorted(q.delayed)
  }

  ghost predicate Inv(q: State) {
    LiveInv(q) && FreshInv(q) && SortedInv(q)
  }

  /** A custom job id that no value the counter can take prints to. */
  ghost predicate NotNumeral(id: Id) {
    forall n: nat :: n > 0 ==> id != AutoId(n)
  }

  // ---------- runs ----------

  /** Everything that can happen to the queue in Redis; each step is atomic. */
  datatype Step =
    | Add(spec: AddSpec, addIO: EntryIO)
    | PopNext
    | Complete(id: Id)
    | Fail(id: Id, reason: string, opts: Opts, settleIO: SettleIO)
    | Promotion(id: Id, score: int)
    | Wait(ms: nat)

  /** Only popped jobs are settled, only delayed ones promoted, and custom job ids are not numerals. */
  ghost predicate Enabled(q: State, step: Step) {
    match step
    case Add(spec, _) => NotNumeral(spec.jobId)
    case PopNext => true
    case Complete(id) => id in q.active
    case Fail(id, _, _, _) => id in q.active
    case Promotion(id, _) => ZOcc(q.delayed, id) > 0
    case Wait(_) => true
  }

  function Apply(q: State, step: Step): State {
    match step
    case Add(spec, io) => AddEntry(q, spec, io).0
    case PopNext => Pop(q).0
    case Complete(id) => CompleteJob(q, id)
    case Fail(id, reason, opts, io) => FailJob(q, id, reason, opts, io)
    case Promotion(id, score) => Promote(q, id, score)
    case Wait(ms) => Tick(q, ms)
  }

  /** steps is a run from q to q'. */
  ghost predicate Run(q: State, steps: seq<Step>, q': State)
    decreases |steps|
  {
    if steps == [] then q' == q
    else Enabled(q, steps[0]) && Run(Apply(q, steps[0]), steps[1..], q')
  }
}
