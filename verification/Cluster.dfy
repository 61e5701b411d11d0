/**
  One queue shared by any number of workers, producers and the promoting scheduler. Who holds which job,
  which jobs are stranded in active, and how often each job has been popped.
 */
module Cluster {
  import opened Prelude
  import opened JobQueue
  import opened QueueInvariant
  import opened QueueRuns
  import opened WorkerPool
  import opened RedisQueue

  /**
    stranded, pops and limits are history: jobs left in active by a failed settle or read, pops of the
    current instance of each id, and how often that instance may be popped.
   */
  datatype System = System(q: State, pools: seq<Pool>, stranded: multiset<Id>, pops: map<Id, nat>, limits: map<Id, nat>)

  /** How processJob ends: it completes or fails the job, and the Redis calls for that may go wrong. */
  datatype Ending = CompleteWith(ok: bool) | FailWith(reason: string, io: SettleIO)

  datatype Action =
    | Produce(spec: AddSpec, io: EntryIO)
    | Scheduler(id: Id, score: int)
    | Clock(ms: nat)
    | Local(pool: nat, move: Move)
    | PopBy(pool: nat, popIO: PopIO)
    | End(pool: nat, task: nat, ending: Ending)

  ghost predicate CanDo(s: System, a: Action) {
    match a
    case Produce(spec, _) => NotNumeral(spec.jobId)
    case Scheduler(id, _) => ZOcc(s.q.delayed, id) > 0
    case Clock(_) => true
    case Local(p, m) => p < |s.pools| && !m.PollJob? && !m.Settle? && CanMove(s.pools[p], m)
    case PopBy(p, _) => p < |s.pools| && s.pools[p].loop.Polling?
    case End(p, i, _) => p < |s.pools| && CanMove(s.pools[p], Settle(i))
  }

  /** The queue step that ends a job, if Redis hears of it. */
  function EndStep(job: RawJob, ending: Ending): Option<Step> {
    match ending
    case CompleteWith(ok) => if ok then Some(Complete(job.id)) else None
    case FailWith(reason, io) => Some(Fail(job.id, reason, job.opts, io))
  }

  function ApplyAny(q: State, step: Option<Step>): State {
    if step.Some? then Apply(q, step.value) else q
  }

  predicate Strands(ending: Ending) {
    ending == CompleteWith(false) || (ending.FailWith? && ending.io != SettleOk)
  }

  /** One step of the whole system. */
  function Do(s: System, a: Action): System
    requires a.Local? ==> a.pool < |s.pools| && CanMove(s.pools[a.pool], a.move)
    requires a.PopBy? ==> a.pool < |s.pools| && s.pools[a.pool].loop.Polling?
    requires a.End? ==> a.pool < |s.pools| && CanMove(s.pools[a.pool], Settle(a.task))
  {
    match a
    case Produce(spec, io) =>
      var (q', outcome) := AddEntry(s.q, spec, io);
      if outcome.Added?
      then s.(q := q', pops := s.pops[outcome.id := 0], limits := s.limits[outcome.id := Tries(spec.opts)])
      else s.(q := q')
    case Scheduler(id, score) => s.(q := Promote(s.q, id, score))
    case Clock(ms) => s.(q := Tick(s.q, ms))
    case Local(p, m) => s.(pools := s.pools[p := Moved(s.pools[p], m)])
    case PopBy(p, io) => DoPop(s, p, io)
    case End(p, i, ending) => DoEnd(s, p, i, ending)
  }

  /** A poll of the queue: the queue after it, the id that the script moved, and the loop's next move. */
  function Poll(q: State, io: PopIO): (State, Option<Id>, Move) {
    var (q', popped) := Pop(q);
    if io == ScriptError || popped.None? then (q, None, PollNothing)
    else if io == ScriptLost || io == ReadError || GetJob(q, popped.value).None? then (q', popped, PollNothing)
    else (q', popped, PollJob(GetJob(q, popped.value).value))
  }

  function PopsOf(s: System, id: Id): nat {
    if id in s.pops then s.pops[id] else 0
  }

  /** A job that the script moved but the read did not deliver is stranded. */
  function DoPop(s: System, p: nat, io: PopIO): System
    requires p < |s.pools| && s.pools[p].loop.Polling?
  {
    var (q', popped, m) := Poll(s.q, io);
    System(q', s.pools[p := Moved(s.pools[p], m)],
           if popped.Some? && m.PollNothing? then s.stranded + multiset{popped.value} else s.stranded,
           if popped.Some? then s.pops[popped.value := PopsOf(s, popped.value) + 1] else s.pops,
           s.limits)
  }

  /** The end of processJob: whatever becomes of its Redis calls, the goroutine lets go of the job. */
  function DoEnd(s: System, p: nat, i: nat, ending: Ending): System
    requires p < |s.pools| && CanMove(s.pools[p], Settle(i))
  {
    var job := s.pools[p].tasks[i].job;
    System(ApplyAny(s.q, EndStep(job, ending)),
           s.pools[p := Moved(s.pools[p], Settle(i))],
           if Strands(ending) then s.stranded + multiset{job.id} else s.stranded,
           s.pops, s.limits)
  }

  ghost predicate SystemRun(s: System, actions: seq<Action>, s': System)
    decreases |actions|
  {
    if actions == [] then s' == s
    else CanDo(s, actions[0]) && SystemRun(Do(s, actions[0]), actions[1..], s')
  }

  /** Any number of workers, of any positive capacities, on an empty queue. */
  ghost predicate Initial(s: System) {
    && s.q == EMPTY && s.stranded == multiset{} && s.pops == map[] && s.limits == map[]
    && forall p :: 0 <= p < |s.pools| ==> s.pools[p].capacity > 0 && s.pools[p] == Started(s.pools[p].capacity)
  }

  // ---------- ownership ----------

  function HeldByAll(pools: seq<Pool>, id: Id): nat {
    if pools == [] then 0 else Held(pools[0], id) + HeldByAll(pools[1..], id)
  }

  lemma {:induction false} HeldByAllUpdate(pools: seq<Pool>, p: nat, pool: Pool, id: Id)
    requires p < |pools|
    ensures HeldByAll(pools[p := pool], id) + Held(pools[p], id) == HeldByAll(pools, id) + Held(pool, id)
  {
    if p == 0 {
    } else {
      HeldByAllUpdate(pools[1..], p - 1, pool, id);
      assert pools[p := pool][1..] == pools[1..][p - 1 := pool];
    }
  }

  lemma {:induction false} HeldByOne(pools: seq<Pool>, p: nat, id: Id)
    requires p < |pools|
    ensures Held(pools[p], id) <= HeldByAll(pools, id)
  {
    if p == 0 {
    } else {
      HeldByOne(pools[1..], p - 1, id);
    }
  }

  /** As often as id is active it is held by a worker or stranded. */
  ghost predicate OwnedId(s: System, id: Id) {
    Occ(s.q.active, id) == HeldByAll(s.pools, id) + s.stranded[id]
  }

  /** The jobs held by a pool. */
  predicate Holds(p: Pool, job: RawJob) {
    ((p.loop.Holding? || p.loop.Tokened? || p.loop.Counted?) && p.loop.job == job) || Running(job) in p.tasks
  }

  lemma {:induction false} RunningTallied(tasks: seq<Task>, i: nat, f: Task -> nat)
    requires i < |tasks|
    ensures f(tasks[i]) <= Tally(tasks, f)
  {
    if i == 0 {
    } else {
      RunningTallied(tasks[1..], i - 1, f);
    }
  }

  lemma HoldsCounts(p: Pool, job: RawJob)
    requires Holds(p, job)
    ensures Held(p, job.id) >= 1
  {
    if Running(job) in p.tasks {
      var i :| 0 <= i < |p.tasks| && p.tasks[i] == Running(job);
      RunningTallied(p.tasks, i, HoldsId(job.id));
    }
  }

  /** The job is what its hash says. */
  predicate AsStored(q: State, job: RawJob) {
    && job.id in q.jobs && job.name == q.jobs[job.id].name && job.data == q.jobs[job.id].data
    && job.opts == q.jobs[job.id].opts && job.attemptsMade == q.jobs[job.id].attemptsMade
  }

  /** Workers hold their jobs as they are stored. */
  ghost predicate HeldAsStored(s: System) {
    forall p, job :: 0 <= p < |s.pools| && Holds(s.pools[p], job) ==> AsStored(s.q, job)
  }

  ghost predicate PoolsOk(s: System) {
    forall p :: 0 <= p < |s.pools| ==> PoolInv(s.pools[p])
  }

  /** A job that is not active has used as many attempts as it was popped; a held one is using one more. */
  ghost predicate BudgetId(s: System, id: Id) {
    && (id in s.pops ==> id in s.limits && s.pops[id] <= s.limits[id])
    && (Persistent(s.q, id) ==>
          && id in s.pops && s.limits[id] == Tries(s.q.jobs[id].opts)
          && (Occ(s.q.active, id) == 0 ==> s.pops[id] == s.q.jobs[id].attemptsMade < s.limits[id])
          && (HeldByAll(s.pools, id) > 0 ==> s.pops[id] == s.q.jobs[id].attemptsMade + 1))
  }

  ghost predicate SystemInv(s: System) {
    && Inv(s.q) && PoolsOk(s) && HeldAsStored(s)
    && (forall id :: OwnedId(s, id))
    && (forall id :: BudgetId(s, id))
  }

  lemma InitialInv(s: System)
    requires Initial(s)
    ensures SystemInv(s)
  {
    EmptyInv();
    forall id ensures OwnedId(s, id) && BudgetId(s, id) { NoneHeld(s.pools, id); }
  }

  lemma {:induction false} NoneHeld(pools: seq<Pool>, id: Id)
    requires forall p :: 0 <= p < |pools| ==>
      && !pools[p].loop.Holding? && !pools[p].loop.Tokened? && !pools[p].loop.Counted?
      && forall t :: t in pools[p].tasks ==> !t.Running?
    ensures HeldByAll(pools, id) == 0
  {
    if pools == [] {
    } else {
      TallyZero(pools[0].tasks, HoldsId(id));
      NoneHeld(pools[1..], id);
    }
  }

  // ---------- every action keeps the invariant ----------

  lemma HoldsMoved(p: Pool, m: Move, job: RawJob)
    requires CanMove(p, m) && Holds(Moved(p, m), job)
    ensures Holds(p, job) || m == PollJob(job)
  {
    var p' := Moved(p, m);
    if Running(job) in p'.tasks {
      var i :| 0 <= i < |p'.tasks| && p'.tasks[i] == Running(job);
      match m
      case FreeToken(k) => assert p'.tasks[i] == if i < k then p.tasks[i] else p.tasks[i + 1];
      case Spawn => if i < |p.tasks| { assert p.tasks[i] == Running(job); }
      case Settle(k) => assert p.tasks[i] == Running(job);
      case DoneWg(k) => assert p.tasks[i] == Running(job);
      case _ => assert p.tasks[i] == Running(job);
    }
  }

  /** What a held job implies: it is active and its hash lasts. */
  lemma HeldFacts(s: System, p: nat, job: RawJob)
    requires Inv(s.q) && OwnedId(s, job.id) && p < |s.pools| && Holds(s.pools[p], job)
    ensures job.id in s.q.active && Persistent(s.q, job.id)
    ensures HeldByAll(s.pools, job.id) == 1 && Held(s.pools[p], job.id) == 1 && s.stranded[job.id] == 0
  {
    HoldsCounts(s.pools[p], job);
    HeldByOne(s.pools, p, job.id);
    OccIn(s.q.active, job.id);
    ActiveFacts(s.q, job.id);
  }

  /** The queue step inside an action. */
  function QueueStep(s: System, a: Action): Option<Step>
    requires a.End? ==> a.pool < |s.pools| && CanMove(s.pools[a.pool], Settle(a.task))
  {
    match a
    case Produce(spec, io) => Some(Add(spec, io))
    case Scheduler(id, score) => Some(Promotion(id, score))
    case Clock(ms) => Some(Wait(ms))
    case Local(_, _) => None
    case PopBy(_, io) => if io == ScriptError || Pop(s.q).1.None? then None else Some(PopNext)
    case End(p, i, ending) => EndStep(s.pools[p].tasks[i].job, ending)
  }

  lemma EndedFacts(s: System, p: nat, i: nat)
    requires Inv(s.q) && p < |s.pools| && CanMove(s.pools[p], Settle(i)) && OwnedId(s, s.pools[p].tasks[i].job.id)
    ensures var job := s.pools[p].tasks[i].job;
      && Holds(s.pools[p], job) && job.id in s.q.active && Persistent(s.q, job.id)
      && Occ(s.q.active, job.id) == HeldByAll(s.pools, job.id) == 1
  {
    var job := s.pools[p].tasks[i].job;
    HeldFacts(s, p, job);
    ActiveFacts(s.q, job.id);
  }

  lemma DoKeepsQueue(s: System, a: Action)
    requires SystemInv(s) && CanDo(s, a)
    ensures Do(s, a).q == ApplyAny(s.q, QueueStep(s, a)) && Inv(Do(s, a).q)
    ensures QueueStep(s, a).Some? ==> Enabled(s.q, QueueStep(s, a).value)
  {
    if a.End? {
      assert OwnedId(s, s.pools[a.pool].tasks[a.task].job.id);
      EndedFacts(s, a.pool, a.task);
    }
    if QueueStep(s, a).Some? { StepKeeps(s.q, QueueStep(s, a).value); }
  }

  lemma DoKeepsPools(s: System, a: Action)
    requires PoolsOk(s) && CanDo(s, a)
    ensures PoolsOk(Do(s, a))
  {
    match a
    case Local(p, m) => MoveKeeps(s.pools[p], m);
    case PopBy(p, io) =>
      MoveKeeps(s.pools[p], Poll(s.q, io).2);
    case End(p, i, _) => MoveKeeps(s.pools[p], Settle(i));
    case _ =>
  }

  /** What an action does to the number of holders of x: its pool makes one move. */
  lemma HeldAfter(s: System, p: nat, m: Move, x: Id)
    requires p < |s.pools| && CanMove(s.pools[p], m)
    ensures HeldByAll(s.pools[p := Moved(s.pools[p], m)], x) == HeldByAll(s.pools, x)
      + (if m.PollJob? && m.job.id == x then 1 else 0)
      - (if m.Settle? && s.pools[p].tasks[m.i].job.id == x then 1 else 0)
  {
    HeldByAllUpdate(s.pools, p, Moved(s.pools[p], m), x);
    HeldMoved(s.pools[p], m, x);
  }

  lemma PollFacts(q: State, io: PopIO, x: Id)
    requires Inv(q)
    ensures var (q', popped, m) := Poll(q, io);
      && Occ(q'.active, x) == Occ(q.active, x) + (if popped == Some(x) then 1 else 0)
      && (popped.Some? ==> Persistent(q, popped.value) && Occ(q.active, popped.value) == 0)
      && (if m.PollJob? then popped == Some(m.job.id) && AsStored(q, m.job) else m.PollNothing?)
      && q'.jobs == q.jobs
  {
    PopKeeps(q);
  }

  lemma PopOwns(s: System, p: nat, io: PopIO, x: Id)
    requires Inv(s.q) && OwnedId(s, x) && p < |s.pools| && s.pools[p].loop.Polling?
    ensures OwnedId(DoPop(s, p, io), x)
  {
    PollFacts(s.q, io, x);
    HeldAfter(s, p, Poll(s.q, io).2, x);
  }

  /** A settle takes the job out of active exactly when it does not strand it. */
  lemma EndActive(q: State, job: RawJob, ending: Ending, x: Id)
    requires Occ(q.active, job.id) == 1
    ensures Occ(ApplyAny(q, EndStep(job, ending)).active, x)
      == if x == job.id && !Strands(ending) then 0 else Occ(q.active, x)
  {
    OccLRem(q.active, job.id, x);
    match ending
    case CompleteWith(_) =>
    case FailWith(reason, io) =>
      match io
      case SettleOk => assert ApplyAny(q, EndStep(job, ending))
          == Refile(CountAttempt(q, job.id), job.id, reason, job.opts);
      case SettleError =>
      case CountedThenError =>
  }

  lemma EndOwns(s: System, p: nat, i: nat, ending: Ending, x: Id)
    requires p < |s.pools| && CanMove(s.pools[p], Settle(i)) && OwnedId(s, x)
    requires var id := s.pools[p].tasks[i].job.id;
      OwnedId(s, id) && Occ(s.q.active, id) == HeldByAll(s.pools, id) == 1
    ensures OwnedId(DoEnd(s, p, i, ending), x)
  {
    HeldAfter(s, p, Settle(i), x);
    EndActive(s.q, s.pools[p].tasks[i].job, ending, x);
  }

  lemma DoOwns(s: System, a: Action, x: Id)
    requires SystemInv(s) && CanDo(s, a)
    ensures OwnedId(Do(s, a), x)
  {
    assert OwnedId(s, x);
    match a
    case Produce(spec, io) => AddEntryFrame(s.q, spec, io);
    case Local(p, m) => HeldAfter(s, p, m, x);
    case PopBy(p, io) => PopOwns(s, p, io, x);
    case End(p, i, ending) =>
      EndedFacts(s, p, i);
      EndOwns(s, p, i, ending, x);
    case _ =>
  }

  /** A job that a worker still holds is not the one that the action ends. */
  lemma StillHeld(s: System, a: Action, p: nat, job: RawJob)
    requires SystemInv(s) && CanDo(s, a) && p < |s.pools| && Holds(s.pools[p], job)
    requires p < |Do(s, a).pools| && Holds(Do(s, a).pools[p], job)
    ensures AsStored(Do(s, a).q, job)
  {
    var step := QueueStep(s, a);
    DoKeepsQueue(s, a);
    assert OwnedId(s, job.id);
    HeldFacts(s, p, job);
    if a.End? && s.pools[a.pool].tasks[a.task].job.id == job.id {
      HeldAfter(s, a.pool, Settle(a.task), job.id);
      HoldsCounts(Do(s, a).pools[p], job);
      HeldByOne(Do(s, a).pools, p, job.id);
      assert false;
    }
    if step.Some? { HashKept(s.q, step.value, job.id); }
  }

  lemma DoKeepsHeld(s: System, a: Action)
    requires SystemInv(s) && CanDo(s, a)
    ensures HeldAsStored(Do(s, a))
  {
    var s' := Do(s, a);
    DoKeepsQueue(s, a);
    forall p, job | 0 <= p < |s'.pools| && Holds(s'.pools[p], job)
      ensures AsStored(s'.q, job)
    {
      assert OwnedId(s, job.id);
      if Holds(s.pools[p], job) {
        StillHeld(s, a, p, job);
      } else {
        NewlyHeld(s, a, p, job);
      }
    }
  }

  lemma NewlyHeld(s: System, a: Action, p: nat, job: RawJob)
    requires SystemInv(s) && CanDo(s, a) && p < |s.pools| && !Holds(s.pools[p], job) && Holds(Do(s, a).pools[p], job)
    ensures AsStored(Do(s, a).q, job)
  {
    match a
    case Local(_, m) => HoldsMoved(s.pools[p], m, job);
    case End(_, i, _) => HoldsMoved(s.pools[p], Settle(i), job);
    case PopBy(_, io) =>
      PollFacts(s.q, io, job.id);
      HoldsMoved(s.pools[p], Poll(s.q, io).2, job);
    case _ =>
  }

  // ---------- attempts ----------

  lemma PopBudgets(s: System, p: nat, io: PopIO, x: Id)
    requires Inv(s.q) && OwnedId(s, x) && BudgetId(s, x) && p < |s.pools| && s.pools[p].loop.Polling?
    ensures BudgetId(DoPop(s, p, io), x)
  {
    PollFacts(s.q, io, x);
    HeldAfter(s, p, Poll(s.q, io).2, x);
  }

  /** Ending one job leaves the hashes and the places of the others alone. */
  lemma EndFrame(q: State, job: RawJob, ending: Ending, x: Id)
    requires x != job.id && Occ(q.active, job.id) == 1
    ensures var q' := ApplyAny(q, EndStep(job, ending));
      && (x in q'.jobs <==> x in q.jobs) && (x in q.jobs ==> q'.jobs[x] == q.jobs[x])
      && Occ(q'.active, x) == Occ(q.active, x)
  {
    EndActive(q, job, ending, x);
    match ending
    case CompleteWith(_) =>
    case FailWith(reason, io) =>
      match io
      case SettleOk => assert ApplyAny(q, EndStep(job, ending))
          == Refile(CountAttempt(q, job.id), job.id, reason, job.opts);
      case SettleError =>
      case CountedThenError =>
  }

  lemma EndBudgetsOther(s: System, p: nat, i: nat, ending: Ending, x: Id)
    requires p < |s.pools| && CanMove(s.pools[p], Settle(i)) && BudgetId(s, x) && s.pools[p].tasks[i].job.id != x
    requires Occ(s.q.active, s.pools[p].tasks[i].job.id) == 1
    ensures BudgetId(DoEnd(s, p, i, ending), x)
  {
    HeldAfter(s, p, Settle(i), x);
    EndFrame(s.q, s.pools[p].tasks[i].job, ending, x);
  }

  lemma EndBudgets(s: System, p: nat, i: nat, ending: Ending, x: Id)
    requires p < |s.pools| && CanMove(s.pools[p], Settle(i)) && BudgetId(s, x)
    requires var job := s.pools[p].tasks[i].job;
      && Persistent(s.q, job.id) && job.opts == s.q.jobs[job.id].opts
      && Occ(s.q.active, job.id) == HeldByAll(s.pools, job.id) == 1
    ensures BudgetId(DoEnd(s, p, i, ending), x)
  {
    var job := s.pools[p].tasks[i].job;
    if job.id == x {
      HeldAfter(s, p, Settle(i), x);
      EndActive(s.q, job, ending, x);
    } else {
      EndBudgetsOther(s, p, i, ending, x);
    }
  }

  lemma ProduceBudgets(s: System, spec: AddSpec, io: EntryIO, x: Id)
    requires Inv(s.q) && NotNumeral(spec.jobId) && OwnedId(s, x) && BudgetId(s, x)
    ensures BudgetId(Do(s, Produce(spec, io)), x)
  {
    AddEntryFrame(s.q, spec, io);
    AddEntryKeeps(s.q, spec, io);
    if AddEntry(s.q, spec, io).1 == Added(x) {
      AddedHash(s.q, spec, io);
      assert Count(s.q, x) == 0;
    }
  }

  lemma EndedAsStored(s: System, p: nat, i: nat)
    requires SystemInv(s) && p < |s.pools| && CanMove(s.pools[p], Settle(i))
    ensures var job := s.pools[p].tasks[i].job;
      && Persistent(s.q, job.id) && AsStored(s.q, job) && job.id in s.q.active
      && Occ(s.q.active, job.id) == HeldByAll(s.pools, job.id) == 1
  {
    assert OwnedId(s, s.pools[p].tasks[i].job.id);
    EndedFacts(s, p, i);
  }

  lemma DoBudgets(s: System, a: Action, x: Id)
    requires SystemInv(s) && CanDo(s, a)
    ensures BudgetId(Do(s, a), x)
  {
    assert BudgetId(s, x);
    match a
    case Produce(spec, io) => assert OwnedId(s, x); ProduceBudgets(s, spec, io, x);
    case Local(p, m) => HeldAfter(s, p, m, x);
    case PopBy(p, io) => assert OwnedId(s, x); PopBudgets(s, p, io, x);
    case End(p, i, ending) => EndedAsStored(s, p, i); EndBudgets(s, p, i, ending, x);
    case Scheduler(_, _) =>
    case Clock(_) =>
  }

  lemma DoKeeps(s: System, a: Action)
    requires SystemInv(s) && CanDo(s, a)
    ensures SystemInv(Do(s, a))
  {
    DoKeepsQueue(s, a);
    DoKeepsPools(s, a);
    DoKeepsHeld(s, a);
    forall x ensures OwnedId(Do(s, a), x) { DoOwns(s, a, x); }
    forall x ensures BudgetId(Do(s, a), x) { DoBudgets(s, a, x); }
  }

  lemma {:induction false} SystemRunKeeps(s: System, actions: seq<Action>, s': System)
    requires SystemInv(s) && SystemRun(s, actions, s')
    ensures SystemInv(s')
    decreases |actions|
  {
    if actions == [] {
    } else {
      DoKeeps(s, actions[0]);
      SystemRunKeeps(Do(s, actions[0]), actions[1..], s');
    }
  }

  // ---------- a cluster runs its queue ----------

  /** The queue of a cluster goes through a run of its own: what is proved of all runs of the queue is true of it. */
  lemma {:induction false} SystemRuns(s: System, actions: seq<Action>, s': System) returns (steps: seq<Step>)
    requires SystemInv(s) && SystemRun(s, actions, s')
    ensures Run(s.q, steps, s'.q)
    decreases |actions|
  {
    if actions == [] {
      steps := [];
    } else {
      var step := QueueStep(s, actions[0]);
      DoKeepsQueue(s, actions[0]);
      DoKeeps(s, actions[0]);
      var rest := SystemRuns(Do(s, actions[0]), actions[1..], s');
      if step.Some? {
        steps := [step.value] + rest;
        assert steps[1..] == rest;
      } else {
        steps := rest;
      }
    }
  }

  /** So no cluster ever holds a live job twice, or a live job without its lasting hash. */
  lemma ClusterLiveDisjoint(s: System, actions: seq<Action>, s': System)
    requires Initial(s) && SystemRun(s, actions, s')
    ensures var q := s'.q; var all := q.wait + Members(q.prioritized) + q.active + Members(q.delayed);
      NoDup(all) && forall id :: id in all <==> Persistent(q, id)
  {
    InitialInv(s);
    var steps := SystemRuns(s, actions, s');
    LiveDisjoint(steps, s'.q);
  }

  // ---------- results ----------

  /**
    No run makes two workers, or one worker twice, hold the same job; a held job is active, and what is active but not
    held is stranded.
   */
  lemma ExclusiveOwnership(s: System, actions: seq<Action>, s': System, id: Id)
    requires Initial(s) && SystemRun(s, actions, s')
    ensures HeldByAll(s'.pools, id) + s'.stranded[id] == if id in s'.q.active then 1 else 0
  {
    InitialInv(s);
    SystemRunKeeps(s, actions, s');
    assert OwnedId(s', id);
    OccIn(s'.q.active, id);
    if id in s'.q.active { ActiveFacts(s'.q, id); }
  }

  /** Two workers never process the same id, and no two goroutines of one worker do. */
  lemma OneHolder(s: System, actions: seq<Action>, s': System, p1: nat, p2: nat, job1: RawJob, job2: RawJob)
    requires Initial(s) && SystemRun(s, actions, s')
    requires p1 < |s'.pools| && p2 < |s'.pools| && Holds(s'.pools[p1], job1) && Holds(s'.pools[p2], job2)
    requires job1.id == job2.id
    ensures p1 == p2 && Held(s'.pools[p1], job1.id) == 1
  {
    ExclusiveOwnership(s, actions, s', job1.id);
    HoldsCounts(s'.pools[p1], job1);
    HoldsCounts(s'.pools[p2], job2);
    HeldByOne(s'.pools, p1, job1.id);
    if p1 != p2 { HeldByTwo(s'.pools, Min(p1, p2), Max(p1, p2), job1.id); }
  }

  lemma {:induction false} HeldByTwo(pools: seq<Pool>, p1: nat, p2: nat, id: Id)
    requires p1 < p2 < |pools|
    ensures Held(pools[p1], id) + Held(pools[p2], id) <= HeldByAll(pools, id)
  {
    if p1 == 0 { HeldByOne(pools[1..], p2 - 1, id); } else { HeldByTwo(pools[1..], p1 - 1, p2 - 1, id); }
  }

  /** Every instance of a job is popped at most max(1, Attempts) times, whatever fails. */
  lemma AttemptBound(s: System, actions: seq<Action>, s': System, id: Id)
    requires Initial(s) && SystemRun(s, actions, s')
    ensures id in s'.pops ==> id in s'.limits && s'.pops[id] <= s'.limits[id]
    ensures Persistent(s'.q, id) ==> id in s'.pops && s'.pops[id] <= Tries(s'.q.jobs[id].opts)
  {
    InitialInv(s);
    SystemRunKeeps(s, actions, s');
    assert BudgetId(s', id);
  }

  /** A stranded job stays active for ever, and its id is refused to every later producer. */
  lemma {:induction false} StrandedForEver(s: System, actions: seq<Action>, s': System, id: Id, spec: AddSpec)
    requires SystemInv(s) && SystemRun(s, actions, s') && s.stranded[id] > 0
    requires spec.jobId == id && id != NO_ID
    ensures id in s'.q.active && AddEntry(s'.q, spec, IoOk) == (s'.q, Skipped)
    decreases |actions|
  {
    if actions == [] {
      assert OwnedId(s, id);
      OccIn(s.q.active, id);
      ActiveFacts(s.q, id);
    } else {
      DoKeeps(s, actions[0]);
      StrandedForEver(Do(s, actions[0]), actions[1..], s', id, spec);
    }
  }

  /** When Wait has returned for every worker, the jobs still in active are exactly the stranded ones. */
  lemma ShutdownLeavesOnlyStranded(s: System, actions: seq<Action>, s': System, id: Id)
    requires Initial(s) && SystemRun(s, actions, s')
    requires forall p :: 0 <= p < |s'.pools| ==> s'.pools[p].wg == 0
    ensures id in s'.q.active <==> s'.stranded[id] > 0
  {
    InitialInv(s);
    SystemRunKeeps(s, actions, s');
    ExclusiveOwnership(s, actions, s', id);
    NoneHeld(s'.pools, id);
  }

  // ---------- settling under a cancelled context ----------

  /** The workers settle with their own context: once it is cancelled, no settle of that worker goes through. */
  predicate ContextBound(s: System, a: Action) {
    a.End? && a.pool < |s.pools| && s.pools[a.pool].cancelled ==> Strands(a.ending)
  }

  ghost predicate ContextBoundRun(s: System, actions: seq<Action>)
    decreases |actions|
  {
    actions == []
    || (CanDo(s, actions[0]) && ContextBound(s, actions[0]) && ContextBoundRun(Do(s, actions[0]), actions[1..]))
  }

  lemma StillHeldOrStranded(s: System, a: Action, p: nat, id: Id)
    requires CanDo(s, a) && ContextBound(s, a) && p < |s.pools| && s.pools[p].cancelled
    requires Held(s.pools[p], id) > 0 || s.stranded[id] > 0
    ensures p < |Do(s, a).pools| && Do(s, a).pools[p].cancelled
    ensures Held(Do(s, a).pools[p], id) > 0 || Do(s, a).stranded[id] > 0
  {
    match a
    case Local(_, m) => if a.pool == p { HeldMoved(s.pools[p], m, id); }
    case PopBy(_, io) => if a.pool == p { HeldMoved(s.pools[p], Poll(s.q, io).2, id); }
    case End(_, i, _) => if a.pool == p { HeldMoved(s.pools[p], Settle(i), id); }
    case _ =>
  }

  /**
    Then the drain finishes the work but not the bookkeeping: a job held when its worker is cancelled ends up stranded.
   */
  lemma {:induction false} DrainStrands(s: System, actions: seq<Action>, s': System, p: nat, id: Id)
    requires SystemRun(s, actions, s') && ContextBoundRun(s, actions)
    requires p < |s.pools| && s.pools[p].cancelled && (Held(s.pools[p], id) > 0 || s.stranded[id] > 0)
    ensures p < |s'.pools|
    ensures s'.pools[p].tasks == [] && s'.pools[p].loop.Returned? ==> s'.stranded[id] > 0
    decreases |actions|
  {
    if actions == [] {
    } else {
      StillHeldOrStranded(s, actions[0], p, id);
      DrainStrands(Do(s, actions[0]), actions[1..], s', p, id);
    }
  }
}
