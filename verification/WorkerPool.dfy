/**
  The protocol of one Worker: its poll loop, the semaphore channel, the WaitGroup and the goroutines that
  process jobs. Every channel or WaitGroup operation is one step; goroutines interleave in any way.
 */
module WorkerPool {
  import opened JobQueue

  /**
    Where run() is: before the select, before PopJob, then with a popped job before each of its three operations, or
    draining.
   */
  datatype Loop =
    | Selecting
    | Polling
    | Holding(job: RawJob)
    | Tokened(job: RawJob)
    | Counted(job: RawJob)
    | Draining(filled: nat)
    | Returned

  /** Where a goroutine is: in processJob, before its deferred wg.Done, or before its deferred token release. */
  datatype Task = Running(job: RawJob) | Settled | Uncounted

  /**
    capacity (4 for content fetches, 2 for the backend queue) and tokens are those of the sem channel, wg is the
    WaitGroup's counter.
   */
  datatype Pool = Pool(capacity: nat, tokens: nat, wg: int, loop: Loop, tasks: seq<Task>, cancelled: bool)

  /** Start() has run: wg.Add(1), then the loop. */
  function Started(capacity: nat): Pool {
    Pool(capacity, 0, 1, Selecting, [], false)
  }

  datatype Move =
    | Cancel
    | Select
    | PollNothing
    | PollJob(job: RawJob)
    | SendToken
    | AddWg
    | Spawn
    | Settle(i: nat)
    | DoneWg(i: nat)
    | FreeToken(i: nat)
    | SendDrain
    | Finish

  predicate CanMove(p: Pool, m: Move) {
    match m
    case Cancel => !p.cancelled
    case Select => p.loop.Selecting?
    case PollNothing => p.loop.Polling?
    case PollJob(_) => p.loop.Polling?
    case SendToken => p.loop.Holding? && p.tokens < p.capacity
    case AddWg => p.loop.Tokened?
    case Spawn => p.loop.Counted?
    case Settle(i) => i < |p.tasks| && p.tasks[i].Running?
    case DoneWg(i) => i < |p.tasks| && p.tasks[i].Settled?
    case FreeToken(i) => i < |p.tasks| && p.tasks[i].Uncounted? && p.tokens > 0
    case SendDrain => p.loop.Draining? && p.loop.filled < p.capacity && p.tokens < p.capacity
    case Finish => p.loop.Draining? && p.loop.filled >= p.capacity
  }

  function Moved(p: Pool, m: Move): Pool
    requires CanMove(p, m)
  {
    match m
    case Cancel => p.(cancelled := true)
    case Select => p.(loop := if p.cancelled then Draining(0) else Polling)
    case PollNothing => p.(loop := Selecting)
    case PollJob(job) => p.(loop := Holding(job))
    case SendToken => p.(loop := Tokened(p.loop.job), tokens := p.tokens + 1)
    case AddWg => p.(loop := Counted(p.loop.job), wg := p.wg + 1)
    case Spawn => p.(loop := Selecting, tasks := p.tasks + [Running(p.loop.job)])
    case Settle(i) => p.(tasks := p.tasks[i := Settled])
    case DoneWg(i) => p.(tasks := p.tasks[i := Uncounted], wg := p.wg - 1)
    case FreeToken(i) => p.(tasks := p.tasks[..i] + p.tasks[i + 1..], tokens := p.tokens - 1)
    case SendDrain => p.(loop := Draining(p.loop.filled + 1), tokens := p.tokens + 1)
    case Finish => p.(loop := Returned, wg := p.wg - 1)
  }

  // ---------- tallies over the goroutines ----------

  function Tally(tasks: seq<Task>, f: Task -> nat): nat {
    if tasks == [] then 0 else f(tasks[0]) + Tally(tasks[1..], f)
  }

  lemma {:induction false} TallySnoc(tasks: seq<Task>, t: Task, f: Task -> nat)
    ensures Tally(tasks + [t], f) == Tally(tasks, f) + f(t)
  {
    if tasks == [] {
    } else {
      TallySnoc(tasks[1..], t, f);
      assert (tasks + [t])[1..] == tasks[1..] + [t];
    }
  }

  lemma {:induction false} TallyUpdate(tasks: seq<Task>, i: nat, t: Task, f: Task -> nat)
    requires i < |tasks|
    ensures Tally(tasks[i := t], f) + f(tasks[i]) == Tally(tasks, f) + f(t)
  {
    if i == 0 {
    } else {
      TallyUpdate(tasks[1..], i - 1, t, f);
      assert tasks[i := t][1..] == tasks[1..][i - 1 := t];
    }
  }

  lemma {:induction false} TallyRemove(tasks: seq<Task>, i: nat, f: Task -> nat)
    requires i < |tasks|
    ensures Tally(tasks[..i] + tasks[i + 1..], f) + f(tasks[i]) == Tally(tasks, f)
  {
    if i == 0 {
      assert tasks[..0] + tasks[1..] == tasks[1..];
    } else {
      TallyRemove(tasks[1..], i - 1, f);
      assert (tasks[..i] + tasks[i + 1..])[1..] == tasks[1..][..i - 1] + tasks[1..][i..];
    }
  }

  /** What a move does to any tally: at most one goroutine changes, appears or ends. */
  lemma TallyMoved(p: Pool, m: Move, f: Task -> nat)
    requires CanMove(p, m)
    ensures Tally(Moved(p, m).tasks, f) == Tally(p.tasks, f) +
      match m
      case Spawn => f(Running(p.loop.job))
      case Settle(i) => f(Settled) - f(p.tasks[i])
      case DoneWg(i) => f(Uncounted) - f(p.tasks[i])
      case FreeToken(i) => 0 - f(p.tasks[i])
      case _ => 0
  {
    match m
    case Spawn => TallySnoc(p.tasks, Running(p.loop.job), f);
    case Settle(i) => TallyUpdate(p.tasks, i, Settled, f);
    case DoneWg(i) => TallyUpdate(p.tasks, i, Uncounted, f);
    case FreeToken(i) => TallyRemove(p.tasks, i, f);
    case _ =>
  }

  // ---------- the invariant ----------

  function Owes(t: Task): nat {
    if t.Uncounted? then 0 else 1
  }

  function LoopTokens(p: Pool): nat {
    match p.loop
    case Tokened(_) => 1
    case Counted(_) => 1
    case Draining(filled) => filled
    case Returned => p.capacity
    case _ => 0
  }

  /**
    Tokens in the channel are the goroutines' and the loop's; the WaitGroup counts the loop and the goroutines that owe
    a Done.
   */
  predicate PoolInv(p: Pool) {
    && p.tokens == |p.tasks| + LoopTokens(p) <= p.capacity
    && p.wg == (if p.loop.Returned? then 0 else 1) + (if p.loop.Counted? then 1 else 0) + Tally(p.tasks, Owes)
    && (p.loop.Draining? || p.loop.Returned? ==> p.cancelled)
    && p.capacity > 0
  }

  lemma StartedInv(capacity: nat)
    requires capacity > 0
    ensures PoolInv(Started(capacity))
  {}

  lemma MoveKeeps(p: Pool, m: Move)
    requires PoolInv(p) && CanMove(p, m)
    ensures PoolInv(Moved(p, m))
  {
    TallyMoved(p, m, Owes);
  }

  ghost predicate PoolRun(p: Pool, moves: seq<Move>, p': Pool)
    decreases |moves|
  {
    if moves == [] then p' == p
    else CanMove(p, moves[0]) && PoolRun(Moved(p, moves[0]), moves[1..], p')
  }

  lemma {:induction false} PoolRunKeeps(p: Pool, moves: seq<Move>, p': Pool)
    requires PoolInv(p) && PoolRun(p, moves, p')
    ensures PoolInv(p') && p'.capacity == p.capacity
    decreases |moves|
  {
    if moves == [] {
    } else {
      MoveKeeps(p, moves[0]);
      PoolRunKeeps(Moved(p, moves[0]), moves[1..], p');
    }
  }

  function IsRunning(t: Task): nat {
    if t.Running? then 1 else 0
  }

  lemma {:induction false} TallyAtMost(tasks: seq<Task>, f: Task -> nat)
    requires forall t :: f(t) <= 1
    ensures Tally(tasks, f) <= |tasks|
  {
    if tasks == [] {
    } else {
      TallyAtMost(tasks[1..], f);
    }
  }

  /**
    At most `capacity` calls of processJob run at once, the WaitGroup never goes negative, and no release of a token
    ever blocks.
   */
  lemma BoundedConcurrency(capacity: nat, moves: seq<Move>, p: Pool)
    requires capacity > 0 && PoolRun(Started(capacity), moves, p)
    ensures Tally(p.tasks, IsRunning) <= capacity
    ensures p.wg >= 0
    ensures forall i :: 0 <= i < |p.tasks| && p.tasks[i].Uncounted? ==> CanMove(p, FreeToken(i))
  {
    StartedInv(capacity);
    PoolRunKeeps(Started(capacity), moves, p);
    TallyAtMost(p.tasks, IsRunning);
  }

  // ---------- nothing popped is dropped ----------

  function HoldsId(id: Id): Task -> nat {
    (t: Task) => if t.Running? && t.job.id == id then 1 else 0
  }

  /** How often the pool holds id, in the loop or in a goroutine that is still processing. */
  function Held(p: Pool, id: Id): nat {
    (if (p.loop.Holding? || p.loop.Tokened? || p.loop.Counted?) && p.loop.job.id == id then 1 else 0)
    + Tally(p.tasks, HoldsId(id))
  }

  /** Only a poll brings a job into the pool, and only the end of processJob takes it out. */
  lemma HeldMoved(p: Pool, m: Move, id: Id)
    requires CanMove(p, m)
    ensures Held(Moved(p, m), id) == Held(p, id)
      + (if m.PollJob? && m.job.id == id then 1 else 0)
      - (if m.Settle? && p.tasks[m.i].job.id == id then 1 else 0)
  {
    TallyMoved(p, m, HoldsId(id));
  }

  ghost function PolledIn(moves: seq<Move>, id: Id): nat {
    if moves == [] then 0
    else (if moves[0].PollJob? && moves[0].job.id == id then 1 else 0) + PolledIn(moves[1..], id)
  }

  ghost function SettledIn(p: Pool, moves: seq<Move>, id: Id): nat
    decreases |moves|
  {
    if moves == [] || !CanMove(p, moves[0]) then 0
    else
      (if moves[0].Settle? && p.tasks[moves[0].i].job.id == id then 1 else 0)
      + SettledIn(Moved(p, moves[0]), moves[1..], id)
  }

  lemma {:induction false} HeldAfterRun(p: Pool, moves: seq<Move>, p': Pool, id: Id)
    requires PoolRun(p, moves, p')
    ensures Held(p, id) + PolledIn(moves, id) == Held(p', id) + SettledIn(p, moves, id)
    decreases |moves|
  {
    if moves == [] {
    } else {
      HeldMoved(p, moves[0], id);
      HeldAfterRun(Moved(p, moves[0]), moves[1..], p', id);
    }
  }

  lemma {:induction false} TallyZero(tasks: seq<Task>, f: Task -> nat)
    requires forall t :: t in tasks ==> f(t) == 0
    ensures Tally(tasks, f) == 0
  {
    if tasks == [] {
    } else {
      TallyZero(tasks[1..], f);
    }
  }

  /**
    Wait() returns exactly when the loop has returned, and by then every job the pool ever popped has been processed.
   */
  lemma WaitMeansDrained(capacity: nat, moves: seq<Move>, p: Pool, id: Id)
    requires capacity > 0 && PoolRun(Started(capacity), moves, p)
    ensures p.wg == 0 <==> p.loop.Returned?
    ensures p.wg == 0 ==> p.tasks == [] && PolledIn(moves, id) == SettledIn(Started(capacity), moves, id)
  {
    StartedInv(capacity);
    PoolRunKeeps(Started(capacity), moves, p);
    HeldAfterRun(Started(capacity), moves, p, id);
  }

  // ---------- progress ----------

  /** A step that is always possible while the worker has not finished, whatever else is going on. */
  function NextMove(p: Pool): Move
    requires PoolInv(p) && !(p.loop.Returned? && p.tasks == [])
  {
    if p.tasks != [] then
      match p.tasks[0]
      case Running(_) => Settle(0)
      case Settled => DoneWg(0)
      case Uncounted => FreeToken(0)
    else
      match p.loop
      case Selecting => Select
      case Polling => PollNothing
      case Holding(_) => SendToken
      case Tokened(_) => AddWg
      case Counted(_) => Spawn
      case Draining(filled) => if filled < p.capacity then SendDrain else Finish
      case Returned => Cancel
  }

  /** No deadlock: as long as processJob returns, some step can be taken until the worker has finished. */
  lemma NoDeadlock(capacity: nat, moves: seq<Move>, p: Pool)
    requires capacity > 0 && PoolRun(Started(capacity), moves, p) && !(p.loop.Returned? && p.tasks == [])
    ensures PoolInv(p) && CanMove(p, NextMove(p)) && !NextMove(p).Cancel?
  {
    StartedInv(capacity);
    PoolRunKeeps(Started(capacity), moves, p);
  }

  function TaskRank(t: Task): nat {
    match t
    case Running(_) => 3
    case Settled => 2
    case Uncounted => 1
  }

  function LoopRank(p: Pool): nat
    requires p.loop.Draining? ==> p.loop.filled <= p.capacity
  {
    match p.loop
    case Returned => 0
    case Draining(filled) => 1 + p.capacity - filled
    case Selecting => p.capacity + 2
    case Counted(_) => p.capacity + 6
    case Tokened(_) => p.capacity + 7
    case Holding(_) => p.capacity + 8
    case Polling => p.capacity + 9
  }

  function Rank(p: Pool): nat
    requires PoolInv(p)
  {
    LoopRank(p) + Tally(p.tasks, TaskRank)
  }

  /** Once the context is cancelled, every step brings the worker closer to its end. */
  lemma CancelledMovesDescend(p: Pool, m: Move)
    requires PoolInv(p) && p.cancelled && CanMove(p, m)
    ensures PoolInv(Moved(p, m)) && Moved(p, m).cancelled && Rank(Moved(p, m)) < Rank(p)
  {
    MoveKeeps(p, m);
    TallyMoved(p, m, TaskRank);
  }

  lemma {:induction false} TallyScaled(tasks: seq<Task>)
    ensures Tally(tasks, TaskRank) <= 3 * |tasks|
  {
    if tasks == [] {
    } else {
      TallyScaled(tasks[1..]);
    }
  }

  lemma {:induction false} CancelledRunIsShort(p: Pool, moves: seq<Move>, p': Pool)
    requires PoolInv(p) && p.cancelled && PoolRun(p, moves, p')
    ensures PoolInv(p') && |moves| + Rank(p') <= Rank(p)
    decreases |moves|
  {
    if moves == [] {
    } else {
      CancelledMovesDescend(p, moves[0]);
      CancelledRunIsShort(Moved(p, moves[0]), moves[1..], p');
    }
  }

  /**
    From any reachable state, a cancelled worker takes at most 4 * capacity + 9 more steps, and then Wait has returned.
   */
  lemma DrainTerminates(capacity: nat, moves: seq<Move>, p: Pool, rest: seq<Move>, p': Pool)
    requires capacity > 0 && PoolRun(Started(capacity), moves, p) && p.cancelled && PoolRun(p, rest, p')
    ensures |rest| <= 4 * capacity + 9
    ensures (forall m :: !CanMove(p', m)) ==> p'.wg == 0 && p'.loop.Returned? && p'.tasks == []
  {
    StartedInv(capacity);
    PoolRunKeeps(Started(capacity), moves, p);
    CancelledRunIsShort(p, rest, p');
    TallyScaled(p.tasks);
    if !(p'.loop.Returned? && p'.tasks == []) { assert CanMove(p', NextMove(p')); }
  }
}
