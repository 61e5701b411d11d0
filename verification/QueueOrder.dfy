/**
  The prioritized set and the wait list together are one line of jobs: where a job joins it and who leaves it first.
 */
module QueueOrder {
  import opened Prelude
  import opened JobQueue
  import opened QueueInvariant
  import opened QueueRuns
  import opened QueueScores
  import Strings

  function Reverse(s: seq<Id>): (r: seq<Id>)
    ensures |r| == |s|
  {
    if s == [] then [] else Reverse(s[1..]) + [s[0]]
  }

  /** The order in which the waiting jobs will be popped. */
  function Line(q: State): seq<Id> {
    Members(q.prioritized) + Reverse(q.wait)
  }

  lemma {:induction false} ReverseSnoc(s: seq<Id>, last: Id)
    ensures Reverse(s + [last]) == [last] + Reverse(s)
  {
    if s == [] {
    } else {
      ReverseSnoc(s[1..], last);
      assert (s + [last])[1..] == s[1..] + [last];
      assert [last] + Reverse(s[1..]) + [s[0]] == [last] + (Reverse(s[1..]) + [s[0]]);
    }
  }

  /** Pop takes the head of the line, and nothing exactly when the line is empty. */
  lemma PopTakesHead(q: State)
    ensures Line(q) == [] ==> Pop(q) == (q, None)
    ensures Line(q) != [] ==>
      && Pop(q).1 == Some(Line(q)[0])
      && Line(Pop(q).0) == Line(q)[1..]
      && Pop(q).0.active == [Line(q)[0]] + q.active
  {
    if q.prioritized != [] {
      assert Members(q.prioritized)[1..] == Members(q.prioritized[1..]);
      assert Line(q)[1..] == Members(q.prioritized)[1..] + Reverse(q.wait);
    } else if q.wait != [] {
      var n := |q.wait| - 1;
      ReverseSnoc(q.wait[..n], q.wait[n]);
      assert q.wait == q.wait[..n] + [q.wait[n]];
      assert Line(q) == Reverse(q.wait);
    }
  }

  /** Where e belongs in a sorted set. */
  function Position(z: seq<Entry>, e: Entry): (k: nat)
    ensures k <= |z|
  {
    if z == [] || EntryLess(e, z[0]) then 0 else 1 + Position(z[1..], e)
  }

  lemma {:induction false} InsertAt(z: seq<Entry>, e: Entry)
    ensures Insert(z, e) == z[..Position(z, e)] + [e] + z[Position(z, e)..]
    ensures forall i :: 0 <= i < Position(z, e) ==> !EntryLess(e, z[i])
    ensures Position(z, e) < |z| ==> EntryLess(e, z[Position(z, e)])
  {
    if z != [] && !EntryLess(e, z[0]) { InsertAt(z[1..], e); }
  }

  lemma {:induction false} ZRemAbsent(z: seq<Entry>, id: Id)
    requires ZOcc(z, id) == 0
    ensures ZRem(z, id) == z
  {
    if z == [] {
    } else {
      ZRemAbsent(z[1..], id);
    }
  }

  lemma ZAddAt(z: seq<Entry>, e: Entry)
    requires ZOcc(z, e.member) == 0
    ensures Members(ZAdd(z, e)) == Members(z)[..Position(z, e)] + [e.member] + Members(z)[Position(z, e)..]
  {
    ZRemAbsent(z, e.member);
    InsertAt(z, e);
  }

  lemma PositionSplits(z: seq<Entry>, e: Entry)
    requires Sorted(z) && ZOcc(z, e.member) == 0
    ensures forall i :: 0 <= i < Position(z, e) ==> EntryLess(z[i], e)
    ensures forall i :: Position(z, e) <= i < |z| ==> EntryLess(e, z[i])
  {
    InsertAt(z, e);
    ZOccIn(z, e.member);
    var k := Position(z, e);
    forall i | 0 <= i < k ensures EntryLess(z[i], e) {
      Strings.LessTotal(z[i].member.text, e.member.text);
      assert z[i] in z;
    }
    forall i | k <= i < |z| ensures EntryLess(e, z[i]) {
      if i > k { EntryLessTransitive(e, z[k], z[i]); }
    }
  }

  /**
    The line after id has joined it: at the end without priority, else behind the prioritized entries that precede it.
   */
  function Joined(q: State, id: Id, priority: int, score: int): seq<Id> {
    if priority <= 0 then Line(q) + [id]
    else
      var k := Position(q.prioritized, Entry(score, id));
      Line(q)[..k] + [id] + Line(q)[k..]
  }

  lemma JoinsLine(q: State, q': State, id: Id, priority: int, score: int)
    requires ZOcc(q.prioritized, id) == 0
    requires if priority > 0 then q'.prioritized == ZAdd(q.prioritized, Entry(score, id)) && q'.wait == q.wait
             else q'.wait == [id] + q.wait && q'.prioritized == q.prioritized
    ensures Line(q') == Joined(q, id, priority, score)
  {
    if priority <= 0 {
      assert q'.wait[1..] == q.wait;
      assert Line(q') == Line(q) + [id];
    } else {
      var z, e := q.prioritized, Entry(score, id);
      ZAddAt(z, e);
      assert Line(q') == Line(q)[..Position(z, e)] + [id] + Line(q)[Position(z, e)..];
    }
  }

  /** Behind a joining entry stand exactly the prioritized ones that Redis orders after it. */
  lemma JoinsInOrder(q: State, id: Id, score: int, i: nat)
    requires SortedInv(q) && ZOcc(q.prioritized, id) == 0 && i < |q.prioritized|
    ensures i < Position(q.prioritized, Entry(score, id)) <==> EntryLess(q.prioritized[i], Entry(score, id))
    ensures i >= Position(q.prioritized, Entry(score, id)) <==> EntryLess(Entry(score, id), q.prioritized[i])
  {
    var e := Entry(score, id);
    PositionSplits(q.prioritized, e);
    if EntryLess(q.prioritized[i], e) && EntryLess(e, q.prioritized[i]) {
      Strings.LessAsymmetric(id.text, q.prioritized[i].member.text);
    }
  }

  /** What a step makes of the line; settling and the clock leave it alone. */
  function LineAfter(q: State, step: Step): seq<Id> {
    match step
    case Add(spec, io) =>
      var outcome := AddEntry(q, spec, io).1;
      if outcome.Added?
      then Joined(q, outcome.id, spec.opts.priority, Score(NonNeg(spec.opts.priority), q.clock))
      else Line(q)
    case PopNext => if Line(q) == [] then [] else Line(q)[1..]
    case Promotion(id, score) => Joined(q, id, JobOrNew(q, id).opts.priority, score)
    case _ => Line(q)
  }

  lemma AddMovesLine(q: State, spec: AddSpec, io: EntryIO)
    requires Inv(q) && NotNumeral(spec.jobId)
    ensures Line(AddEntry(q, spec, io).0) == LineAfter(q, Add(spec, io))
  {
    var (q', outcome) := AddEntry(q, spec, io);
    AddEntryKeeps(q, spec, io);
    if outcome.Added? {
      assert ZOcc(q.prioritized, outcome.id) == 0 by { assert Count(q, outcome.id) == 0; }
      JoinsLine(q, q', outcome.id, spec.opts.priority, Score(NonNeg(spec.opts.priority), q.clock));
    }
  }

  /** Every step of the queue moves the line in this way and in no other. */
  lemma StepMovesLine(q: State, step: Step)
    requires Inv(q) && Enabled(q, step)
    ensures Line(Apply(q, step)) == LineAfter(q, step)
  {
    match step
    case Add(spec, io) => AddMovesLine(q, spec, io);
    case PopNext => PopTakesHead(q);
    case Promotion(id, score) =>
      assert ZOcc(q.prioritized, id) == 0 by { assert Count(q, id) <= 1; }
      JoinsLine(q, Promote(q, id, score), id, JobOrNew(q, id).opts.priority, score);
    case _ =>
  }

  // ---------- first in, first out ----------

  /** The wait list, the job that waits longest first. */
  function Waiting(q: State): seq<Id> {
    Reverse(q.wait)
  }

  /** What a step appends to the wait list. */
  function Comes(q: State, step: Step): seq<Id> {
    match step
    case Add(spec, io) =>
      if AddEntry(q, spec, io).1.Added? && spec.opts.priority <= 0 then [AddEntry(q, spec, io).1.id] else []
    case Promotion(id, _) => if JobOrNew(q, id).opts.priority <= 0 then [id] else []
    case _ => []
  }

  /** What a step takes from it: a pop, when nothing is prioritized. */
  function Goes(q: State, step: Step): seq<Id> {
    if step.PopNext? && q.prioritized == [] && Pop(q).1.Some? then [Pop(q).1.value] else []
  }

  ghost function AllComing(q: State, steps: seq<Step>): seq<Id>
    decreases |steps|
  {
    if steps == [] then [] else Comes(q, steps[0]) + AllComing(Apply(q, steps[0]), steps[1..])
  }

  ghost function AllGoing(q: State, steps: seq<Step>): seq<Id>
    decreases |steps|
  {
    if steps == [] then [] else Goes(q, steps[0]) + AllGoing(Apply(q, steps[0]), steps[1..])
  }

  lemma AddIsFifo(q: State, spec: AddSpec, io: EntryIO)
    ensures Waiting(q) + Comes(q, Add(spec, io)) == Waiting(AddEntry(q, spec, io).0)
  {
    var (q', outcome) := AddEntry(q, spec, io);
    if outcome.Added? && spec.opts.priority <= 0 {
      assert q'.wait == [outcome.id] + q.wait;
      assert q'.wait[1..] == q.wait;
    } else {
      assert q'.wait == q.wait;
    }
  }

  lemma PopIsFifo(q: State)
    ensures Waiting(q) == Goes(q, PopNext) + Waiting(Pop(q).0)
  {
    if q.prioritized == [] && q.wait != [] {
      var n := |q.wait| - 1;
      assert q.wait == q.wait[..n] + [q.wait[n]];
      ReverseSnoc(q.wait[..n], q.wait[n]);
    }
  }

  lemma StepIsFifo(q: State, step: Step)
    ensures Waiting(q) + Comes(q, step) == Goes(q, step) + Waiting(Apply(q, step))
  {
    match step
    case Add(spec, io) => AddIsFifo(q, spec, io);
    case PopNext => PopIsFifo(q);
    case Promotion(id, score) => if Comes(q, step) != [] { assert Promote(q, id, score).wait[1..] == q.wait; }
    case _ => assert Apply(q, step).wait == q.wait;
  }

  lemma Concatenate(w0: seq<Id>, c: seq<Id>, cs: seq<Id>, g: seq<Id>, w1: seq<Id>, gs: seq<Id>, w2: seq<Id>)
    requires w0 + c == g + w1 && w1 + cs == gs + w2
    ensures w0 + (c + cs) == (g + gs) + w2
  {
    assert w0 + (c + cs) == (w0 + c) + cs;
    assert g + (w1 + cs) == (g + w1) + cs;
    assert g + (gs + w2) == (g + gs) + w2;
  }

  /**
    The wait list is first in, first out over any run: what waited or came is what went, in that order, or still waits.
   */
  lemma {:induction false} WaitIsFifo(q: State, steps: seq<Step>, q': State)
    requires Run(q, steps, q')
    ensures Waiting(q) + AllComing(q, steps) == AllGoing(q, steps) + Waiting(q')
    decreases |steps|
  {
    if steps == [] {
    } else {
      var step, q1, rest := steps[0], Apply(q, steps[0]), steps[1..];
      StepIsFifo(q, step);
      WaitIsFifo(q1, rest, q');
      Concatenate(Waiting(q), Comes(q, step), AllComing(q1, rest), Goes(q, step), Waiting(q1), AllGoing(q1, rest),
                  Waiting(q'));
    }
  }

  // ---------- the order of the prioritized jobs ----------

  datatype Key = Key(priority: int, timestamp: int, id: Id)

  /** Priority first, then time of queueing, then id. */
  predicate KeyLess(a: Key, b: Key) {
    a.priority < b.priority
    || (a.priority == b.priority
        && (a.timestamp < b.timestamp || (a.timestamp == b.timestamp && Strings.Less(a.id.text, b.id.text))))
  }

  function KeyOf(q: State, id: Id): Key {
    Key(JobOrNew(q, id).opts.priority, JobOrNew(q, id).timestamp, id)
  }

  function GoScore(job: Job): int {
    Score(NonNeg(job.opts.priority), NonNeg(job.timestamp))
  }

  /** Every prioritized entry is a job with priority and carries the score that AddBulk gives it. */
  ghost predicate GoScored(q: State) {
    forall e :: e in q.prioritized ==>
      e.member in q.jobs && q.jobs[e.member].opts.priority > 0 && e.score == GoScore(q.jobs[e.member])
  }

  /** The job's score stays within 2^53, as it does for all priorities of the program (ProgramScoresExact). */
  predicate Exact(q: State, id: Id) {
    JobOrNew(q, id).opts.priority * PRIORITY_UNIT + JobOrNew(q, id).timestamp <= TWO53
  }

  /** b has the smaller priority number, but was queued 10^12 ms per priority step, or more, after a. */
  predicate Overdue(a: Key, b: Key) {
    b.priority < a.priority && b.timestamp - a.timestamp >= (a.priority - b.priority) * PRIORITY_UNIT
  }

  lemma LeastExactly(q: State, i: nat)
    requires SortedInv(q) && GoScored(q) && 0 < i < |q.prioritized|
    requires Exact(q, q.prioritized[0].member) && Exact(q, q.prioritized[i].member)
    ensures var head, other := KeyOf(q, q.prioritized[0].member), KeyOf(q, q.prioritized[i].member);
      KeyLess(head, other) <==> !Overdue(head, other)
  {
    var a, b := q.prioritized[0], q.prioritized[i];
    assert EntryLess(a, b) && a in q.prioritized && b in q.prioritized;
    SumsWithin(q.jobs[a.member].opts.priority, q.jobs[a.member].timestamp);
    SumsWithin(q.jobs[b.member].opts.priority, q.jobs[b.member].timestamp);
    UnitsDecide(KeyOf(q, a.member).priority, KeyOf(q, a.member).timestamp,
                KeyOf(q, b.member).priority, KeyOf(q, b.member).timestamp);
  }

  lemma UnitsDecide(p1: int, t1: int, p2: int, t2: int)
    requires p1 * PRIORITY_UNIT + t1 <= p2 * PRIORITY_UNIT + t2
    ensures p1 > p2 ==> t2 - t1 >= (p1 - p2) * PRIORITY_UNIT
    ensures p1 == p2 ==> t1 <= t2
  {}

  lemma PrioritizedFacts(q: State, e: Entry)
    requires LiveInv(q) && e in q.prioritized
    ensures Persistent(q, e.member) && e.member !in q.active
  {
    ZOccIn(q.prioritized, e.member);
    OccIn(q.active, e.member);
    assert Count(q, e.member) >= 1;
  }

  lemma AddedEntry(q: State, spec: AddSpec, io: EntryIO, e: Entry)
    requires e in AddEntry(q, spec, io).0.prioritized && e !in q.prioritized
    ensures var q' := AddEntry(q, spec, io).0;
      e.member in q'.jobs && q'.jobs[e.member].opts.priority > 0 && e.score == GoScore(q'.jobs[e.member])
  {
    var id := AddEntry(q, spec, io).1.id;
    var score := Score(NonNeg(spec.opts.priority), q.clock);
    ZRemElements(q.prioritized, id);
    InsertElements(ZRem(q.prioritized, id), Entry(score, id));
    assert e == Entry(score, id);
  }

  lemma NewEntry(q: State, step: Step, e: Entry)
    requires Inv(q) && Enabled(q, step) && e in Apply(q, step).prioritized && e !in q.prioritized
    requires step.Promotion? ==> step.score == GoScore(JobOrNew(q, step.id))
    ensures var q' := Apply(q, step);
      e.member in q'.jobs && q'.jobs[e.member].opts.priority > 0 && e.score == GoScore(q'.jobs[e.member])
  {
    match step
    case Add(spec, io) => AddedEntry(q, spec, io, e);
    case Promotion(id, score) =>
      ZRemElements(q.prioritized, id);
      InsertElements(ZRem(q.prioritized, id), Entry(score, id));
      assert Persistent(q, id) by { assert Count(q, id) > 0; }
    case _ =>
  }

  /** Promotions score a job as AddBulk did. */
  predicate ReusesScore(q: State, step: Step) {
    step.Promotion? ==> step.score == GoScore(JobOrNew(q, step.id))
  }

  /** AddBulk's scores stay in place: only a promotion under another score can break GoScored. */
  lemma StepKeepsGoScored(q: State, step: Step)
    requires Inv(q) && Enabled(q, step) && GoScored(q) && ReusesScore(q, step)
    ensures GoScored(Apply(q, step))
  {
    var q' := Apply(q, step);
    forall e | e in q'.prioritized
      ensures e.member in q'.jobs && q'.jobs[e.member].opts.priority > 0 && e.score == GoScore(q'.jobs[e.member])
    {
      if e in q.prioritized {
        PrioritizedFacts(q, e);
        HashKept(q, step, e.member);
      } else {
        NewEntry(q, step, e);
      }
    }
  }

  ghost predicate ReusesScores(q: State, steps: seq<Step>)
    decreases |steps|
  {
    steps == [] || (ReusesScore(q, steps[0]) && ReusesScores(Apply(q, steps[0]), steps[1..]))
  }

  lemma {:induction false} RunKeepsGoScored(q: State, steps: seq<Step>, q': State)
    requires Inv(q) && GoScored(q) && Run(q, steps, q') && ReusesScores(q, steps)
    ensures Inv(q') && GoScored(q')
    decreases |steps|
  {
    if steps == [] {
    } else {
      StepKeeps(q, steps[0]);
      StepKeepsGoScored(q, steps[0]);
      RunKeepsGoScored(Apply(q, steps[0]), steps[1..], q');
    }
  }

  /**
    In every reachable state the entry popped next is the least by score and id. If promotions reuse the scores of
    AddBulk, its job precedes another prioritized one by priority, time of queueing and id, if and only if that one is
    not overdue, as long as both scores are exact.
   */
  lemma PopIsLeast(steps: seq<Step>, q: State, i: nat)
    requires Run(EMPTY, steps, q) && 0 < i < |q.prioritized|
    ensures Pop(q).1 == Some(q.prioritized[0].member) && EntryLess(q.prioritized[0], q.prioritized[i])
    ensures ReusesScores(EMPTY, steps) ==>
      GoScore(JobOrNew(q, q.prioritized[0].member)) <= GoScore(JobOrNew(q, q.prioritized[i].member))
    ensures var head, other := KeyOf(q, q.prioritized[0].member), KeyOf(q, q.prioritized[i].member);
      ReusesScores(EMPTY, steps) && Exact(q, head.id) && Exact(q, other.id) ==>
        (KeyLess(head, other) <==> !Overdue(head, other))
  {
    EmptyInv();
    RunKeeps(EMPTY, steps, q);
    assert q.prioritized[0] in q.prioritized && q.prioritized[i] in q.prioritized;
    if ReusesScores(EMPTY, steps) {
      RunKeepsGoScored(EMPTY, steps, q);
      if Exact(q, q.prioritized[0].member) && Exact(q, q.prioritized[i].member) { LeastExactly(q, i); }
    }
  }
}
