/** Every step of the queue keeps the invariant, and what each step does to the multiset of live ids. */
module QueueInvariant {
  import opened Prelude
  import opened JobQueue
  import Strings
  import Decimal

  // ---------- counting in lists and sorted sets ----------

  lemma {:induction false} OccIn(s: seq<Id>, id: Id)
    ensures id in s <==> Occ(s, id) > 0
  {
    if s == [] {
    } else {
      OccIn(s[1..], id);
    }
  }

  lemma {:induction false} ZOccIn(z: seq<Entry>, id: Id)
    ensures (exists e :: e in z && e.member == id) <==> ZOcc(z, id) > 0
  {
    if z == [] {
    } else {
      ZOccIn(z[1..], id);
      if z[0].member == id { assert z[0] in z; }
    }
  }

  lemma {:induction false} OccSnoc(s: seq<Id>, last: Id, id: Id)
    ensures Occ(s + [last], id) == Occ(s, id) + if last == id then 1 else 0
  {
    if s == [] {
    } else {
      OccSnoc(s[1..], last, id);
      assert (s + [last])[1..] == s[1..] + [last];
    }
  }

  lemma {:induction false} OccLRem(s: seq<Id>, gone: Id, id: Id)
    ensures Occ(LRem(s, gone), id) == if id == gone then 0 else Occ(s, id)
  {
    if s == [] {
    } else {
      OccLRem(s[1..], gone, id);
    }
  }

  lemma {:induction false} ZOccInsert(z: seq<Entry>, e: Entry, id: Id)
    ensures ZOcc(Insert(z, e), id) == ZOcc(z, id) + if e.member == id then 1 else 0
  {
    if z != [] && !EntryLess(e, z[0]) { ZOccInsert(z[1..], e, id); }
  }

  lemma {:induction false} ZOccZRem(z: seq<Entry>, gone: Id, id: Id)
    ensures ZOcc(ZRem(z, gone), id) == if id == gone then 0 else ZOcc(z, id)
  {
    if z == [] {
    } else {
      ZOccZRem(z[1..], gone, id);
    }
  }

  lemma ZOccZAdd(z: seq<Entry>, e: Entry, id: Id)
    ensures ZOcc(ZAdd(z, e), id) == if id == e.member then 1 else ZOcc(z, id)
  {
    ZOccInsert(ZRem(z, e.member), e, id);
    ZOccZRem(z, e.member, id);
  }

  // ---------- sorted sets stay sorted ----------

  lemma EntryLessTransitive(a: Entry, b: Entry, c: Entry)
    requires EntryLess(a, b) && EntryLess(b, c)
    ensures EntryLess(a, c)
  {
    if a.score == b.score == c.score {
      Strings.LessTransitive(a.member.text, b.member.text, c.member.text);
    }
  }

  lemma {:induction false} InsertElements(z: seq<Entry>, e: Entry)
    ensures forall x :: x in Insert(z, e) <==> x == e || x in z
  {
    if z != [] && !EntryLess(e, z[0]) { InsertElements(z[1..], e); }
  }

  lemma {:induction false} ZRemElements(z: seq<Entry>, id: Id)
    ensures forall x :: x in ZRem(z, id) <==> x in z && x.member != id
  {
    if z == [] {
    } else {
      ZRemElements(z[1..], id);
    }
  }

  lemma {:induction false} SortedCons(e: Entry, z: seq<Entry>)
    requires Sorted(z) && forall x :: x in z ==> EntryLess(e, x)
    ensures Sorted([e] + z)
  {
    var s := [e] + z;
    forall i, j | 0 <= i < j < |s| ensures EntryLess(s[i], s[j]) {
      assert s[j] == z[j - 1] && s[j] in z;
    }
  }

  lemma {:induction false} ZRemSorted(z: seq<Entry>, id: Id)
    requires Sorted(z)
    ensures Sorted(ZRem(z, id))
  {
    if z == [] {
    } else {
      ZRemSorted(z[1..], id);
      ZRemElements(z[1..], id);
      if z[0].member != id { SortedCons(z[0], ZRem(z[1..], id)); }
    }
  }

  lemma {:induction false} InsertSorted(z: seq<Entry>, e: Entry)
    requires Sorted(z) && forall x :: x in z ==> x.member != e.member
    ensures Sorted(Insert(z, e))
  {
    if z == [] {
    } else if EntryLess(e, z[0]) {
      forall x | x in z ensures EntryLess(e, x) {
        if x != z[0] { EntryLessTransitive(e, z[0], x); }
      }
      SortedCons(e, z);
    } else {
      InsertSorted(z[1..], e);
      InsertElements(z[1..], e);
      Strings.LessTotal(z[0].member.text, e.member.text);
      assert z[0] in z;
      SortedCons(z[0], Insert(z[1..], e));
    }
  }

  lemma ZAddSorted(z: seq<Entry>, e: Entry)
    requires Sorted(z)
    ensures Sorted(ZAdd(z, e))
  {
    ZRemSorted(z, e.member);
    ZRemElements(z, e.member);
    InsertSorted(ZRem(z, e.member), e);
  }

  // ---------- the invariant, step by step ----------

  /** A step that moves no id but `id` keeps LiveInv if it leaves id where its hash says. */
  lemma LiveChange(q: State, q': State, id: Id)
    requires LiveInv(q)
    requires forall x :: x != id ==> Count(q', x) == Count(q, x) && (Persistent(q', x) <==> Persistent(q, x))
    requires Count(q', id) == if Persistent(q', id) then 1 else 0
    ensures LiveInv(q')
  {
    forall x ensures Count(q', x) == if Persistent(q', x) then 1 else 0 {
      assert x != id ==> Count(q', x) == Count(q, x);
    }
  }

  /** A step that moves no id and changes no hash between lasting and expiring keeps LiveInv. */
  lemma LiveSame(q: State, q': State)
    requires LiveInv(q)
    requires q'.wait == q.wait && q'.prioritized == q.prioritized && q'.active == q.active && q'.delayed == q.delayed
    requires forall id :: Persistent(q', id) <==> Persistent(q, id)
    ensures LiveInv(q')
  {
    forall id ensures Count(q', id) == if Persistent(q', id) then 1 else 0 {
      assert Count(q', id) == Count(q, id);
    }
  }

  /** A step that writes no hash beyond those already there keeps FreshInv. */
  lemma FreshChange(q: State, q': State)
    requires FreshInv(q) && q.lastId <= q'.lastId && q'.jobs.Keys <= q.jobs.Keys
    ensures FreshInv(q')
  {}

  lemma PlaceCounts(q: State, id: Id, spec: AddSpec, score: int, x: Id)
    requires Count(q, id) == 0
    ensures Count(Place(q, id, spec, score), x) == Count(q, x) + if x == id then 1 else 0
  {
    ZOccZAdd(q.prioritized, Entry(score, id), x);
  }

  lemma PlaceLive(q: State, id: Id, spec: AddSpec, score: int)
    requires LiveInv(q) && id !in q.jobs
    ensures LiveInv(Place(q, id, spec, score))
  {
    var q' := Place(q, id, spec, score);
    assert Count(q, id) == 0;
    forall x ensures Count(q', x) == Count(q, x) + if x == id then 1 else 0 { PlaceCounts(q, id, spec, score, x); }
    LiveChange(q, q', id);
  }

  lemma PlaceFresh(q: State, id: Id, spec: AddSpec, score: int)
    requires FreshInv(q) && forall n: nat :: n > q.lastId ==> id != AutoId(n)
    ensures FreshInv(Place(q, id, spec, score))
  {
    assert Place(q, id, spec, score).jobs.Keys == q.jobs.Keys + {id};
  }

  lemma PlaceKeeps(q: State, id: Id, spec: AddSpec, score: int)
    requires Inv(q) && id !in q.jobs
    requires forall n: nat :: n > q.lastId ==> id != AutoId(n)
    ensures Inv(Place(q, id, spec, score))
    ensures Place(q, id, spec, score).jobs.Keys == q.jobs.Keys + {id} && Persistent(Place(q, id, spec, score), id)
  {
    PlaceLive(q, id, spec, score);
    ZAddSorted(q.prioritized, Entry(score, id));
    PlaceFresh(q, id, spec, score);
  }

  lemma EnqueueKeeps(q: State, id: Id, spec: AddSpec)
    requires Inv(q) && id !in q.jobs
    requires forall n: nat :: n > q.lastId ==> id != AutoId(n)
    ensures Inv(Enqueue(q, id, spec))
    ensures Enqueue(q, id, spec).jobs.Keys == q.jobs.Keys + {id} && Persistent(Enqueue(q, id, spec), id)
  {
    PlaceKeeps(q, id, spec, Score(NonNeg(spec.opts.priority), q.clock));
  }

  lemma CounterKeeps(q: State)
    requires Inv(q)
    ensures var q' := q.(lastId := q.lastId + 1);
      && Inv(q') && AutoId(q'.lastId) !in q'.jobs
      && forall n: nat :: n > q'.lastId ==> AutoId(q'.lastId) != AutoId(n)
  {
    var q' := q.(lastId := q.lastId + 1);
    LiveSame(q, q');
    FreshChange(q, q');
    forall n: nat | n > q'.lastId ensures AutoId(q'.lastId) != AutoId(n) {
      if AutoId(q'.lastId) == AutoId(n) { Decimal.DigitsInjective(n, q'.lastId); }
    }
  }

  /** Nothing but the hashes of the added ids, wait, prioritized and the counter may have changed. */
  ghost predicate Framed(q: State, q': State, added: set<Id>) {
    && q'.active == q.active && q'.delayed == q.delayed && q'.clock == q.clock
    && q'.completed == q.completed && q'.failed == q.failed
    && q'.jobs.Keys == q.jobs.Keys + added
    && forall x :: x in q.jobs && x !in added ==> q'.jobs[x] == q.jobs[x]
  }

  lemma EnqueueFrame(q: State, id: Id, spec: AddSpec)
    ensures Framed(q, Enqueue(q, id, spec), {id})
  {}

  /** An entry touches no hash but the one it reports, and neither active, delayed nor the finished sets. */
  lemma AddEntryFrame(q: State, spec: AddSpec, io: EntryIO)
    ensures var (q', outcome) := AddEntry(q, spec, io);
      Framed(q, q', if outcome.Added? then {outcome.id} else {})
  {
    if AddEntry(q, spec, io).1.Added? {
      if spec.jobId != NO_ID {
        EnqueueFrame(q, spec.jobId, spec);
      } else {
        var q1 := q.(lastId := q.lastId + 1);
        EnqueueFrame(q1, AutoId(q1.lastId), spec);
      }
    }
  }

  /** One AddBulk entry keeps the invariant, and adds exactly the id it reports. */
  lemma AddEntryKeeps(q: State, spec: AddSpec, io: EntryIO)
    requires Inv(q) && NotNumeral(spec.jobId)
    ensures Inv(AddEntry(q, spec, io).0)
    ensures var (q', outcome) := AddEntry(q, spec, io);
      && q'.jobs.Keys == q.jobs.Keys + (if outcome.Added? then {outcome.id} else {})
      && (outcome.Added? ==> outcome.id !in q.jobs && Persistent(q', outcome.id))
  {
    if spec.jobId != NO_ID {
      if spec.jobId !in q.jobs { EnqueueKeeps(q, spec.jobId, spec); }
    } else {
      CounterKeeps(q);
      var q1 := q.(lastId := q.lastId + 1);
      EnqueueKeeps(q1, AutoId(q1.lastId), spec);
    }
  }

  lemma PopCounts(q: State, x: Id)
    ensures Count(Pop(q).0, x) == Count(q, x)
  {
    if q.prioritized == [] && q.wait != [] {
      var n := |q.wait| - 1;
      assert q.wait == q.wait[..n] + [q.wait[n]];
      OccSnoc(q.wait[..n], q.wait[n], x);
    }
  }

  lemma PopLive(q: State)
    requires LiveInv(q)
    ensures LiveInv(Pop(q).0)
    ensures var (q', popped) := Pop(q);
      popped.Some? ==> Persistent(q, popped.value) && Occ(q.active, popped.value) == 0
  {
    var (q', popped) := Pop(q);
    forall x ensures Count(q', x) == Count(q, x) { PopCounts(q, x); }
    LiveChange(q, q', NO_ID);
    if popped.Some? { assert Count(q', popped.value) <= 1; }
  }

  /** The script moves one id to active, one that was not there, and keeps the invariant. */
  lemma PopKeeps(q: State)
    requires Inv(q)
    ensures Inv(Pop(q).0)
    ensures var (q', popped) := Pop(q);
      popped.Some? ==> Persistent(q, popped.value) && Occ(q.active, popped.value) == 0
  {
    PopLive(q);
    FreshChange(q, Pop(q).0);
  }

  lemma ActiveFacts(q: State, id: Id)
    requires LiveInv(q) && id in q.active
    ensures Persistent(q, id)
    ensures Occ(q.active, id) == 1 && Occ(q.wait, id) == ZOcc(q.prioritized, id) == ZOcc(q.delayed, id) == 0
  {
    OccIn(q.active, id);
    assert Count(q, id) <= 1;
  }

  lemma CompleteKeeps(q: State, id: Id)
    requires Inv(q) && id in q.active
    ensures Inv(CompleteJob(q, id))
  {
    var q' := CompleteJob(q, id);
    ActiveFacts(q, id);
    forall x ensures Count(q', x) == if x == id then 0 else Count(q, x) { OccLRem(q.active, id, x); }
    LiveChange(q, q', id);
    FreshChange(q, CompleteJob(q, id));
  }

  lemma CountAttemptKeeps(q: State, id: Id)
    requires Inv(q) && id in q.active
    ensures Inv(CountAttempt(q, id))
  {
    var q' := CountAttempt(q, id);
    ActiveFacts(q, id);
    LiveSame(q, q');
    FreshChange(q, q');
  }

  lemma RefileCounts(q: State, id: Id, reason: string, opts: Opts, x: Id)
    requires Count(q, id) == Occ(q.active, id) == 1
    ensures Count(Refile(q, id, reason, opts), x) == if x == id && !Retries(q, id, opts) then 0 else Count(q, x)
  {
    OccLRem(q.active, id, x);
    var retryAt := q.clock + ExponentialDelay(opts.backoff.delay, JobOrNew(q, id).attemptsMade - 1);
    ZOccZAdd(q.delayed, Entry(retryAt, id), x);
  }

  lemma RefileLive(q: State, id: Id, reason: string, opts: Opts)
    requires LiveInv(q) && id in q.active
    ensures LiveInv(Refile(q, id, reason, opts))
  {
    ActiveFacts(q, id);
    var q' := Refile(q, id, reason, opts);
    forall x ensures Count(q', x) == if x == id && !Retries(q, id, opts) then 0 else Count(q, x) {
      RefileCounts(q, id, reason, opts, x);
    }
    LiveChange(q, q', id);
  }

  /** A failed job goes to delayed or to failed, and nowhere else. */
  lemma RefileKeeps(q: State, id: Id, reason: string, opts: Opts)
    requires Inv(q) && id in q.active
    ensures Inv(Refile(q, id, reason, opts))
  {
    ActiveFacts(q, id);
    RefileLive(q, id, reason, opts);
    ZAddSorted(q.delayed, Entry(q.clock + ExponentialDelay(opts.backoff.delay, JobOrNew(q, id).attemptsMade - 1), id));
    FreshChange(q, Refile(q, id, reason, opts));
  }

  lemma PromoteCounts(q: State, id: Id, score: int, x: Id)
    requires Count(q, id) == ZOcc(q.delayed, id) == 1
    ensures Count(Promote(q, id, score), x) == Count(q, x)
  {
    ZOccZRem(q.delayed, id, x);
    ZOccZAdd(q.prioritized, Entry(score, id), x);
  }

  lemma PromoteKeeps(q: State, id: Id, score: int)
    requires Inv(q) && ZOcc(q.delayed, id) > 0
    ensures Inv(Promote(q, id, score))
  {
    var q' := Promote(q, id, score);
    assert Count(q, id) <= 1;
    forall x ensures Count(q', x) == Count(q, x) { PromoteCounts(q, id, score, x); }
    LiveChange(q, q', id);
    ZRemSorted(q.delayed, id);
    ZAddSorted(q.prioritized, Entry(score, id));
    FreshChange(q, Promote(q, id, score));
  }

  lemma TickKeeps(q: State, ms: nat)
    requires Inv(q)
    ensures Inv(Tick(q, ms))
  {
    var q' := Tick(q, ms);
    LiveSame(q, q');
    FreshChange(q, q');
  }
}
