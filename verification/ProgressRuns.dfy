/** Any interleaving of clients that buffer progress and of several syncers that flush it, crash or fail. */
module ProgressRuns {
  import opened ReadingProgress

  /** Between its Redis and database calls a syncer holds the snapshot it read. */
  datatype Syncer = Idle | Read(snapshot: set<Member>) | Written(snapshot: set<Member>)

  /** The Redis set, the row, the syncers, and (as history) every entry a client ever buffered. */
  datatype System = System(members: set<Member>, row: Progress, syncers: seq<Syncer>, added: set<Entry>)

  datatype Step =
    | Buffer(m: Member)
    | Snapshot(i: nat)
    | Skip(i: nat)
    | Write(i: nat, a: Aggregate)
    | Remove(i: nat)
    | Crash(i: nat)

  /**
    A syncer skips when it likes (no valid entry, still fresh, a failed call); it writes the aggregate of what it read.
   */
  ghost predicate Enabled(s: System, step: Step) {
    match step
    case Buffer(_) => true
    case Snapshot(i) => i < |s.syncers| && s.syncers[i].Idle?
    case Skip(i) => i < |s.syncers| && s.syncers[i].Read?
    case Write(i, a) => i < |s.syncers| && s.syncers[i].Read? && IsAggregate(a, s.syncers[i].snapshot)
    case Remove(i) => i < |s.syncers| && s.syncers[i].Written?
    case Crash(i) => i < |s.syncers|
  }

  function Apply(s: System, step: Step): System
    requires !step.Buffer? ==> step.i < |s.syncers|
    requires step.Write? ==> s.syncers[step.i].Read?
    requires step.Remove? ==> s.syncers[step.i].Written?
  {
    match step
    case Buffer(m) => s.(members := s.members + {m}, added := if m.Valid? then s.added + {m.entry} else s.added)
    case Snapshot(i) => s.(syncers := s.syncers[i := Read(s.members)])
    case Skip(i) => s.(syncers := s.syncers[i := Idle])
    case Write(i, a) => s.(row := Update(s.row, a), syncers := s.syncers[i := Written(s.syncers[i].snapshot)])
    case Remove(i) => s.(members := s.members - s.syncers[i].snapshot, syncers := s.syncers[i := Idle])
    case Crash(i) => s.(syncers := s.syncers[i := Idle])
  }

  /** The step writes 0 over a positive percent. */
  predicate Resets(s: System, step: Step, c: Column) {
    step.Write? && AggregateValue(step.a, c) == 0.0 && RowValue(s.row, c) > 0.0
  }

  /** A write lowers the row's percent exactly when it resets it. */
  lemma LowersExactly(s: System, step: Step, c: Column)
    requires Enabled(s, step) && RowValue(s.row, c) >= 0.0
    ensures RowValue(Apply(s, step).row, c) < RowValue(s.row, c) <==> Resets(s, step, c)
    ensures RowValue(Apply(s, step).row, c) >= 0.0
  {}

  /** Every entry ever buffered is still in the set or covered by the row. */
  ghost predicate NoneLost(s: System, c: Column) {
    forall e :: e in s.added ==> Valid(e) in s.members || EntryValue(e, c) <= RowValue(s.row, c)
  }

  /** Every buffered entry is still in the set or covered by the row, and so is what a syncer is about to remove. */
  ghost predicate Safe(s: System, c: Column) {
    && RowValue(s.row, c) >= 0.0 && NoneLost(s, c)
    && (forall i, e :: 0 <= i < |s.syncers| && s.syncers[i].Written? && Valid(e) in s.syncers[i].snapshot ==>
          EntryValue(e, c) <= RowValue(s.row, c))
  }

  lemma StepSafe(s: System, step: Step, c: Column)
    requires Safe(s, c) && Enabled(s, step) && !Resets(s, step, c)
    ensures Safe(Apply(s, step), c)
  {
    LowersExactly(s, step, c);
    if step.Write? { assert IsMax(AggregateValue(step.a, c), s.syncers[step.i].snapshot, c); }
  }

  /** Every entry with a positive percent is still in the set, so that no reset can lose it. */
  ghost predicate AllBuffered(s: System, c: Column) {
    forall e :: e in s.added && EntryValue(e, c) > 0.0 ==> Valid(e) in s.members
  }

  /** A step loses an entry if and only if it resets the percent while some positive entry has left the set. */
  lemma LosesExactly(s: System, step: Step, c: Column)
    requires Safe(s, c) && Enabled(s, step)
    ensures NoneLost(Apply(s, step), c) <==> !Resets(s, step, c) || AllBuffered(s, c)
  {
    var s' := Apply(s, step);
    if !Resets(s, step, c) {
      StepSafe(s, step, c);
    } else {
      assert RowValue(s'.row, c) == 0.0 && s'.members == s.members && s'.added == s.added;
    }
  }

  ghost predicate Run(s: System, steps: seq<Step>, s': System, c: Column)
    decreases |steps|
  {
    if steps == [] then s' == s
    else Enabled(s, steps[0]) && !Resets(s, steps[0], c) && Run(Apply(s, steps[0]), steps[1..], s', c)
  }

  lemma {:induction false} RunSafe(s: System, steps: seq<Step>, s': System, c: Column)
    requires Safe(s, c) && Run(s, steps, s', c)
    ensures Safe(s', c) && s.added <= s'.added && RowValue(s'.row, c) >= RowValue(s.row, c)
    decreases |steps|
  {
    if steps == [] {
    } else {
      StepSafe(s, steps[0], c);
      LowersExactly(s, steps[0], c);
      RunSafe(Apply(s, steps[0]), steps[1..], s', c);
    }
  }

  /**
    Nothing is lost: from an empty buffer, however clients, syncers and crashes interleave, each entry ever buffered is
    still in the set or its percent is at most the row's, as long as no flush resets that percent to 0.
   */
  lemma NothingLost(row: Progress, syncers: nat, steps: seq<Step>, s': System, c: Column, e: Entry)
    requires RowValue(row, c) >= 0.0
    requires Run(System({}, row, seq(syncers, _ => Idle), {}), steps, s', c) && e in s'.added
    ensures Valid(e) in s'.members || EntryValue(e, c) <= RowValue(s'.row, c)
    ensures RowValue(s'.row, c) >= RowValue(row, c)
  {
    RunSafe(System({}, row, seq(syncers, _ => Idle), {}), steps, s', c);
  }

  /**
    For instance: flushing an entry that only scrolled the bottom wipes out the top percent flushed
    before it.
   */
  lemma ResetLoses()
    ensures var e1, e2 := Entry(80.0, 80.0, 1, 0), Entry(90.0, 0.0, 1, 1);
      var s0 := System({}, Progress(0.0, 0.0, 0), [Idle], {});
      var s1 := Apply(Apply(Apply(s0, Buffer(Valid(e1))), Snapshot(0)), Write(0, Aggregate(80.0, 80.0, 1)));
      var s2 := Apply(Apply(Apply(s1, Remove(0)), Buffer(Valid(e2))), Snapshot(0));
      var s3 := Apply(s2, Write(0, Aggregate(0.0, 90.0, 1)));
      && Enabled(s2, Write(0, Aggregate(0.0, 90.0, 1))) && Resets(s2, Write(0, Aggregate(0.0, 90.0, 1)), Top)
      && e1 in s3.added && Valid(e1) !in s3.members && s3.row.top == 0.0 && s3.row.bottom == 90.0
  {}
}
