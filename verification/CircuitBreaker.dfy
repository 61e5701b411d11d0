/**
  The per-domain failure counter that stops content fetches (internal/handler/handler.go), under concurrent callers.
 */
module CircuitBreaker {
  import opened Prelude

  /** Where a call of ProcessFetchContentJob is: before the check, past it, fetching, about to INCR, about to EXPIRE. */
  datatype Caller = Idle | Passed | Fetching | Failed | Counted

  /** The counter key (None when it is missing), whether it has a time to live, and the concurrent callers. */
  datatype State = State(count: Option<nat>, expires: bool, callers: seq<Caller>)

  datatype Step =
    | Check(i: nat)
    | CheckError(i: nat)
    | Cached(i: nat)
    | StartFetch(i: nat)
    | FetchDone(i: nat)
    | FetchFails(i: nat)
    | Incr(i: nat)
    | IncrError(i: nat)
    | Expire(i: nat)
    | ExpireError(i: nat)
    | KeyExpires

  function Count(s: State): nat {
    match s.count case None => 0 case Some(n) => n
  }

  /** isDomainBlocked, for a domain that is not on the fixed list. */
  predicate Blocked(s: State, maxFailures: int) {
    s.count.Some? && s.count.value > maxFailures
  }

  predicate At(s: State, i: nat, c: Caller) {
    i < |s.callers| && s.callers[i] == c
  }

  predicate Enabled(s: State, step: Step) {
    match step
    case Check(i) => At(s, i, Idle)
    case CheckError(i) => At(s, i, Idle)
    case Cached(i) => At(s, i, Passed)
    case StartFetch(i) => At(s, i, Passed)
    case FetchDone(i) => At(s, i, Fetching)
    case FetchFails(i) => At(s, i, Fetching)
    case Incr(i) => At(s, i, Failed)
    case IncrError(i) => At(s, i, Failed)
    case Expire(i) => At(s, i, Counted)
    case ExpireError(i) => At(s, i, Counted)
    case KeyExpires => s.count.Some? && s.expires
  }

  function Goto(s: State, i: nat, c: Caller): State
    requires i < |s.callers|
  {
    s.(callers := s.callers[i := c])
  }

  function Apply(s: State, step: Step, maxFailures: int): State
    requires Enabled(s, step)
  {
    match step
    case Check(i) => if Blocked(s, maxFailures) then s else Goto(s, i, Passed)
    case CheckError(i) => Goto(s, i, Passed)
    case Cached(i) => Goto(s, i, Idle)
    case StartFetch(i) => Goto(s, i, Fetching)
    case FetchDone(i) => Goto(s, i, Idle)
    case FetchFails(i) => Goto(s, i, Failed)
    case Incr(i) => Goto(s, i, Counted).(count := Some(Count(s) + 1))
    case IncrError(i) => Goto(s, i, Idle)
    case Expire(i) => Goto(s, i, Idle).(expires := s.count.Some?)
    case ExpireError(i) => Goto(s, i, Idle)
    case KeyExpires => s.(count := None, expires := false)
  }

  predicate Run(s: State, steps: seq<Step>, s': State, maxFailures: int)
    decreases |steps|
  {
    if steps == [] then s' == s
    else Enabled(s, steps[0]) && Run(Apply(s, steps[0], maxFailures), steps[1..], s', maxFailures)
  }

  predicate NoReadErrors(steps: seq<Step>) {
    forall k :: 0 <= k < |steps| ==> !steps[k].CheckError?
  }

  function Start(callers: nat): State {
    State(None, false, seq(callers, _ => Idle))
  }

  // ---------- what is counted ----------

  predicate NeverExpires(steps: seq<Step>) {
    forall k :: 0 <= k < |steps| ==> !steps[k].KeyExpires?
  }

  function Incrs(steps: seq<Step>): nat {
    if steps == [] then 0 else (if steps[0].Incr? then 1 else 0) + Incrs(steps[1..])
  }

  /** Until the key expires the counter holds the failures counted, one each; no successful fetch takes any back. */
  lemma {:induction false} CountsFailures(s: State, steps: seq<Step>, s': State, maxFailures: int)
    requires Run(s, steps, s', maxFailures) && NeverExpires(steps)
    ensures Count(s') == Count(s) + Incrs(steps) && |s'.callers| == |s.callers|
    decreases |steps|
  {
    if steps == [] {
    } else {
      CountsFailures(Apply(s, steps[0], maxFailures), steps[1..], s', maxFailures);
    }
  }

  // ---------- the bound ----------

  /** Callers that may still increment the counter. */
  function Pending(callers: seq<Caller>): nat {
    if callers == [] then 0
    else (if callers[0].Idle? || callers[0].Counted? then 0 else 1) + Pending(callers[1..])
  }

  lemma {:induction false} PendingUpdate(callers: seq<Caller>, i: nat, c: Caller)
    requires i < |callers|
    ensures Pending(callers[i := c]) + Pending([callers[i]]) == Pending(callers) + Pending([c])
  {
    if i == 0 {
    } else {
      PendingUpdate(callers[1..], i - 1, c);
      assert callers[i := c][1..] == callers[1..][i - 1 := c];
    }
  }

  lemma {:induction false} PendingAtMost(callers: seq<Caller>)
    ensures Pending(callers) <= |callers|
  {
    if callers == [] {
    } else {
      PendingAtMost(callers[1..]);
    }
  }

  /** What has been counted and what still may be stay within the limit plus one failure per caller. */
  predicate Within(s: State, maxFailures: int) {
    Count(s) + Pending(s.callers) <= Max(maxFailures, 0) + |s.callers|
  }

  lemma StepWithin(s: State, step: Step, maxFailures: int)
    requires Within(s, maxFailures) && Enabled(s, step) && !step.CheckError?
    ensures Within(Apply(s, step, maxFailures), maxFailures)
  {
    var s' := Apply(s, step, maxFailures);
    if !step.KeyExpires? { PendingUpdate(s.callers, step.i, s'.callers[step.i]); }
    PendingAtMost(s'.callers);
  }

  lemma {:induction false} RunWithin(s: State, steps: seq<Step>, s': State, maxFailures: int)
    requires Within(s, maxFailures) && Run(s, steps, s', maxFailures) && NoReadErrors(steps)
    ensures Within(s', maxFailures) && |s'.callers| == |s.callers|
    decreases |steps|
  {
    if steps == [] {
    } else {
      StepWithin(s, steps[0], maxFailures);
      RunWithin(Apply(s, steps[0], maxFailures), steps[1..], s', maxFailures);
    }
  }

  lemma {:induction false} NonePending(callers: seq<Caller>)
    requires forall i :: 0 <= i < |callers| ==> callers[i] == Idle
    ensures Pending(callers) == 0
  {
    if callers == [] {
    } else {
      NonePending(callers[1..]);
    }
  }

  /**
    With P concurrent callers and no read errors the counter never exceeds maxFailures + P, in any run with any
    expiries.
   */
  lemma OvershootBound(callers: nat, steps: seq<Step>, s: State, maxFailures: nat)
    requires Run(Start(callers), steps, s, maxFailures) && NoReadErrors(steps)
    ensures Count(s) <= maxFailures + callers
  {
    NonePending(Start(callers).callers);
    RunWithin(Start(callers), steps, s, maxFailures);
  }

  // ---------- the bound is reached ----------

  lemma {:induction false} RunAppend(s: State, first: seq<Step>, mid: State, second: seq<Step>, s': State,
                                     maxFailures: int)
    requires Run(s, first, mid, maxFailures) && Run(mid, second, s', maxFailures)
    ensures Run(s, first + second, s', maxFailures)
    decreases |first|
  {
    if first == [] {
      assert first + second == second;
    } else {
      RunAppend(Apply(s, first[0], maxFailures), first[1..], mid, second, s', maxFailures);
      assert (first + second)[1..] == first[1..] + second;
    }
  }

  /** Caller i checks, fetches, fails and counts, all before anyone else moves. */
  lemma OneFailure(s: State, i: nat, maxFailures: int) returns (steps: seq<Step>)
    requires At(s, i, Idle) && !Blocked(s, maxFailures)
    ensures NoReadErrors(steps) && Run(s, steps, s.(count := Some(Count(s) + 1), expires := true), maxFailures)
  {
    steps := [Check(i), StartFetch(i), FetchFails(i), Incr(i), Expire(i)];
    var s1 := Goto(s, i, Passed);
    var s2 := Goto(s1, i, Fetching);
    var s3 := Goto(s2, i, Failed);
    var s4 := Goto(s3, i, Counted).(count := Some(Count(s) + 1));
    var s5 := Goto(s4, i, Idle).(expires := true);
    assert s5 == s.(count := Some(Count(s) + 1), expires := true);
    assert Run(s4, steps[4..], s5, maxFailures) by { assert steps[4..] == [Expire(i)] && steps[4..][1..] == []; }
    assert steps[3..][1..] == steps[4..] && steps[2..][1..] == steps[3..] && steps[1..][1..] == steps[2..];
    assert Run(s3, steps[3..], s5, maxFailures);
    assert Run(s2, steps[2..], s5, maxFailures);
    assert Run(s1, steps[1..], s5, maxFailures);
  }

  /** One caller alone can bring the counter up to the limit. */
  lemma {:induction false} ReachCount(callers: nat, n: nat, maxFailures: nat) returns (steps: seq<Step>, s: State)
    requires callers > 0 && n <= maxFailures
    ensures Run(Start(callers), steps, s, maxFailures) && NoReadErrors(steps)
    ensures Count(s) == n && s.callers == Start(callers).callers
  {
    if n == 0 {
      steps, s := [], Start(callers);
    } else {
      var steps1, s1 := ReachCount(callers, n - 1, maxFailures);
      var more := OneFailure(s1, 0, maxFailures);
      steps, s := steps1 + more, s1.(count := Some(Count(s1) + 1), expires := true);
      RunAppend(Start(callers), steps1, s1, more, s, maxFailures);
    }
  }

  /** The first n callers all get past the check and into a failed fetch while the counter stays put. */
  lemma {:induction false} AllFail(s: State, n: nat, maxFailures: int) returns (steps: seq<Step>, s': State)
    requires n <= |s.callers| && !Blocked(s, maxFailures)
    requires forall i :: 0 <= i < |s.callers| ==> s.callers[i] == Idle
    ensures Run(s, steps, s', maxFailures) && NoReadErrors(steps)
    ensures s'.count == s.count && |s'.callers| == |s.callers|
    ensures forall i :: 0 <= i < |s.callers| ==> s'.callers[i] == if i < n then Failed else Idle
  {
    if n == 0 {
      steps, s' := [], s;
    } else {
      var steps1, s1 := AllFail(s, n - 1, maxFailures);
      var i := n - 1;
      var more := [Check(i), StartFetch(i), FetchFails(i)];
      s' := Goto(s1, i, Failed);
      var a, b := Goto(s1, i, Passed), Goto(s1, i, Fetching);
      assert Goto(a, i, Fetching) == b && Goto(b, i, Failed) == s';
      assert more[1..][1..] == more[2..] && more[2..][1..] == [];
      assert Run(b, more[2..], s', maxFailures);
      assert Run(a, more[1..], s', maxFailures);
      steps := steps1 + more;
      RunAppend(s, steps1, s1, more, s', maxFailures);
    }
  }

  lemma {:induction false} AllCount(s: State, n: nat, maxFailures: int) returns (steps: seq<Step>, s': State)
    requires n <= |s.callers| && forall i :: 0 <= i < n ==> s.callers[i] == Failed
    ensures Run(s, steps, s', maxFailures) && NoReadErrors(steps) && Count(s') == Count(s) + n
    decreases n
  {
    if n == 0 {
      steps, s' := [], s;
    } else {
      var s1 := Apply(s, Incr(n - 1), maxFailures);
      var steps1;
      steps1, s' := AllCount(s1, n - 1, maxFailures);
      steps := [Incr(n - 1)] + steps1;
    }
  }

  /** The bound is tight: for every limit and every number of callers some run reaches it. */
  lemma OvershootReached(callers: nat, maxFailures: nat) returns (steps: seq<Step>, s: State)
    requires callers > 0
    ensures Run(Start(callers), steps, s, maxFailures) && NoReadErrors(steps) && Count(s) == maxFailures + callers
  {
    var steps1, s1 := ReachCount(callers, maxFailures, maxFailures);
    var steps2, s2 := AllFail(s1, callers, maxFailures);
    var steps3, s3 := AllCount(s2, callers, maxFailures);
    RunAppend(Start(callers), steps1, s1, steps2, s2, maxFailures);
    RunAppend(Start(callers), steps1 + steps2, s2, steps3, s3, maxFailures);
    steps, s := steps1 + steps2 + steps3, s3;
  }

  // ---------- fetches above the limit ----------

  /** A caller may start its fetch although the counter is above the limit by now. */
  ghost predicate StartsAboveLimit(callers: nat, maxFailures: nat) {
    exists steps, s, i :: Run(Start(callers), steps, s, maxFailures) && NoReadErrors(steps)
      && Enabled(s, StartFetch(i)) && Blocked(s, maxFailures)
  }

  /** A lone caller: past the check the counter is within the limit. */
  predicate Solo(s: State, maxFailures: int) {
    |s.callers| <= 1 && forall i :: 0 <= i < |s.callers| && s.callers[i].Passed? ==> !Blocked(s, maxFailures)
  }

  lemma {:induction false} RunSolo(s: State, steps: seq<Step>, s': State, maxFailures: int)
    requires Solo(s, maxFailures) && Run(s, steps, s', maxFailures) && NoReadErrors(steps)
    ensures Solo(s', maxFailures)
    decreases |steps|
  {
    if steps == [] {
    } else {
      RunSolo(Apply(s, steps[0], maxFailures), steps[1..], s', maxFailures);
    }
  }

  /** One caller passes the check at the limit; another fails and counts; the first then fetches above it. */
  lemma TwoCallersOvertake(callers: nat, maxFailures: nat)
    requires callers >= 2
    ensures StartsAboveLimit(callers, maxFailures)
  {
    var start := Start(callers);
    var steps1, s1 := ReachCount(callers, maxFailures, maxFailures);
    var s2 := Apply(s1, Check(1), maxFailures);
    RunAppend(start, steps1, s1, [Check(1)], s2, maxFailures);
    var steps2 := steps1 + [Check(1)];
    var more := OneFailure(s2, 0, maxFailures);
    var s3 := s2.(count := Some(Count(s2) + 1), expires := true);
    RunAppend(start, steps2, s2, more, s3, maxFailures);
    assert NoReadErrors(steps2 + more) && Enabled(s3, StartFetch(1));
  }

  /**
    The check and the fetch are separate steps: some fetch can start above the limit exactly when there are two callers
    or more.
   */
  lemma FetchAboveLimitExactly(callers: nat, maxFailures: nat)
    ensures StartsAboveLimit(callers, maxFailures) <==> callers >= 2
  {
    if callers >= 2 {
      TwoCallersOvertake(callers, maxFailures);
    } else if StartsAboveLimit(callers, maxFailures) {
      var steps, s, i :| Run(Start(callers), steps, s, maxFailures) && NoReadErrors(steps)
        && Enabled(s, StartFetch(i)) && Blocked(s, maxFailures);
      RunSolo(Start(callers), steps, s, maxFailures);
    }
  }

  // ---------- a counter that never expires ----------

  /** If no EXPIRE ever reaches the key and no caller is past the check, a blocked domain stays blocked for good. */
  lemma {:induction false} BlockedForEver(s: State, steps: seq<Step>, s': State, maxFailures: int)
    requires Blocked(s, maxFailures) && !s.expires && forall i :: 0 <= i < |s.callers| ==> s.callers[i] == Idle
    requires Run(s, steps, s', maxFailures) && NoReadErrors(steps)
    ensures s' == s
    decreases |steps|
  {
    if steps == [] {
    } else {
      BlockedForEver(Apply(s, steps[0], maxFailures), steps[1..], s', maxFailures);
    }
  }

  predicate AllIdle(s: State) {
    forall i :: 0 <= i < |s.callers| ==> s.callers[i] == Idle
  }

  /** With nobody past the check, a blocked domain can be unblocked if and only if its counter has a time to live. */
  lemma UnblocksExactly(s: State, maxFailures: int)
    requires Blocked(s, maxFailures) && AllIdle(s)
    ensures (exists steps, s' :: Run(s, steps, s', maxFailures) && NoReadErrors(steps) && !Blocked(s', maxFailures))
      <==> s.expires
  {
    if s.expires {
      var steps, s' := [KeyExpires], Apply(s, KeyExpires, maxFailures);
      assert steps[1..] == [];
      assert Run(s, steps, s', maxFailures) && NoReadErrors(steps) && !Blocked(s', maxFailures);
    } else if steps, s' :| Run(s, steps, s', maxFailures) && NoReadErrors(steps) && !Blocked(s', maxFailures) {
      BlockedForEver(s, steps, s', maxFailures);
      assert false;
    }
  }

  /** The caller's INCR goes through, but its EXPIRE does not. */
  lemma OneLostExpiry(s: State, i: nat, maxFailures: int) returns (steps: seq<Step>)
    requires At(s, i, Idle) && !Blocked(s, maxFailures)
    ensures NoReadErrors(steps) && Run(s, steps, s.(count := Some(Count(s) + 1)), maxFailures)
  {
    steps := [Check(i), StartFetch(i), FetchFails(i), Incr(i), ExpireError(i)];
    var s1 := Goto(s, i, Passed);
    var s2 := Goto(s1, i, Fetching);
    var s3 := Goto(s2, i, Failed);
    var s4 := Goto(s3, i, Counted).(count := Some(Count(s) + 1));
    var s5 := Goto(s4, i, Idle);
    assert s5 == s.(count := Some(Count(s) + 1));
    assert Run(s4, steps[4..], s5, maxFailures) by { assert steps[4..] == [ExpireError(i)] && steps[4..][1..] == []; }
    assert steps[3..][1..] == steps[4..] && steps[2..][1..] == steps[3..] && steps[1..][1..] == steps[2..];
    assert Run(s3, steps[3..], s5, maxFailures);
    assert Run(s2, steps[2..], s5, maxFailures);
    assert Run(s1, steps[1..], s5, maxFailures);
  }

  /** Such a counter can be reached, for every limit and any callers: by failures none of whose EXPIRE goes through. */
  lemma {:induction false} ReachWithoutExpiry(callers: nat, n: nat, maxFailures: nat)
    returns (steps: seq<Step>, s: State)
    requires callers > 0 && n <= maxFailures + 1
    ensures Run(Start(callers), steps, s, maxFailures) && NoReadErrors(steps)
    ensures Count(s) == n && !s.expires && AllIdle(s) && |s.callers| == callers
    ensures n == maxFailures + 1 ==> Blocked(s, maxFailures)
  {
    if n == 0 {
      steps, s := [], Start(callers);
    } else {
      var steps1, s1 := ReachWithoutExpiry(callers, n - 1, maxFailures);
      var more := OneLostExpiry(s1, 0, maxFailures);
      steps, s := steps1 + more, s1.(count := Some(Count(s1) + 1));
      RunAppend(Start(callers), steps1, s1, more, s, maxFailures);
    }
  }
}
