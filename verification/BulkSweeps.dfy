/**
  What a loop of limited batches can do, whatever rows LIMIT chooses: the picks of its batches as sets of ids
  (the loops of internal/jobs/bulk_action.go).
 */
module BulkSweeps {
  import opened Prelude

  datatype Id = Id(uuid: string)

  /**
    Whether a row stops matching once it is picked, and whether the loop ends with a short batch or with an empty one.
   */
  datatype Rule = Rule(consuming: bool, untilShort: bool)

  function Union(picks: seq<set<Id>>): set<Id> {
    if picks == [] then {} else Union(picks[..|picks| - 1]) + picks[|picks| - 1]
  }

  /** The rows reported: a row counts once for each batch that picked it. */
  function Size(picks: seq<set<Id>>): nat {
    if picks == [] then 0 else Size(picks[..|picks| - 1]) + |picks[|picks| - 1]|
  }

  function Left(eligible: set<Id>, picks: seq<set<Id>>, rule: Rule): set<Id> {
    if rule.consuming then eligible - Union(picks) else eligible
  }

  function LimitAfter(picks: seq<set<Id>>, batchSize: nat, total: nat): int {
    Min(batchSize, total - Size(picks))
  }

  /** The last batch made the loop end. */
  predicate Stopped(picks: seq<set<Id>>, batchSize: nat, total: nat, rule: Rule) {
    && picks != []
    && var last := picks[|picks| - 1];
       if rule.untilShort then |last| < LimitAfter(picks[..|picks| - 1], batchSize, total) else last == {}
  }

  predicate MayPick(pick: set<Id>, eligible: set<Id>, picks: seq<set<Id>>, batchSize: nat, total: nat, rule: Rule) {
    && Size(picks) < total && !Stopped(picks, batchSize, total, rule)
    && pick <= Left(eligible, picks, rule)
    && |pick| == Min(LimitAfter(picks, batchSize, total), |Left(eligible, picks, rule)|)
  }

  /** The picks of the loop so far: each batch takes any rows left, as many as there are up to its limit. */
  predicate Sweep(eligible: set<Id>, picks: seq<set<Id>>, batchSize: nat, total: nat, rule: Rule)
    decreases |picks|
  {
    picks == []
    || (var before := picks[..|picks| - 1];
        Sweep(eligible, before, batchSize, total, rule)
        && MayPick(picks[|picks| - 1], eligible, before, batchSize, total, rule))
  }

  predicate Complete(eligible: set<Id>, picks: seq<set<Id>>, batchSize: nat, total: nat, rule: Rule) {
    Sweep(eligible, picks, batchSize, total, rule) && (Size(picks) >= total || Stopped(picks, batchSize, total, rule))
  }

  lemma SweepStep(eligible: set<Id>, picks: seq<set<Id>>, pick: set<Id>, batchSize: nat, total: nat, rule: Rule)
    requires Sweep(eligible, picks, batchSize, total, rule) && MayPick(pick, eligible, picks, batchSize, total, rule)
    ensures Sweep(eligible, picks + [pick], batchSize, total, rule)
    ensures Union(picks + [pick]) == Union(picks) + pick && Size(picks + [pick]) == Size(picks) + |pick|
    ensures Stopped(picks + [pick], batchSize, total, rule)
      <==> if rule.untilShort then |pick| < LimitAfter(picks, batchSize, total) else pick == {}
  {
    assert (picks + [pick])[..|picks|] == picks;
  }

  /** Rows picked are eligible, and no more are picked than are reported, nor reported than asked for. */
  lemma {:induction false} SweepFacts(eligible: set<Id>, picks: seq<set<Id>>, batchSize: nat, total: nat, rule: Rule)
    requires Sweep(eligible, picks, batchSize, total, rule)
    ensures Union(picks) <= eligible && |Union(picks)| <= Size(picks) <= total
    ensures rule.consuming ==> |Union(picks)| == Size(picks)
    ensures forall i :: 0 <= i < |picks| ==> |picks[i]| <= batchSize
    decreases |picks|
  {
    if picks == [] {
    } else {
      var before, last := picks[..|picks| - 1], picks[|picks| - 1];
      SweepFacts(eligible, before, batchSize, total, rule);
      SubsetCard(last, Union(picks));
      assert Union(picks) - last <= Union(before);
      SubsetCard(Union(picks) - last, Union(before));
      if rule.consuming { assert Union(picks) - last == Union(before); }
      forall i | 0 <= i < |picks| ensures |picks[i]| <= batchSize {
        assert i < |before| ==> picks[i] == before[i];
      }
    }
  }

  /** The first batch alone picks as many rows as fit in it. */
  lemma {:induction false} FirstBatch(eligible: set<Id>, picks: seq<set<Id>>, batchSize: nat, total: nat, rule: Rule)
    requires Sweep(eligible, picks, batchSize, total, rule) && picks != []
    ensures |Union(picks)| >= Min(Min(batchSize, total), |eligible|)
    decreases |picks|
  {
    var before := picks[..|picks| - 1];
    if before == [] {
      assert Union(before) == {} && Size(before) == 0;
      assert Union(picks) == picks[0] && Left(eligible, before, rule) == eligible;
    } else {
      FirstBatch(eligible, before, batchSize, total, rule);
      SubsetCard(Union(before), Union(picks));
    }
  }

  /** A loop that ends with a short batch ends after the first one, or never comes up short. */
  lemma {:induction false} ShortAtOnce(eligible: set<Id>, picks: seq<set<Id>>, batchSize: nat, total: nat)
    requires Sweep(eligible, picks, batchSize, total, Rule(false, true)) && picks != []
    ensures if Stopped(picks, batchSize, total, Rule(false, true))
            then Size(picks) == |eligible| < Min(batchSize, total) else |eligible| >= Min(batchSize, total)
    decreases |picks|
  {
    var before := picks[..|picks| - 1];
    if before == [] {
      assert Size(before) == 0 && Size(picks) == |picks[0]|;
    } else {
      ShortAtOnce(eligible, before, batchSize, total);
    }
  }

  /** What a bulk loop over rows that go on matching reports, when it ends with a short batch. */
  function Reported(batchSize: nat, total: nat, eligible: nat): nat {
    if eligible < Min(batchSize, total) then eligible else total
  }

  /**
    The exact effect of a complete loop. If picked rows stop matching, exactly min(total, eligible) rows are picked,
    each once; otherwise `total` is reported as soon as a row matches (or, ending with a short batch, all that fit in
    one).
   */
  lemma CompleteFacts(eligible: set<Id>, picks: seq<set<Id>>, batchSize: nat, total: nat, rule: Rule)
    requires batchSize > 0 && Complete(eligible, picks, batchSize, total, rule)
    ensures |Union(picks)| >= Min(Min(batchSize, total), |eligible|)
    ensures rule.consuming && !rule.untilShort ==> |Union(picks)| == Size(picks) == Min(total, |eligible|)
    ensures !rule.consuming && !rule.untilShort ==> Size(picks) == if eligible == {} then 0 else total
    ensures !rule.consuming && rule.untilShort ==> Size(picks) == Reported(batchSize, total, |eligible|)
  {
    SweepFacts(eligible, picks, batchSize, total, rule);
    SubsetCard(Union(picks), eligible);
    if picks != [] {
      FirstBatch(eligible, picks, batchSize, total, rule);
      var before := picks[..|picks| - 1];
      SweepFacts(eligible, before, batchSize, total, rule);
      if rule == Rule(false, true) { ShortAtOnce(eligible, picks, batchSize, total); }
      if rule == Rule(true, false) && Size(picks) < total {
        assert |eligible - Union(before)| == 0;
        SubsetCard(Union(before), eligible);
      }
      if rule == Rule(false, false) && Size(picks) < total { assert |eligible| == 0; }
      if rule == Rule(false, false) && eligible == {} { EmptyReportsNothing(picks, batchSize, total); }
    }
  }

  lemma {:induction false} EmptyReportsNothing(picks: seq<set<Id>>, batchSize: nat, total: nat)
    requires Sweep({}, picks, batchSize, total, Rule(false, false))
    ensures Size(picks) == 0
    decreases |picks|
  {
    if picks == [] {
    } else {
      EmptyReportsNothing(picks[..|picks| - 1], batchSize, total);
    }
  }

  // ---------- when the report counts rows ----------

  lemma {:induction false} SubsetOfSize(s: set<Id>, n: nat) returns (t: set<Id>)
    requires n <= |s|
    ensures t <= s && |t| == n
    decreases n
  {
    if n == 0 {
      t := {};
    } else {
      t := SubsetOfSize(s, n - 1);
      assert s == t + (s - t);
      var x :| x in s - t;
      t := t + {x};
    }
  }

  /** Every loop over rows that go on matching can be run to its end, and double counting never goes away. */
  lemma {:induction false} Finish(eligible: set<Id>, picks: seq<set<Id>>, batchSize: nat, total: nat, rule: Rule)
    returns (all: seq<set<Id>>)
    requires batchSize > 0 && !rule.consuming && Sweep(eligible, picks, batchSize, total, rule)
    ensures Complete(eligible, all, batchSize, total, rule)
    ensures Size(all) - |Union(all)| >= Size(picks) - |Union(picks)|
    decreases total - Size(picks)
  {
    if Size(picks) >= total || Stopped(picks, batchSize, total, rule) {
      all := picks;
    } else {
      var pick := SubsetOfSize(eligible, Min(LimitAfter(picks, batchSize, total), |eligible|));
      SweepStep(eligible, picks, pick, batchSize, total, rule);
      UnionGrows(picks, pick);
      if pick == {} {
        all := picks + [pick];
      } else {
        SweepFacts(eligible, picks + [pick], batchSize, total, rule);
        all := Finish(eligible, picks + [pick], batchSize, total, rule);
      }
    }
  }

  lemma UnionGrows(picks: seq<set<Id>>, pick: set<Id>)
    ensures |Union(picks + [pick])| <= |Union(picks)| + |pick|
  {
    assert (picks + [pick])[..|picks|] == picks;
    var u := Union(picks);
    assert u + pick == u + (pick - u);
    SubsetCard(pick - u, pick);
  }

  /** One batch is enough, or nothing matches. */
  predicate OneBatchSuffices(eligible: nat, batchSize: nat, total: nat, rule: Rule) {
    || eligible == 0
    || if rule.untilShort then total <= batchSize || eligible < batchSize else total <= Min(batchSize, eligible)
  }

  lemma OnePick(picks: seq<set<Id>>)
    requires |picks| == 1
    ensures Size(picks) == |picks[0]| && Union(picks) == picks[0]
  {
    assert picks[..0] == [];
  }

  lemma {:induction false} OneBatch(eligible: set<Id>, picks: seq<set<Id>>, batchSize: nat, total: nat, rule: Rule)
    requires !rule.consuming && eligible != {} && OneBatchSuffices(|eligible|, batchSize, total, rule)
    requires Sweep(eligible, picks, batchSize, total, rule)
    ensures |picks| <= 1
    decreases |picks|
  {
    if picks == [] {
    } else {
      var before := picks[..|picks| - 1];
      OneBatch(eligible, before, batchSize, total, rule);
      if |before| == 1 {
        OnePick(before);
        assert false;
      }
    }
  }

  /** Picking rows of the first batch again counts them twice. */
  lemma PickAgain(eligible: set<Id>, batchSize: nat, total: nat, rule: Rule) returns (picks: seq<set<Id>>)
    requires batchSize > 0 && !rule.consuming && !OneBatchSuffices(|eligible|, batchSize, total, rule)
    ensures Sweep(eligible, picks, batchSize, total, rule) && Size(picks) > |Union(picks)|
  {
    var none: seq<set<Id>> := [];
    var first := SubsetOfSize(eligible, Min(Min(batchSize, total), |eligible|));
    SweepStep(eligible, none, first, batchSize, total, rule);
    var second := SubsetOfSize(first, Min(LimitAfter([first], batchSize, total), |eligible|));
    assert none + [first] == [first];
    SweepStep(eligible, [first], second, batchSize, total, rule);
    picks := [first] + [second];
    assert Union(picks) == first;
  }

  /**
    For rows that go on matching, the number reported is sure to be the number of rows picked if and only if one batch
    is enough.
   */
  lemma ReportIsCountExactly(eligible: set<Id>, batchSize: nat, total: nat, rule: Rule)
    requires batchSize > 0 && !rule.consuming
    ensures (forall picks :: Complete(eligible, picks, batchSize, total, rule) ==> Size(picks) == |Union(picks)|)
      <==> OneBatchSuffices(|eligible|, batchSize, total, rule)
  {
    if OneBatchSuffices(|eligible|, batchSize, total, rule) {
      forall picks | Complete(eligible, picks, batchSize, total, rule) ensures Size(picks) == |Union(picks)| {
        SweepFacts(eligible, picks, batchSize, total, rule);
        if eligible == {} {
          CompleteFacts(eligible, picks, batchSize, total, rule);
        } else {
          OneBatch(eligible, picks, batchSize, total, rule);
          if |picks| == 1 { OnePick(picks); }
        }
      }
    } else {
      var picks := PickAgain(eligible, batchSize, total, rule);
      var all := Finish(eligible, picks, batchSize, total, rule);
      assert Complete(eligible, all, batchSize, total, rule) && Size(all) != |Union(all)|;
    }
  }
}
