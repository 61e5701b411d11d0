/**
  The score of a prioritized job, float64(priority)*1e12 + float64(now) (internal/bullmq/bullmq.go): when rounding
  leaves it alone, and which order it imposes.
 */
module QueueScores {
  import opened Prelude
  import opened JobQueue

  // ---------- float64 ----------

  function Scaled(m: nat, e: nat): nat {
    m * Pow2(e)
  }

  /** n has at most 53 significant bits. */
  ghost predicate Representable(n: nat) {
    exists m: nat, e: nat :: m < TWO53 && n == Scaled(m, e)
  }

  lemma HalfRepresentable(n: nat)
    requires n >= TWO53
    ensures Representable(n) <==> n % 2 == 0 && Representable(n / 2)
  {
    if Representable(n) {
      var m: nat, e: nat :| m < TWO53 && n == Scaled(m, e);
      assert n == 2 * Scaled(m, e - 1) by { assert m * (2 * Pow2(e - 1)) == 2 * (m * Pow2(e - 1)); }
    }
    if n % 2 == 0 && Representable(n / 2) {
      var m: nat, e: nat :| m < TWO53 && n / 2 == Scaled(m, e);
      assert Scaled(m, e + 1) == 2 * Scaled(m, e) by { assert m * (2 * Pow2(e)) == 2 * (m * Pow2(e)); }
    }
  }

  lemma SmallRepresentable(n: nat)
    requires n < TWO53
    ensures Representable(n)
  {
    assert n == Scaled(n, 0);
  }

  lemma {:induction false} RoundExactly(n: nat, sticky: bool)
    requires n >= TWO53
    ensures RoundBits(n, sticky) == n <==> Representable(n)
  {
    HalfRepresentable(n);
    if n < 2 * TWO53 {
      SmallRepresentable(n / 2);
    } else {
      RoundExactly(n / 2, sticky || n % 2 == 1);
    }
  }

  /** Rounding leaves exactly the representable numbers alone. */
  lemma Float64Exactly(n: nat)
    ensures Float64(n) == n <==> Representable(n)
  {
    if n < TWO53 { SmallRepresentable(n); } else { RoundExactly(n, false); }
  }

  /** What stands for the bits dropped below n: half a unit, if any of them was 1. */
  function Twice(n: nat, sticky: bool): nat {
    2 * n + if sticky then 1 else 0
  }

  /** m is no nearer to the number that is rounded than RoundBits is. */
  ghost predicate NoNearer(m: nat, n: nat, sticky: bool)
    requires n >= TWO53
  {
    && (m > RoundBits(n, sticky) ==> m + RoundBits(n, sticky) >= Twice(n, sticky))
    && (m < RoundBits(n, sticky) ==> m + RoundBits(n, sticky) <= Twice(n, sticky))
  }

  lemma HalvesNearest(n: nat, sticky: bool, m: nat)
    requires n >= 2 * TWO53 && m % 2 == 0
    requires NoNearer(m / 2, n / 2, sticky || n % 2 == 1)
    requires m / 2 >= TWO53 && (m / 2) % 2 == 0
    ensures NoNearer(m, n, sticky)
  {
    RoundedIsEven(n / 2, sticky || n % 2 == 1);
  }

  /** Numbers below a power of two that is no nearer are no nearer either. */
  lemma LowerNoNearer(m: nat, n: nat, sticky: bool)
    requires n >= 2 * TWO53 > m && NoNearer(2 * TWO53, n, sticky)
    ensures NoNearer(m, n, sticky)
  {
    RoundedIsLarge(n, sticky);
  }

  lemma TwoPowerRepresentable()
    ensures Representable(2 * TWO53)
  {
    SmallRepresentable(TWO53 / 2);
    HalfRepresentable(TWO53);
    HalfRepresentable(2 * TWO53);
  }

  /** Rounding goes to a nearest number of at most 53 significant bits. */
  lemma {:induction false} RoundNearest(n: nat, sticky: bool, m: nat)
    requires n >= TWO53 && m >= TWO53 && Representable(m)
    ensures NoNearer(m, n, sticky)
    decreases n, if m < 2 * TWO53 then 1 else 0
  {
    HalfRepresentable(m);
    if n < 2 * TWO53 {
    } else if m < 2 * TWO53 {
      TwoPowerRepresentable();
      RoundNearest(n, sticky, 2 * TWO53);
      LowerNoNearer(m, n, sticky);
    } else {
      RoundNearest(n / 2, sticky || n % 2 == 1, m / 2);
      HalfRepresentable(m / 2);
      HalvesNearest(n, sticky, m);
    }
  }

  lemma {:induction false} RoundedRepresentable(n: nat, sticky: bool)
    requires n >= TWO53
    ensures Representable(RoundBits(n, sticky))
  {
    var r := RoundBits(n, sticky);
    RoundedIsLarge(n, sticky);
    RoundedIsEven(n, sticky);
    HalfRepresentable(r);
    if n >= 2 * TWO53 {
      RoundedRepresentable(n / 2, sticky || n % 2 == 1);
    } else if r < 2 * TWO53 {
      SmallRepresentable(r / 2);
    } else {
      TwoPowerRepresentable();
    }
  }

  function Distance(a: nat, b: nat): nat {
    if a >= b then a - b else b - a
  }

  /** float64(n) is a number of at most 53 significant bits, and none is nearer to n. */
  lemma Float64Nearest(n: nat, m: nat)
    requires Representable(m)
    ensures Representable(Float64(n)) && Distance(Float64(n), n) <= Distance(m, n)
  {
    if n < TWO53 { SmallRepresentable(n); } else { RoundedRepresentable(n, false); }
    if n >= TWO53 {
      if m >= TWO53 {
        RoundNearest(n, false, m);
      } else {
        SmallRepresentable(TWO53 / 2);
        HalfRepresentable(TWO53);
        RoundNearest(n, false, TWO53);
        RoundedIsLarge(n, false);
      }
    }
  }

  lemma {:induction false} RoundedIsLarge(n: nat, sticky: bool)
    requires n >= TWO53
    ensures RoundBits(n, sticky) >= TWO53
    ensures n < 2 * TWO53 ==> RoundBits(n, sticky) <= 2 * TWO53
    ensures n >= 2 * TWO53 ==> RoundBits(n, sticky) >= 2 * TWO53
  {
    if n >= 2 * TWO53 { RoundedIsLarge(n / 2, sticky || n % 2 == 1); }
  }

  /** A larger number, or the same one with more dropped bits, does not round to less. */
  lemma {:induction false} RoundMonotone(n: nat, s: bool, m: nat, t: bool)
    requires TWO53 <= n && (n < m || (n == m && (s ==> t)))
    ensures RoundBits(n, s) <= RoundBits(m, t)
    decreases n
  {
    if n < 2 * TWO53 {
      RoundedIsLarge(n, s);
      RoundedIsLarge(m, t);
    } else {
      RoundMonotone(n / 2, s || n % 2 == 1, m / 2, t || m % 2 == 1);
    }
  }

  lemma Float64Monotone(n: nat, m: nat)
    requires n <= m
    ensures Float64(n) <= Float64(m)
  {
    if m >= TWO53 { RoundedIsLarge(m, false); }
    if n >= TWO53 { RoundMonotone(n, false, m, false); }
  }

  /** Above 2^53 an odd number rounds like one of its neighbours. */
  lemma OddCollapses(n: nat)
    requires n > TWO53 && n % 2 == 1
    ensures Float64(n) == Float64(n - 1) || Float64(n) == Float64(n + 1)
  {
    var h := n / 2;
    assert n == 2 * h + 1;
    if n >= 2 * TWO53 {
      assert Float64(n) == 2 * RoundBits(h, true);
      assert Float64(n - 1) == 2 * RoundBits(h, false);
      assert Float64(n + 1) == 2 * RoundBits(h + 1, false);
      StickyCollapses(h);
    } else {
      assert Float64(n - 1) == n - 1;
      assert Float64(n + 1) == n + 1 by {
        if n + 1 == 2 * TWO53 { assert RoundBits(TWO53, false) == TWO53; }
      }
    }
  }

  lemma StickyCollapses(h: nat)
    requires h >= TWO53
    ensures RoundBits(h, true) == RoundBits(h, false) || RoundBits(h, true) == RoundBits(h + 1, false)
  {
    if h >= 2 * TWO53 && h % 2 == 0 {
      assert RoundBits(h, true) == 2 * RoundBits(h / 2, true);
      assert (h + 1) / 2 == h / 2;
    }
  }

  lemma RoundedIsEven(n: nat, sticky: bool)
    requires n >= TWO53
    ensures RoundBits(n, sticky) % 2 == 0
  {}

  // ---------- the score ----------

  /** priority * 10^12 as the program computes it. */
  function Base(priority: nat): nat {
    Float64(Float64(priority) * PRIORITY_UNIT)
  }

  lemma ScoreIsRoundedSum(priority: nat, now: nat)
    requires now <= TWO53
    ensures Score(priority, now) == Float64(Base(priority) + now)
  {
    assert Float64(now) == now;
  }

  /** priority * 10^12 is itself exact if and only if it has at most 53 significant bits. */
  lemma BaseExactly(priority: nat)
    requires priority <= TWO53
    ensures Base(priority) == priority * PRIORITY_UNIT <==> Representable(priority * PRIORITY_UNIT)
  {
    assert Float64(priority) == priority;
    Float64Exactly(priority * PRIORITY_UNIT);
  }

  /**
    The addition is exact if and only if its sum has at most 53 significant bits; so where priority * 10^12 is exact,
    the score is priority * 10^12 + now if and only if that sum has.
   */
  lemma ScoreExactly(priority: nat, now: nat)
    requires priority <= TWO53 && now <= TWO53
    ensures Score(priority, now) == Base(priority) + now <==> Representable(Base(priority) + now)
    ensures Representable(priority * PRIORITY_UNIT) ==>
      (Score(priority, now) == priority * PRIORITY_UNIT + now <==> Representable(priority * PRIORITY_UNIT + now))
  {
    ScoreIsRoundedSum(priority, now);
    BaseExactly(priority);
    Float64Exactly(Base(priority) + now);
  }

  /** Rounding never turns the order around: a job of no smaller priority number queued no earlier scores no less. */
  lemma ScoreMonotone(p1: nat, t1: nat, p2: nat, t2: nat)
    requires p1 <= p2 && t1 <= t2
    ensures Score(p1, t1) <= Score(p2, t2)
  {
    Float64Monotone(p1, p2);
    Float64Monotone(Float64(p1) * PRIORITY_UNIT, Float64(p2) * PRIORITY_UNIT);
    Float64Monotone(t1, t2);
    Float64Monotone(Base(p1) + Float64(t1), Base(p2) + Float64(t2));
  }

  ghost predicate TimesDistinct(priority: nat, until: nat) {
    forall t1: nat, t2: nat :: t1 < t2 <= until ==> Score(priority, t1) < Score(priority, t2)
  }

  /** Two times a millisecond apart around 2^53 share a score. */
  lemma CrossingCollapses(priority: nat)
    requires 0 < Base(priority) <= TWO53
    ensures Score(priority, TWO53 - Base(priority)) == Score(priority, TWO53 - Base(priority) + 1)
  {
    ScoreIsRoundedSum(priority, TWO53 - Base(priority));
    ScoreIsRoundedSum(priority, TWO53 - Base(priority) + 1);
    assert RoundBits(TWO53, false) == TWO53 && RoundBits(TWO53 + 1, false) == TWO53;
  }

  lemma TripleCollapses(base: nat)
    requires base > TWO53 && base % 2 == 0
    ensures Float64(base + 1) == Float64(base) || Float64(base + 1) == Float64(base + 2)
  {
    OddCollapses(base + 1);
  }

  /** Above 2^53 the second of three times in a row shares its score with a neighbour. */
  lemma AboveCollapses(priority: nat)
    requires Base(priority) > TWO53
    ensures Score(priority, 1) == Score(priority, 0) || Score(priority, 1) == Score(priority, 2)
  {
    BaseIsEven(priority);
    ThreeScores(priority, Base(priority));
    TripleCollapses(Base(priority));
  }

  lemma ThreeScores(priority: nat, base: nat)
    requires base == Base(priority)
    ensures Score(priority, 0) == Float64(base)
    ensures Score(priority, 1) == Float64(base + 1)
    ensures Score(priority, 2) == Float64(base + 2)
  {
    ScoreIsRoundedSum(priority, 0);
    ScoreIsRoundedSum(priority, 1);
    ScoreIsRoundedSum(priority, 2);
  }

  lemma BaseIsEven(priority: nat)
    requires Base(priority) > TWO53
    ensures Base(priority) % 2 == 0
  {
    RoundedIsEven(Float64(priority) * PRIORITY_UNIT, false);
  }

  /**
    Jobs of one priority queued at different times get different scores if and only if their scores stay within 2^53.
   */
  lemma TimesDistinctExactly(priority: nat, until: nat)
    requires 2 <= until <= TWO53
    ensures TimesDistinct(priority, until) <==> Base(priority) + until <= TWO53
  {
    var base := Base(priority);
    if base + until <= TWO53 {
      forall t1: nat, t2: nat | t1 < t2 <= until ensures Score(priority, t1) < Score(priority, t2) {
        ScoreIsRoundedSum(priority, t1);
        ScoreIsRoundedSum(priority, t2);
      }
    } else if base <= TWO53 {
      var t: nat := TWO53 - base;
      CrossingCollapses(priority);
      assert t < t + 1 <= until;
    } else {
      AboveCollapses(priority);
      assert 0 < 1 <= until && 1 < 2 <= until;
    }
  }

  lemma SumsWithin(priority: nat, now: nat)
    requires priority * PRIORITY_UNIT + now <= TWO53
    ensures Score(priority, now) == priority * PRIORITY_UNIT + now
  {
    assert Float64(priority) == priority;
  }

  /** Scores are ordered like the sums that are rounded; they may coincide, but they are never inverted. */
  lemma SumsOrderScores(p1: nat, t1: nat, p2: nat, t2: nat)
    requires t1 <= TWO53 && t2 <= TWO53 && Base(p1) + t1 <= Base(p2) + t2
    ensures Score(p1, t1) <= Score(p2, t2)
  {
    ScoreIsRoundedSum(p1, t1);
    ScoreIsRoundedSum(p2, t2);
    Float64Monotone(Base(p1) + t1, Base(p2) + t2);
  }

  /**
    A smaller priority number goes first if and only if it is not queued 10^12 ms per priority step, or more, later.
    Beyond 2^53 a step is worth the difference of the rounded products, and the scores may also coincide.
   */
  lemma PriorityRespected(p1: nat, t1: nat, p2: nat, t2: nat)
    requires p1 < p2 && t1 <= TWO53 && t2 <= TWO53
    ensures p1 * PRIORITY_UNIT + t1 <= TWO53 && p2 * PRIORITY_UNIT + t2 <= TWO53 ==>
      (Score(p1, t1) < Score(p2, t2) <==> t1 - t2 < (p2 - p1) * PRIORITY_UNIT)
    ensures t1 - t2 <= Base(p2) - Base(p1) ==> Score(p1, t1) <= Score(p2, t2)
    ensures t1 - t2 >= Base(p2) - Base(p1) ==> Score(p1, t1) >= Score(p2, t2)
  {
    if p1 * PRIORITY_UNIT + t1 <= TWO53 && p2 * PRIORITY_UNIT + t2 <= TWO53 {
      SumsWithin(p1, t1);
      SumsWithin(p2, t2);
    }
    if Base(p1) + t1 <= Base(p2) + t2 { SumsOrderScores(p1, t1, p2, t2); }
    if Base(p2) + t2 <= Base(p1) + t1 { SumsOrderScores(p2, t2, p1, t1); }
  }

  // ---------- the priorities of the program ----------

  const TOP_PRIORITY: nat := 100

  /** getBullMQPriority. */
  function JobPriority(isRss: bool, isImport: bool, low: bool): nat {
    if isImport then TOP_PRIORITY
    else if isRss then if low then 10 else 5
    else if low then 5 else 1
  }

  /** Imports come last, a feed item behind another job as urgent, and a less urgent job behind a more urgent one. */
  lemma PrioritiesOrdered(isRss: bool, low: bool)
    ensures JobPriority(isRss, false, low) < JobPriority(isRss, true, low)
    ensures JobPriority(false, false, low) < JobPriority(true, false, low)
    ensures JobPriority(isRss, false, false) < JobPriority(isRss, false, true)
  {}

  /** With the priorities the program uses, every score is exact until the clock reaches 2^53 - 10^14 ms. */
  lemma ProgramScoresExact(isRss: bool, isImport: bool, low: bool, now: nat)
    requires now <= TWO53 - TOP_PRIORITY * PRIORITY_UNIT
    ensures var p := JobPriority(isRss, isImport, low); Score(p, now) == p * 1_000_000_000_000 + now
  {
    SumsWithin(JobPriority(isRss, isImport, low), now);
  }
}
