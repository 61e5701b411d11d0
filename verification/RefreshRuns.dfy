/** Sequences of refreshes of one subscription, each starting from the row the one before it left. */
module RefreshRuns {
  import opened Prelude
  import opened RefreshFeed

  /** Every date in the feed is a whole number of milliseconds after 1970. */
  predicate WholeMs(feed: Feed) {
    forall i :: 0 <= i < |feed.items| ==>
      && (feed.items[i].published.Some? ==> IsWholeMs(feed.items[i].published.value))
      && (feed.items[i].updated.Some? ==> IsWholeMs(feed.items[i].updated.value))
  }

  predicate IsWholeMs(t: int) {
    t >= MS && t % MS == 0
  }

  /** The refresh enqueues an item dated t, in the loop or as the fallback. */
  ghost predicate TakesDated(row: Row, r: Refresh, t: int)
    requires WellFormed(r)
  {
    match Process(row, r)
    case Skipped => false
    case Refreshed(accepted, fallback, _, _) =>
      || (exists k :: 0 <= k < |accepted|
            && accepted[k] < |r.feed.items| && Dated(r.feed.items[accepted[k]]) == Some(t))
      || (fallback.Some? && Dated(fallback.value) == Some(t))
  }

  /** A dated item that the loop accepts lies above the row's watermark and at or below the new one. */
  lemma AcceptedBetween(row: Row, r: Refresh, k: nat, t: int)
    requires WellFormed(r) && Process(row, r).Refreshed? && k < |Process(row, r).accepted|
    ensures Process(row, r).accepted[k] < |r.feed.items|
    ensures Dated(r.feed.items[Process(row, r).accepted[k]]) == Some(t) ==>
      && (row.mostRecentMs != 0 ==> t > row.mostRecentMs * MS)
      && Process(row, r).watermark.Some? && t <= Process(row, r).watermark.value
  {
    var n := |r.feed.items|;
    AfterItemsDescribes(r.feed.items, r.answers, row.mostRecentMs, r.fetchType, n);
    EligibleExact(r.feed.items, r.answers, row.mostRecentMs, r.fetchType, n);
    var e := Eligible(r.feed.items, r.answers, row.mostRecentMs, r.fetchType, n);
    assert e[k] in e;
  }

  /** No refresh enqueues more than 100 items, and the fallback is alone when it fires. */
  lemma AtMostAHundred(row: Row, r: Refresh)
    requires WellFormed(r) && Process(row, r).Refreshed?
    ensures |Process(row, r).accepted| <= MAX_ITEMS_PER_FEED
    ensures Process(row, r).fallback.Some? ==> Process(row, r).accepted == []
  {
    AfterItemsDescribes(r.feed.items, r.answers, row.mostRecentMs, r.fetchType, |r.feed.items|);
  }

  /**
    The fallback is enqueued exactly for a new subscription with some linked item, of which none was accepted and none
    failed.
   */
  lemma FallbackExactly(row: Row, r: Refresh)
    requires WellFormed(r) && Process(row, r).Refreshed?
    ensures var items, n := r.feed.items, |r.feed.items|;
      Process(row, r).fallback.Some? <==>
        && row.mostRecentMs == 0
        && (exists i :: 0 <= i < n && ItemLink(items[i]) != "")
        && Accepted(items, r.answers, 0, r.fetchType, n) == []
        && !SomeFailure(items, r.answers, 0, r.fetchType, n)
        && (LastValid(items, r.answers, n).Some? && SavesDirectly(LastValid(items, r.answers, n).value, r.fetchType)
            ==> r.fallbackOk)
  {
    var n := |r.feed.items|;
    AfterItemsDescribes(r.feed.items, r.answers, row.mostRecentMs, r.fetchType, n);
    LastValidHasLink(r.feed.items, r.answers, n);
  }

  // ---------- when a refresh does nothing ----------

  /** The feed says that it was built at time d: by its update date, or else by its publish date. */
  predicate BuiltAt(feed: Feed, d: int) {
    feed.updated == Some(d) || (feed.updated.None? && feed.published == Some(d))
  }

  predicate DatedAt(item: Item, t: int) {
    item.published == Some(t) || (item.published.None? && item.updated == Some(t))
  }

  /**
    A changed feed is skipped if and only if the subscription has a watermark and the feed was built no later than that.
   */
  lemma SkippedExactly(row: Row, r: Refresh)
    requires WellFormed(r) && r.feed.checksum != row.checksum
    ensures Process(row, r).Skipped? <==>
      row.mostRecentMs > 0 && exists d :: BuiltAt(r.feed, d) && d <= row.mostRecentMs * 1_000_000
  {
    if Process(row, r).Skipped? { assert BuiltAt(r.feed, BuildDate(r.feed).value); }
  }

  /**
    Skipping a changed feed misses no news: an item newer than the watermark can only be passed over in a feed that says
    it was built before that item.
   */
  lemma SkipMissesNothing(row: Row, r: Refresh, item: Item, t: int)
    requires WellFormed(r) && r.feed.checksum != row.checksum && item in r.feed.items && DatedAt(item, t)
    requires row.mostRecentMs * 1_000_000 < t && forall d :: BuiltAt(r.feed, d) ==> t <= d
    ensures Process(row, r).Refreshed?
  {
    SkippedExactly(row, r);
  }

  /** A refresh that is skipped takes nothing and leaves the row; so does any further one of the same feed. */
  lemma SkipChangesNothing(row: Row, r: Refresh, t: int)
    requires WellFormed(r)
    requires r.feed.checksum == row.checksum
      || (row.mostRecentMs > 0 && exists d :: BuiltAt(r.feed, d) && d <= row.mostRecentMs * 1_000_000)
    ensures Process(row, r).Skipped? && NextRow(row, r) == row && !TakesDated(row, r, t)
  {
    if r.feed.checksum != row.checksum { SkippedExactly(row, r); }
  }

  /**
    Once a refresh has written the row, the same feed is skipped from then on; if the UPDATE failed, the row is as it
    was and the feed is refreshed again.
   */
  lemma SameFeedAgain(row: Row, r: Refresh, r2: Refresh)
    requires WellFormed(r) && WellFormed(r2) && r2.feed == r.feed && Process(row, r).Refreshed?
    ensures Process(NextRow(row, r), r2).Skipped? <==> r.dbOk
    ensures r.dbOk ==> NextRow(NextRow(row, r), r2) == NextRow(row, r)
  {}

  // ---------- which items a refresh takes ----------

  /**
    Item i has a link of some kind, is new, was not saved recently, and can be saved: undated items are new, others are
    if they lie above the watermark (in a new subscription, within a day).
   */
  predicate Acceptable(row: Row, r: Refresh, i: nat)
    requires WellFormed(r) && i < |r.feed.items|
  {
    var item, a := r.feed.items[i], r.answers[i];
    var date := if item.published.Some? then item.published else item.updated;
    && (item.link != "" || (item.links != [] && item.links[0] != "") || item.guid != "")
    && (|| date.None?
        || (if row.mostRecentMs == 0 then date.value >= a.now - 24 * 3_600_000 * 1_000_000
            else date.value > row.mostRecentMs * 1_000_000))
    && !a.recent
    && (a.saveOk || (r.fetchType != "NEVER"
                     && (r.fetchType == "WHEN_EMPTY" ==> item.content == "" && item.description == "")))
  }

  /** A refresh accepts exactly the acceptable items, in feed order, until it has a hundred. */
  lemma AcceptedExactly(row: Row, r: Refresh, i: nat)
    requires WellFormed(r) && Process(row, r).Refreshed? && i < |r.feed.items|
    ensures var accepted := Process(row, r).accepted;
      && Increasing(accepted)
      && (i in accepted ==> Acceptable(row, r, i))
      && (Acceptable(row, r, i) && i !in accepted ==> |accepted| == 100 && forall j :: j in accepted ==> j < i)
  {
    var n := |r.feed.items|;
    AfterItemsDescribes(r.feed.items, r.answers, row.mostRecentMs, r.fetchType, n);
    EligibleExact(r.feed.items, r.answers, row.mostRecentMs, r.fetchType, n);
    AcceptableQualifies(row, r, i);
    FirstHundred(Eligible(r.feed.items, r.answers, row.mostRecentMs, r.fetchType, n), i);
  }

  lemma AcceptableQualifies(row: Row, r: Refresh, i: nat)
    requires WellFormed(r) && i < |r.feed.items|
    ensures Acceptable(row, r, i) <==> Qualifies(r.feed.items[i], r.answers[i], row.mostRecentMs, r.fetchType)
  {}

  lemma FirstHundred(e: seq<nat>, i: nat)
    requires Increasing(e)
    ensures var first := Take(e, MAX_ITEMS_PER_FEED);
      && Increasing(first) && (i in first ==> i in e)
      && (i in e && i !in first ==> |first| == 100 && forall j :: j in first ==> j < i)
  {
    var first := Take(e, MAX_ITEMS_PER_FEED);
    if i in e && i !in first {
      var k :| 0 <= k < |e| && e[k] == i;
      forall j | j in first ensures j < i { var l :| 0 <= l < |first| && first[l] == j; }
    }
  }

  /** The time that counts for an item: its publish date, else its update date, else the clock. */
  ghost predicate Counts(item: Item, now: int, t: int) {
    if item.published.Some? || item.updated.Some? then DatedAt(item, t) else t == now
  }

  /** What a refresh that accepts items stores: the greatest time of an accepted item, in whole milliseconds. */
  lemma WatermarkIsGreatest(row: Row, r: Refresh) returns (w: int, k: nat)
    requires WellFormed(r) && Process(row, r).Refreshed? && Process(row, r).accepted != [] && r.dbOk
    ensures k in Process(row, r).accepted && k < |r.feed.items| && Counts(r.feed.items[k], r.answers[k].now, w)
    ensures forall j, t ::
      j in Process(row, r).accepted && j < |r.feed.items| && Counts(r.feed.items[j], r.answers[j].now, t) ==> t <= w
    ensures NextRow(row, r) == Row(w / 1_000_000, r.feed.checksum)
  {
    var n := |r.feed.items|;
    AfterItemsDescribes(r.feed.items, r.answers, row.mostRecentMs, r.fetchType, n);
    var accepted := Process(row, r).accepted;
    w := Process(row, r).watermark.value;
    var m :| 0 <= m < |accepted| && w == PublishTime(r.feed.items[accepted[m]], r.answers[accepted[m]].now);
    k := accepted[m];
  }

  // ---------- the watermark over runs ----------

  /**
    The fallback is dated by an update that lies after the refresh itself; the watermark is then the time of the
    refresh.
   */
  predicate FallbackAhead(row: Row, r: Refresh, t: int)
    requires WellFormed(r)
  {
    match Process(row, r)
    case Skipped => false
    case Refreshed(_, fallback, _, _) =>
      fallback.Some? && fallback.value.published.None? && fallback.value.updated == Some(t) && t > r.refreshedAt
  }

  lemma FallbackDate(row: Row, r: Refresh, t: int)
    requires WellFormed(r) && WholeMs(r.feed) && Process(row, r).Refreshed?
    requires Process(row, r).fallback.Some? && Dated(Process(row, r).fallback.value) == Some(t)
    ensures row.mostRecentMs == 0 && t >= MS && t % MS == 0 && Process(row, r).accepted == []
    ensures Process(row, r).watermark
      == Some(if Process(row, r).fallback.value.published.Some? then t else r.refreshedAt)
  {
    var n := |r.feed.items|;
    AfterItemsDescribes(r.feed.items, r.answers, row.mostRecentMs, r.fetchType, n);
    LastValidIsFromFeed(r.feed.items, r.answers, n);
  }

  lemma {:induction false} LastValidIsFromFeed(items: seq<Item>, answers: seq<Answer>, n: nat)
    requires n <= |items| == |answers|
    ensures LastValid(items, answers, n).Some? ==>
      exists i :: 0 <= i < n && LastValid(items, answers, n).value == WithLink(items[i])
  {
    if n == 0 {
    } else {
      LastValidIsFromFeed(items, answers, n - 1);
      if LastValid(items, answers, n) == Some(WithLink(items[n - 1])) { assert 0 <= n - 1 < n; }
    }
  }

  /**
    Everything dated that a row-updating refresh takes lies above the old watermark and, unless ahead, not above the new
    one.
   */
  lemma TakenBetween(row: Row, r: Refresh, t: int)
    requires WellFormed(r) && WholeMs(r.feed) && TakesDated(row, r, t)
    ensures row.mostRecentMs != 0 ==> t > row.mostRecentMs * MS
    ensures r.dbOk ==> (t <= NextRow(row, r).mostRecentMs * MS <==> !FallbackAhead(row, r, t))
    ensures r.dbOk && !FallbackAhead(row, r, t) ==> NextRow(row, r).mostRecentMs >= 1
  {
    var o := Process(row, r);
    if o.fallback.Some? && Dated(o.fallback.value) == Some(t) {
      FallbackDate(row, r, t);
      if FallbackAhead(row, r, t) { RoundsBelow(r.refreshedAt); } else { RoundDown(t, o.watermark.value); }
    } else {
      var k :| 0 <= k < |o.accepted| && o.accepted[k] < |r.feed.items| && Dated(r.feed.items[o.accepted[k]]) == Some(t);
      AcceptedBetween(row, r, k, t);
      AtMostAHundred(row, r);
      RoundDown(t, o.watermark.value);
    }
  }

  lemma RoundsBelow(w: int)
    ensures (w / MS) * MS <= w
  {}

  lemma RoundDown(t: int, w: int)
    requires t <= w && t >= MS && t % MS == 0
    ensures t <= (w / MS) * MS && w / MS >= 1
  {
    assert t == (t / MS) * MS;
    assert t / MS <= w / MS;
  }

  /** The watermark strictly increases with every refresh that takes a dated item and writes the row. */
  lemma WatermarkIncreases(row: Row, r: Refresh, t: int)
    requires WellFormed(r) && WholeMs(r.feed) && TakesDated(row, r, t) && !FallbackAhead(row, r, t)
    requires r.dbOk && row.mostRecentMs >= 0
    ensures NextRow(row, r).mostRecentMs > row.mostRecentMs
  {
    TakenBetween(row, r, t);
  }

  /** Every refresh of the run either leaves the row alone or takes a dated item and writes the row. */
  ghost predicate Chain(row: Row, rs: seq<Refresh>)
    decreases |rs|
  {
    rs == [] ||
      (&& WellFormed(rs[0]) && WholeMs(rs[0].feed)
       && (Process(row, rs[0]).Refreshed? ==> 
            rs[0].dbOk && exists t :: TakesDated(row, rs[0], t) && !FallbackAhead(row, rs[0], t))
       && Chain(NextRow(row, rs[0]), rs[1..]))
  }

  ghost function RowAfter(row: Row, rs: seq<Refresh>): Row
    requires Chain(row, rs)
    decreases |rs|
  {
    if rs == [] then row else RowAfter(NextRow(row, rs[0]), rs[1..])
  }

  lemma {:induction false} ChainRises(row: Row, rs: seq<Refresh>)
    requires Chain(row, rs) && row.mostRecentMs >= 0
    ensures RowAfter(row, rs).mostRecentMs >= row.mostRecentMs
    decreases |rs|
  {
    if rs == [] {
    } else {
      if Process(row, rs[0]).Refreshed? {
        var t :| TakesDated(row, rs[0], t) && !FallbackAhead(row, rs[0], t);
        WatermarkIncreases(row, rs[0], t);
      }
      ChainRises(NextRow(row, rs[0]), rs[1..]);
    }
  }

  /**
    In such a run every dated item taken later is newer than every dated item taken earlier;
    in particular none is enqueued twice.
   */
  lemma NoReEnqueue(row: Row, r1: Refresh, between: seq<Refresh>, r2: Refresh, t1: int, t2: int)
    requires row.mostRecentMs >= 0 && WellFormed(r1) && WholeMs(r1.feed) && TakesDated(row, r1, t1)
    requires r1.dbOk && !FallbackAhead(row, r1, t1)
    requires Chain(NextRow(row, r1), between)
    requires WellFormed(r2) && WholeMs(r2.feed) && TakesDated(RowAfter(NextRow(row, r1), between), r2, t2)
    ensures t1 < t2
  {
    TakenBetween(row, r1, t1);
    ChainRises(NextRow(row, r1), between);
    TakenBetween(RowAfter(NextRow(row, r1), between), r2, t2);
  }

  // ---------- where it stops being true ----------

  /**
    An item that was taken passes the date test of the next refresh if and only if the UPDATE failed (and the item is
    not too old for a new subscription), or it was a fallback ahead of its refresh.
   */
  lemma TakenAgainExactly(row: Row, r: Refresh, item: Item, t: int, now: int)
    requires WellFormed(r) && WholeMs(r.feed) && TakesDated(row, r, t) && Dated(item) == Some(t) && r.refreshedAt >= MS
    ensures !IsOld(item, NextRow(row, r).mostRecentMs, now) <==>
      if r.dbOk then FallbackAhead(row, r, t) else row.mostRecentMs != 0 || t >= now - DAY
  {
    TakenBetween(row, r, t);
    if r.dbOk && FallbackAhead(row, r, t) {
      FallbackDate(row, r, t);
      RoundDown(MS, r.refreshedAt);
    }
  }

  /** The kept item would be saved from the feed, and that save fails. */
  predicate FallbackSaveFails(r: Refresh)
    requires WellFormed(r)
  {
    var last := LastValid(r.feed.items, r.answers, |r.feed.items|);
    last.Some? && SavesDirectly(last.value, r.fetchType) && !r.fallbackOk
  }

  lemma NothingAcceptedExactly(row: Row, r: Refresh)
    requires WellFormed(r)
    ensures Accepted(r.feed.items, r.answers, row.mostRecentMs, r.fetchType, |r.feed.items|) == [] <==>
      forall i :: 0 <= i < |r.feed.items| ==> !Qualifies(r.feed.items[i], r.answers[i], row.mostRecentMs, r.fetchType)
  {
    var e := Eligible(r.feed.items, r.answers, row.mostRecentMs, r.fetchType, |r.feed.items|);
    EligibleExact(r.feed.items, r.answers, row.mostRecentMs, r.fetchType, |r.feed.items|);
    if e != [] { assert e[0] in e; }
  }

  lemma {:induction false} NoneEligible(items: seq<Item>, answers: seq<Answer>, mostRecentMs: int, fetchType: string,
                                        n: nat)
    requires n <= |items| == |answers|
    requires forall i :: 0 <= i < n ==> !Qualifies(items[i], answers[i], mostRecentMs, fetchType)
    ensures Eligible(items, answers, mostRecentMs, fetchType, n) == []
  {
    if n == 0 {
    } else {
      NoneEligible(items, answers, mostRecentMs, fetchType, n - 1);
    }
  }

  /**
    An updating refresh writes NULL if and only if no item qualifies, and the subscription is not new, or nothing is
    linked, or some save failed, the fallback's included.
   */
  lemma NullWatermarkExactly(row: Row, r: Refresh)
    requires WellFormed(r) && !Skips(row, r.feed)
    ensures var items, answers, n := r.feed.items, r.answers, |r.feed.items|;
      Process(row, r).watermark.None? <==>
        && (forall i :: 0 <= i < n ==> !Qualifies(items[i], answers[i], row.mostRecentMs, r.fetchType))
        && (|| row.mostRecentMs != 0
            || (forall i :: 0 <= i < n ==> ItemLink(items[i]) == "")
            || (exists i :: 0 <= i < n && Wanted(items[i], answers[i], row.mostRecentMs)
                            && SaveFails(items[i], answers[i], r.fetchType))
            || FallbackSaveFails(r))
  {
    var items, answers, n := r.feed.items, r.answers, |r.feed.items|;
    AfterItemsDescribes(items, answers, row.mostRecentMs, r.fetchType, n);
    LastValidHasLink(items, answers, n);
    NothingAcceptedExactly(row, r);
    if forall i :: 0 <= i < n ==> !Qualifies(items[i], answers[i], row.mostRecentMs, r.fetchType) {
      forall i | 0 <= i < n ensures Eligible(items, answers, row.mostRecentMs, r.fetchType, i) == [] {
        NoneEligible(items, answers, row.mostRecentMs, r.fetchType, i);
      }
    }
  }

  /** A refresh reports a failure if and only if a save that it tried in the loop failed, or the fallback's did. */
  lemma FailureExactly(row: Row, r: Refresh)
    requires WellFormed(r) && Process(row, r).Refreshed?
    ensures var items, answers, n := r.feed.items, r.answers, |r.feed.items|;
      Process(row, r).failed <==>
        || SomeFailure(items, answers, row.mostRecentMs, r.fetchType, n)
        || (&& row.mostRecentMs == 0 && FallbackSaveFails(r)
            && forall i :: 0 <= i < n ==> !Qualifies(items[i], answers[i], 0, r.fetchType))
  {
    AfterItemsDescribes(r.feed.items, r.answers, row.mostRecentMs, r.fetchType, |r.feed.items|);
    NothingAcceptedExactly(row, r);
  }

  /** A feed of one linked, dated item and no build date, read at `now` by a subscription that fetches contents. */
  function OneItem(item: Item, checksum: string, now: int): Refresh {
    Refresh(Feed([item], None, None, checksum), [Answer(now, false, true)], "ALWAYS", now, true, true)
  }

  /**
    The boundary: a changed feed with nothing new in it resets the watermark, and the same item is enqueued once more.
   */
  lemma NothingNewBreaksTheChain(item: Item, t: int, row: Row, now: int)
    requires ItemLink(item) != "" && item.published == Some(t) && t >= MS && t % MS == 0
    requires 0 < row.mostRecentMs && row.mostRecentMs * MS < t && row.checksum == "" && t <= now <= t + DAY
    ensures var r1, r2, r3 := OneItem(item, "a", now), OneItem(item, "b", now), OneItem(item, "c", now);
      && TakesDated(row, r1, t)
      && Process(NextRow(row, r1), r2).Refreshed? && !TakesDated(NextRow(row, r1), r2, t)
      && NextRow(NextRow(row, r1), r2).mostRecentMs == 0
      && TakesDated(NextRow(NextRow(row, r1), r2), r3, t)
  {
    var r1, r2, r3 := OneItem(item, "a", now), OneItem(item, "b", now), OneItem(item, "c", now);
    AcceptsOne(row, r1, item);
    assert Process(row, r1).accepted[0] == 0 && Dated(r1.feed.items[0]) == Some(t);
    var row1 := NextRow(row, r1);
    RoundDown(t, t);
    assert row1 == Row(t / MS, "a");
    AcceptsOne(row1, r2, item);
    var row2 := NextRow(row1, r2);
    assert row2 == Row(0, "b");
    AcceptsOne(row2, r3, item);
    assert Process(row2, r3).accepted[0] == 0 && Dated(r3.feed.items[0]) == Some(t);
  }

  /** What a refresh does with a feed of one linked, dated item. */
  lemma AcceptsOne(row: Row, r: Refresh, item: Item)
    requires r.feed.items == [item] && WellFormed(r) && ItemLink(item) != "" && item.published.Some?
    requires !Skips(row, r.feed) && r.fetchType == "ALWAYS" && !r.answers[0].recent
    requires row.mostRecentMs != 0 || !IsOld(item, row.mostRecentMs, r.answers[0].now)
    ensures Process(row, r) ==
      if IsOld(item, row.mostRecentMs, r.answers[0].now) then Refreshed([], None, None, false)
      else Refreshed([0], None, Some(item.published.value), false)
  {
    assert AfterItems([item], r.answers, row.mostRecentMs, r.fetchType, 0) == NO_PROGRESS;
    assert AfterItems([item], r.answers, row.mostRecentMs, r.fetchType, 1)
        == Visit(NO_PROGRESS, [item], r.answers, row.mostRecentMs, r.fetchType, 0);
  }

  /**
    Why whole milliseconds: an item passes the date test again exactly when it lies inside the watermark's own
    millisecond.
   */
  lemma SubMillisecondExactly(item: Item, t: int, watermark: int, now: int)
    requires Dated(item) == Some(t) && t <= watermark && StoredMs(Some(watermark)) != 0
    ensures !IsOld(item, StoredMs(Some(watermark)), now) <==> t / MS == watermark / MS && t % MS != 0
  {
    var m := watermark / MS;
    assert t == (t / MS) * MS + t % MS;
    assert t / MS <= m;
    if t / MS < m { assert (t / MS + 1) * MS <= m * MS; }
  }
}
