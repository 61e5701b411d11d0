/** One refresh of one subscription (processSubscription in internal/jobs/refresh_feed.go). Times are in nanoseconds. */
module RefreshFeed {
  import opened Prelude

  const MAX_ITEMS_PER_FEED: nat := 100
  const MS: int := 1_000_000
  const DAY: int := 24 * 3600 * 1000 * MS

  datatype Item = Item(link: string, links: seq<string>, guid: string,
                       published: Option<int>, updated: Option<int>, content: string, description: string)

  datatype Feed = Feed(items: seq<Item>, updated: Option<int>, published: Option<int>, checksum: string)

  /**
    What the outside world answers while an item is handled: the clock, the recent-saved-item key, the save-page
    enqueue.
   */
  datatype Answer = Answer(now: int, recent: bool, saveOk: bool)

  // ---------- the pure helpers ----------

  function ExtractItemLink(item: Item): string {
    if item.link != "" then item.link else if item.links != [] then item.links[0] else ""
  }

  function ItemLink(item: Item): string {
    if ExtractItemLink(item) != "" then ExtractItemLink(item) else item.guid
  }

  /** The item's date, if it has one. */
  function Dated(item: Item): Option<int> {
    if item.published.Some? then item.published else item.updated
  }

  /**
    publishedAt: the text date that the code parses first always comes from one of the two parsed dates, which override
    it.
   */
  function PublishTime(item: Item, now: int): int {
    match Dated(item) case Some(t) => t case None => now
  }

  /** IsOldItem. */
  predicate IsOld(item: Item, mostRecentMs: int, now: int) {
    match Dated(item)
    case None => false
    case Some(t) => if mostRecentMs == 0 then t < now - DAY else t <= mostRecentMs * MS
  }

  function FeedContent(item: Item): string {
    if item.content == "" then item.description else item.content
  }

  /** Saved from the feed itself, or left to a content fetch. */
  predicate SavesDirectly(item: Item, fetchType: string) {
    fetchType == "NEVER" || (fetchType == "WHEN_EMPTY" && FeedContent(item) != "")
  }

  /** feedItem: the copy whose Link is filled in. */
  function WithLink(item: Item): Item {
    if item.link == "" then item.(link := ItemLink(item)) else item
  }

  // ---------- the specification of the loop ----------

  /** Reaches the save step, cap aside. */
  predicate Wanted(item: Item, a: Answer, mostRecentMs: int) {
    ItemLink(item) != "" && !IsOld(item, mostRecentMs, a.now) && !a.recent
  }

  predicate SaveFails(item: Item, a: Answer, fetchType: string) {
    SavesDirectly(item, fetchType) && !a.saveOk
  }

  predicate Qualifies(item: Item, a: Answer, mostRecentMs: int, fetchType: string) {
    Wanted(item, a, mostRecentMs) && !SaveFails(item, a, fetchType)
  }

  /** Positions, in feed order, of the first n items that are linked, not old, not recently saved, and can be saved. */
  function Eligible(items: seq<Item>, answers: seq<Answer>, mostRecentMs: int, fetchType: string, n: nat): (r: seq<nat>)
    requires n <= |items| == |answers|
    ensures forall k :: 0 <= k < |r| ==> r[k] < n
  {
    if n == 0 then []
    else
      var before := Eligible(items, answers, mostRecentMs, fetchType, n - 1);
      if Qualifies(items[n - 1], answers[n - 1], mostRecentMs, fetchType) then before + [n - 1] else before
  }

  /** The first `cap` elements. */
  function Take<T>(s: seq<T>, cap: nat): seq<T> {
    if |s| <= cap then s else s[..cap]
  }

  function Accepted(items: seq<Item>, answers: seq<Answer>, mostRecentMs: int, fetchType: string, n: nat): seq<nat>
    requires n <= |items| == |answers|
  {
    Take(Eligible(items, answers, mostRecentMs, fetchType, n), MAX_ITEMS_PER_FEED)
  }

  /** An attempted save failed among the first n items: a wanted one, tried before the cap was reached. */
  ghost predicate SomeFailure(items: seq<Item>, answers: seq<Answer>, mostRecentMs: int, fetchType: string, n: nat)
    requires n <= |items| == |answers|
  {
    exists i :: 0 <= i < n && Wanted(items[i], answers[i], mostRecentMs) && SaveFails(items[i], answers[i], fetchType)
             && |Eligible(items, answers, mostRecentMs, fetchType, i)| < MAX_ITEMS_PER_FEED
  }

  /** The greatest publish time over the given positions. */
  ghost predicate IsWatermark(w: Option<int>, items: seq<Item>, answers: seq<Answer>, accepted: seq<nat>)
    requires |items| == |answers| && forall k :: 0 <= k < |accepted| ==> accepted[k] < |items|
  {
    match w
    case None => accepted == []
    case Some(t) =>
      && (exists k :: 0 <= k < |accepted| && t == PublishTime(items[accepted[k]], answers[accepted[k]].now))
      && (forall k :: 0 <= k < |accepted| ==> PublishTime(items[accepted[k]], answers[accepted[k]].now) <= t)
  }

  function NextValid(last: Option<Item>, item: Item, now: int): Option<Item> {
    if ItemLink(item) == "" then last
    else if last.None? || (last.value.published.Some? && PublishTime(item, now) > last.value.published.value)
    then Some(WithLink(item)) else last
  }

  /** lastValidItem after the first n items. */
  function LastValid(items: seq<Item>, answers: seq<Answer>, n: nat): Option<Item>
    requires n <= |items| == |answers|
  {
    if n == 0 then None else NextValid(LastValid(items, answers, n - 1), items[n - 1], answers[n - 1].now)
  }

  /** The loop's variables: itemCount goes on counting past the cap. */
  datatype Progress = Progress(accepted: seq<nat>, watermark: Option<int>, lastValid: Option<Item>, failed: bool,
                               itemCount: nat)

  const NO_PROGRESS := Progress([], None, None, false, 0)

  /** What the first n items leave behind. */
  ghost predicate Describes(p: Progress, items: seq<Item>, answers: seq<Answer>, mostRecentMs: int,
                            fetchType: string, n: nat)
    requires n <= |items| == |answers|
  {
    && p.accepted == Accepted(items, answers, mostRecentMs, fetchType, n)
    && IsWatermark(p.watermark, items, answers, p.accepted)
    && (p.failed <==> SomeFailure(items, answers, mostRecentMs, fetchType, n))
    && p.lastValid == LastValid(items, answers, n)
    && (if p.itemCount < MAX_ITEMS_PER_FEED then p.itemCount == |Eligible(items, answers, mostRecentMs, fetchType, n)|
        else |Eligible(items, answers, mostRecentMs, fetchType, n)| >= MAX_ITEMS_PER_FEED)
  }

  lemma AcceptedStep(items: seq<Item>, answers: seq<Answer>, mostRecentMs: int, fetchType: string, i: nat)
    requires i < |items| == |answers|
    ensures var before := Eligible(items, answers, mostRecentMs, fetchType, i);
      Accepted(items, answers, mostRecentMs, fetchType, i + 1) ==
        if |before| < MAX_ITEMS_PER_FEED && Qualifies(items[i], answers[i], mostRecentMs, fetchType)
        then Accepted(items, answers, mostRecentMs, fetchType, i) + [i]
        else Accepted(items, answers, mostRecentMs, fetchType, i)
  {}

  lemma FailureStep(items: seq<Item>, answers: seq<Answer>, mostRecentMs: int, fetchType: string, i: nat)
    requires i < |items| == |answers|
    ensures SomeFailure(items, answers, mostRecentMs, fetchType, i + 1) <==>
      || SomeFailure(items, answers, mostRecentMs, fetchType, i)
      || (Wanted(items[i], answers[i], mostRecentMs) && SaveFails(items[i], answers[i], fetchType)
          && |Eligible(items, answers, mostRecentMs, fetchType, i)| < MAX_ITEMS_PER_FEED)
  {}

  /** The watermark after one more accepted item. */
  function Raise(w: Option<int>, t: int): Option<int> {
    if w.None? || t > w.value then Some(t) else w
  }

  lemma WatermarkGrows(items: seq<Item>, answers: seq<Answer>, before: seq<nat>, i: nat, w: Option<int>)
    requires i < |items| == |answers| && forall k :: 0 <= k < |before| ==> before[k] < |items|
    requires IsWatermark(w, items, answers, before)
    ensures IsWatermark(Raise(w, PublishTime(items[i], answers[i].now)), items, answers, before + [i])
  {
    var accepted, t := before + [i], PublishTime(items[i], answers[i].now);
    if w.None? || t > w.value {
      assert accepted[|before|] == i;
    } else {
      var k :| 0 <= k < |before| && w.value == PublishTime(items[before[k]], answers[before[k]].now);
      assert accepted[k] == before[k];
    }
  }

  /** One pass through the loop body. */
  function Visit(p: Progress, items: seq<Item>, answers: seq<Answer>, mostRecentMs: int, fetchType: string,
                 i: nat): Progress
    requires i < |items| == |answers|
  {
    var item, a := items[i], answers[i];
    if ItemLink(item) == "" then p
    else
      var p1 := p.(lastValid := NextValid(p.lastValid, item, a.now));
      if p.itemCount >= MAX_ITEMS_PER_FEED then p1.(itemCount := p.itemCount + 1)
      else if IsOld(item, mostRecentMs, a.now) || a.recent then p1
      else if SaveFails(item, a, fetchType) then p1.(failed := true)
      else p1.(accepted := p.accepted + [i], watermark := Raise(p.watermark, PublishTime(item, a.now)),
               itemCount := p.itemCount + 1)
  }

  lemma VisitKeeps(p: Progress, items: seq<Item>, answers: seq<Answer>, mostRecentMs: int, fetchType: string, i: nat)
    requires i < |items| == |answers| && Describes(p, items, answers, mostRecentMs, fetchType, i)
    ensures Describes(Visit(p, items, answers, mostRecentMs, fetchType, i), items, answers, mostRecentMs, fetchType,
                      i + 1)
  {
    AcceptedStep(items, answers, mostRecentMs, fetchType, i);
    FailureStep(items, answers, mostRecentMs, fetchType, i);
    WatermarkGrows(items, answers, p.accepted, i, p.watermark);
  }

  /** The item loop as a fold of Visit. */
  function AfterItems(items: seq<Item>, answers: seq<Answer>, mostRecentMs: int, fetchType: string, n: nat): Progress
    requires n <= |items| == |answers|
  {
    if n == 0 then NO_PROGRESS
    else Visit(AfterItems(items, answers, mostRecentMs, fetchType, n - 1), items, answers, mostRecentMs, fetchType,
               n - 1)
  }

  lemma {:induction false} AfterItemsDescribes(items: seq<Item>, answers: seq<Answer>, mostRecentMs: int,
                                               fetchType: string, n: nat)
    requires n <= |items| == |answers|
    ensures Describes(AfterItems(items, answers, mostRecentMs, fetchType, n), items, answers, mostRecentMs,
                      fetchType, n)
  {
    if n == 0 {
    } else {
      AfterItemsDescribes(items, answers, mostRecentMs, fetchType, n - 1);
      VisitKeeps(AfterItems(items, answers, mostRecentMs, fetchType, n - 1), items, answers, mostRecentMs, fetchType,
                 n - 1);
    }
  }

  /** The body of the item loop; `continue` is a return. */
  method VisitItem(p: Progress, items: seq<Item>, answers: seq<Answer>, mostRecentMs: int, fetchType: string, i: nat)
    returns (r: Progress)
    requires i < |items| == |answers|
    ensures r == Visit(p, items, answers, mostRecentMs, fetchType, i)
  {
    r := p;
    var item, a := items[i], answers[i];
    var link := ItemLink(item);
    if link == "" { return; }
    var publishedAt := PublishTime(item, a.now);
    if r.lastValid.None?
       || (r.lastValid.value.published.Some? && publishedAt > r.lastValid.value.published.value) {
      r := r.(lastValid := Some(WithLink(item)));
    }
    if r.itemCount >= MAX_ITEMS_PER_FEED {
      r := r.(itemCount := r.itemCount + 1);
      return;
    }
    if IsOld(item, mostRecentMs, a.now) { return; }
    if a.recent { return; }
    if SavesDirectly(item, fetchType) && !a.saveOk {
      r := r.(failed := true);
    } else {
      r := r.(accepted := r.accepted + [i]);
      if r.watermark.None? || publishedAt > r.watermark.value {
        r := r.(watermark := Some(publishedAt));
      }
      r := r.(itemCount := r.itemCount + 1);
    }
  }

  /** The item loop of processSubscription. */
  method ProcessItems(items: seq<Item>, answers: seq<Answer>, mostRecentMs: int, fetchType: string)
    returns (accepted: seq<nat>, lastItemFetchedAt: Option<int>, lastValidItem: Option<Item>, failed: bool)
    requires |items| == |answers|
    ensures accepted == Accepted(items, answers, mostRecentMs, fetchType, |items|)
    ensures IsWatermark(lastItemFetchedAt, items, answers, accepted)
    ensures failed <==> SomeFailure(items, answers, mostRecentMs, fetchType, |items|)
    ensures lastValidItem == LastValid(items, answers, |items|)
  {
    var p := NO_PROGRESS;
    var i := 0;
    while i < |items|
      invariant 0 <= i <= |items|
      invariant p == AfterItems(items, answers, mostRecentMs, fetchType, i)
    {
      p := VisitItem(p, items, answers, mostRecentMs, fetchType, i);
      i := i + 1;
    }
    AfterItemsDescribes(items, answers, mostRecentMs, fetchType, |items|);
    return p.accepted, p.watermark, p.lastValid, p.failed;
  }

  // ---------- what the specification means ----------

  ghost predicate Increasing(s: seq<nat>) {
    forall i, j :: 0 <= i < j < |s| ==> s[i] < s[j]
  }

  lemma {:induction false} EligibleIncreases(items: seq<Item>, answers: seq<Answer>, mostRecentMs: int,
                                             fetchType: string, n: nat)
    requires n <= |items| == |answers|
    ensures Increasing(Eligible(items, answers, mostRecentMs, fetchType, n))
  {
    if n == 0 {
    } else {
      EligibleIncreases(items, answers, mostRecentMs, fetchType, n - 1);
    }
  }

  lemma {:induction false} EligibleQualifies(items: seq<Item>, answers: seq<Answer>, mostRecentMs: int,
                                             fetchType: string,
                                             n: nat, i: nat)
    requires n <= |items| == |answers|
    ensures i in Eligible(items, answers, mostRecentMs, fetchType, n)
      <==> i < n && Qualifies(items[i], answers[i], mostRecentMs, fetchType)
  {
    if n == 0 {
    } else {
      EligibleQualifies(items, answers, mostRecentMs, fetchType, n - 1, i);
    }
  }

  /** Eligible lists exactly the items that qualify, in feed order and each once. */
  lemma EligibleExact(items: seq<Item>, answers: seq<Answer>, mostRecentMs: int, fetchType: string, n: nat)
    requires n <= |items| == |answers|
    ensures var e := Eligible(items, answers, mostRecentMs, fetchType, n);
      && Increasing(e)
      && (forall i: nat :: i in e <==> i < n && Qualifies(items[i], answers[i], mostRecentMs, fetchType))
  {
    EligibleIncreases(items, answers, mostRecentMs, fetchType, n);
    forall i: nat ensures i in Eligible(items, answers, mostRecentMs, fetchType, n)
      <==> i < n && Qualifies(items[i], answers[i], mostRecentMs, fetchType)
    {
      EligibleQualifies(items, answers, mostRecentMs, fetchType, n, i);
    }
  }

  lemma WatermarkUnique(items: seq<Item>, answers: seq<Answer>, accepted: seq<nat>, w1: Option<int>, w2: Option<int>)
    requires |items| == |answers| && forall k :: 0 <= k < |accepted| ==> accepted[k] < |items|
    requires IsWatermark(w1, items, answers, accepted) && IsWatermark(w2, items, answers, accepted)
    ensures w1 == w2
  {
    if w1.Some? {
      var k :| 0 <= k < |accepted| && w1.value == PublishTime(items[accepted[k]], answers[accepted[k]].now);
      assert w2.Some? && w1.value <= w2.value;
      var j :| 0 <= j < |accepted| && w2.value == PublishTime(items[accepted[j]], answers[accepted[j]].now);
    }
  }

  /** The item kept for the fallback always has a link, so the fallback never fails for want of one. */
  lemma {:induction false} LastValidHasLink(items: seq<Item>, answers: seq<Answer>, n: nat)
    requires n <= |items| == |answers|
    ensures LastValid(items, answers, n).Some? ==> LastValid(items, answers, n).value.link != ""
    ensures LastValid(items, answers, n).None? <==> forall i :: 0 <= i < n ==> ItemLink(items[i]) == ""
  {
    if n == 0 {
    } else {
      LastValidHasLink(items, answers, n - 1);
    }
  }

  function TimeAt(items: seq<Item>, answers: seq<Answer>, i: nat): int
    requires i < |items| == |answers|
  {
    PublishTime(items[i], answers[i].now)
  }

  predicate Linked(items: seq<Item>, i: nat)
    requires i < |items|
  {
    ItemLink(items[i]) != ""
  }

  /** NextValid, on positions. */
  function NextIndex(kept: Option<nat>, items: seq<Item>, answers: seq<Answer>, i: nat): (r: Option<nat>)
    requires i < |items| == |answers| && (kept.Some? ==> kept.value < i)
    ensures r.Some? ==> r.value <= i
  {
    if !Linked(items, i) then kept
    else if kept.None? then Some(i)
    else if items[kept.value].published.Some? && TimeAt(items, answers, i) > items[kept.value].published.value
    then Some(i) else kept
  }

  /** The position of the item kept after the first n. */
  function LastIndex(items: seq<Item>, answers: seq<Answer>, n: nat): (r: Option<nat>)
    requires n <= |items| == |answers|
    ensures r.Some? ==> r.value < n
  {
    if n == 0 then None else NextIndex(LastIndex(items, answers, n - 1), items, answers, n - 1)
  }

  lemma {:induction false} LastValidAt(items: seq<Item>, answers: seq<Answer>, n: nat)
    requires n <= |items| == |answers|
    ensures LastValid(items, answers, n)
      == match LastIndex(items, answers, n) case None => None case Some(k) => Some(WithLink(items[k]))
  {
    if n == 0 {
    } else {
      LastValidAt(items, answers, n - 1);
    }
  }

  /** Item k is linked and newer than every linked item before it. */
  ghost predicate Overtakes(items: seq<Item>, answers: seq<Answer>, k: nat)
    requires k < |items| == |answers|
  {
    && Linked(items, k)
    && forall j: nat :: j < k && Linked(items, j) ==> TimeAt(items, answers, j) < TimeAt(items, answers, k)
  }

  /** No linked item among the first n is newer than item k. */
  ghost predicate Greatest(items: seq<Item>, answers: seq<Answer>, k: nat, n: nat)
    requires k < |items| == |answers| && n <= |items|
  {
    forall j: nat :: j < n && Linked(items, j) ==> TimeAt(items, answers, j) <= TimeAt(items, answers, k)
  }

  /** The kept item overtook all before it, and if it has a publish date it is a greatest one so far. */
  ghost predicate WellKept(kept: Option<nat>, items: seq<Item>, answers: seq<Answer>, n: nat)
    requires n <= |items| == |answers| && (kept.Some? ==> kept.value < n)
  {
    match kept
    case None => forall j: nat :: j < n ==> !Linked(items, j)
    case Some(k) => Overtakes(items, answers, k) && (items[k].published.Some? ==> Greatest(items, answers, k, n))
  }

  lemma Replaces(items: seq<Item>, answers: seq<Answer>, kept: Option<nat>, i: nat)
    requires i < |items| == |answers| && (kept.Some? ==> kept.value < i) && WellKept(kept, items, answers, i)
    requires Linked(items, i)
    requires kept.Some? ==>
      items[kept.value].published.Some? && TimeAt(items, answers, i) > items[kept.value].published.value
    ensures WellKept(Some(i), items, answers, i + 1)
  {
    forall j: nat | j < i && Linked(items, j) ensures TimeAt(items, answers, j) < TimeAt(items, answers, i) {
      assert kept.Some?;
    }
  }

  lemma Stays(items: seq<Item>, answers: seq<Answer>, kept: Option<nat>, i: nat)
    requires i < |items| == |answers| && (kept.Some? ==> kept.value < i) && WellKept(kept, items, answers, i)
    requires Linked(items, i) ==>
      && kept.Some?
      && (items[kept.value].published.Some? ==> TimeAt(items, answers, i) <= items[kept.value].published.value)
    ensures WellKept(kept, items, answers, i + 1)
  {
    if kept.Some? && items[kept.value].published.Some? {
      forall j: nat | j < i + 1 && Linked(items, j)
        ensures TimeAt(items, answers, j) <= TimeAt(items, answers, kept.value)
      {
        if j < i { assert Greatest(items, answers, kept.value, i); }
      }
    }
  }

  lemma KeptStep(items: seq<Item>, answers: seq<Answer>, kept: Option<nat>, i: nat)
    requires i < |items| == |answers| && (kept.Some? ==> kept.value < i) && WellKept(kept, items, answers, i)
    ensures WellKept(NextIndex(kept, items, answers, i), items, answers, i + 1)
  {
    if NextIndex(kept, items, answers, i) == Some(i) {
      Replaces(items, answers, kept, i);
    } else {
      Stays(items, answers, kept, i);
    }
  }

  lemma {:induction false} KeptFacts(items: seq<Item>, answers: seq<Answer>, n: nat)
    requires n <= |items| == |answers|
    ensures WellKept(LastIndex(items, answers, n), items, answers, n)
  {
    if n == 0 {
    } else {
      KeptFacts(items, answers, n - 1);
      KeptStep(items, answers, LastIndex(items, answers, n - 1), n - 1);
    }
  }

  /** A newest linked item among the first n. */
  ghost predicate IsNewest(last: Item, items: seq<Item>, n: nat)
    requires n <= |items|
  {
    && last.published.Some?
    && (exists i :: 0 <= i < n && last == WithLink(items[i]))
    && forall i :: 0 <= i < n && ItemLink(items[i]) != "" && items[i].published.Some? ==>
         items[i].published.value <= last.published.value
  }

  /** If every linked item has a publish date, the fallback item is a newest one. */
  lemma LastValidIsNewest(items: seq<Item>, answers: seq<Answer>, n: nat)
    requires n <= |items| == |answers|
    requires forall i :: 0 <= i < n && ItemLink(items[i]) != "" ==> items[i].published.Some?
    ensures LastValid(items, answers, n).Some? ==> IsNewest(LastValid(items, answers, n).value, items, n)
  {
    KeptFacts(items, answers, n);
    LastValidAt(items, answers, n);
    var kept := LastIndex(items, answers, n);
    if kept.Some? {
      var k := kept.value;
      assert LastValid(items, answers, n).value == WithLink(items[k]);
      forall i | 0 <= i < n && ItemLink(items[i]) != "" && items[i].published.Some?
        ensures items[i].published.value <= items[k].published.value
      {
        assert Linked(items, i) && TimeAt(items, answers, i) <= TimeAt(items, answers, k);
      }
    }
  }

  /** Item k has no publish date and overtakes all before it. */
  ghost predicate Blocks(items: seq<Item>, answers: seq<Answer>, k: nat)
    requires k < |items| == |answers|
  {
    Overtakes(items, answers, k) && items[k].published.None?
  }

  lemma {:induction false} FirstBlocker(items: seq<Item>, answers: seq<Answer>, k: nat) returns (first: nat)
    requires k < |items| == |answers| && Blocks(items, answers, k)
    ensures first <= k && Blocks(items, answers, first)
    ensures forall j: nat :: j < first ==> !Blocks(items, answers, j)
  {
    if j: nat :| j < k && Blocks(items, answers, j) {
      first := FirstBlocker(items, answers, j);
    } else {
      first := k;
    }
  }

  /** The first item that blocks is kept from then on: no later item is considered. */
  lemma {:induction false} UndatedItemBlocksFallback(items: seq<Item>, answers: seq<Answer>, k: nat, n: nat)
    requires k < n <= |items| == |answers|
    requires Blocks(items, answers, k) && forall j: nat :: j < k ==> !Blocks(items, answers, j)
    ensures LastIndex(items, answers, n) == Some(k)
  {
    if n == k + 1 {
      KeptFacts(items, answers, k);
      var before := LastIndex(items, answers, k);
      if before.Some? { assert !Blocks(items, answers, before.value); }
    } else {
      UndatedItemBlocksFallback(items, answers, k, n - 1);
    }
  }

  /** Item k blocks, and a linked item m behind it is newer. */
  ghost predicate Hides(items: seq<Item>, answers: seq<Answer>, k: nat, m: nat)
    requires k < m < |items| == |answers|
  {
    Blocks(items, answers, k) && Linked(items, m) && TimeAt(items, answers, m) > TimeAt(items, answers, k)
  }

  /** If any item blocks, the kept one is the first that does. */
  lemma KeptBlocks(items: seq<Item>, answers: seq<Answer>, n: nat)
    requires n <= |items| == |answers| && LastIndex(items, answers, n).Some?
    ensures forall k: nat :: k < n && Blocks(items, answers, k) ==>
      Blocks(items, answers, LastIndex(items, answers, n).value) && LastIndex(items, answers, n).value <= k
  {
    forall k: nat | k < n && Blocks(items, answers, k)
      ensures Blocks(items, answers, LastIndex(items, answers, n).value) && LastIndex(items, answers, n).value <= k
    {
      var first := FirstBlocker(items, answers, k);
      UndatedItemBlocksFallback(items, answers, first, n);
    }
  }

  /** The item kept for the fallback has the greatest publish time if and only if no blocking item hides a newer one. */
  lemma KeptIsNewestExactly(items: seq<Item>, answers: seq<Answer>, n: nat)
    requires n <= |items| == |answers| && LastIndex(items, answers, n).Some?
    ensures LastValid(items, answers, n) == Some(WithLink(items[LastIndex(items, answers, n).value]))
    ensures Greatest(items, answers, LastIndex(items, answers, n).value, n)
      <==> forall k: nat, m: nat :: k < m < n ==> !Hides(items, answers, k, m)
  {
    var kept := LastIndex(items, answers, n).value;
    KeptFacts(items, answers, n);
    LastValidAt(items, answers, n);
    KeptBlocks(items, answers, n);
    if Greatest(items, answers, kept, n) {
      forall k: nat, m: nat | k < m < n && Blocks(items, answers, k) ensures !Hides(items, answers, k, m) {
        if kept < k { assert false; }
      }
    } else {
      var j: nat :| j < n && Linked(items, j) && TimeAt(items, answers, j) > TimeAt(items, answers, kept);
      assert kept < j && Hides(items, answers, kept, j);
    }
  }

  // ---------- a whole refresh ----------

  /** The subscription's row as the job sees it: the watermark in ms (0 for NULL) and the checksum of the last feed. */
  datatype Row = Row(mostRecentMs: int, checksum: string)

  datatype Refresh = Refresh(feed: Feed, answers: seq<Answer>, fetchType: string, refreshedAt: int,
                             fallbackOk: bool, dbOk: bool)

  predicate WellFormed(r: Refresh) {
    |r.answers| == |r.feed.items|
  }

  /**
    Nothing is done with the feed; or items are accepted, perhaps one more as a fallback, and the watermark is written.
   */
  datatype Outcome = Skipped | Refreshed(accepted: seq<nat>, fallback: Option<Item>, watermark: Option<int>,
                                         failed: bool)

  /** most_recent_item_date comes back through UnixMilli, which rounds down. */
  function StoredMs(watermark: Option<int>): int {
    match watermark case None => 0 case Some(t) => t / MS
  }

  function BuildDate(feed: Feed): Option<int> {
    if feed.updated.Some? then feed.updated else feed.published
  }

  predicate Skips(row: Row, feed: Feed) {
    || feed.checksum == row.checksum
    || (BuildDate(feed).Some? && row.mostRecentMs > 0 && BuildDate(feed).value <= row.mostRecentMs * MS)
  }

  /** Last-ditch saving of the kept item. */
  predicate FallsBack(p: Progress, mostRecentMs: int) {
    p.watermark.None? && !p.failed && p.lastValid.Some? && mostRecentMs == 0
  }

  function Process(row: Row, r: Refresh): Outcome
    requires WellFormed(r)
  {
    if Skips(row, r.feed) then Skipped
    else
      var p := AfterItems(r.feed.items, r.answers, row.mostRecentMs, r.fetchType, |r.feed.items|);
      if !FallsBack(p, row.mostRecentMs) then Refreshed(p.accepted, None, p.watermark, p.failed)
      else
        var item := p.lastValid.value;
        if SavesDirectly(item, r.fetchType) && !r.fallbackOk then Refreshed(p.accepted, None, None, true)
        else
          var w := if item.published.Some? then item.published.value else r.refreshedAt;
          Refreshed(p.accepted, Some(item), Some(w), false)
  }

  /** The row after the refresh; a failed UPDATE is only logged. */
  function NextRow(row: Row, r: Refresh): Row
    requires WellFormed(r)
  {
    match Process(row, r)
    case Skipped => row
    case Refreshed(_, _, w, _) => if r.dbOk then Row(StoredMs(w), r.feed.checksum) else row
  }

  method ProcessSubscription(row: Row, r: Refresh) returns (outcome: Outcome)
    requires WellFormed(r)
    ensures outcome == Process(row, r)
  {
    var feed := r.feed;
    if feed.checksum == row.checksum { return Skipped; }
    var feedBuildDate := feed.updated;
    if feedBuildDate.None? { feedBuildDate := feed.published; }
    if feedBuildDate.Some? && row.mostRecentMs > 0 && !(feedBuildDate.value > row.mostRecentMs * MS) { return Skipped; }
    var accepted, lastItemFetchedAt, lastValidItem, failed :=
      ProcessItems(feed.items, r.answers, row.mostRecentMs, r.fetchType);
    AfterItemsDescribes(feed.items, r.answers, row.mostRecentMs, r.fetchType, |feed.items|);
    ghost var p := AfterItems(feed.items, r.answers, row.mostRecentMs, r.fetchType, |feed.items|);
    WatermarkUnique(feed.items, r.answers, accepted, lastItemFetchedAt, p.watermark);
    LastValidHasLink(feed.items, r.answers, |feed.items|);
    var fallback := None;
    if lastItemFetchedAt.None? && !failed && lastValidItem.Some? && row.mostRecentMs == 0 {
      if ItemLink(lastValidItem.value) != "" {
        if SavesDirectly(lastValidItem.value, r.fetchType) && !r.fallbackOk {
          failed := true;
        } else {
          fallback := lastValidItem;
        }
        if !failed {
          lastItemFetchedAt := Some(if lastValidItem.value.published.Some?
                                    then lastValidItem.value.published.value else r.refreshedAt);
        }
      }
    }
    return Refreshed(accepted, fallback, lastItemFetchedAt, failed);
  }
}
