/**
  A whole refresh-feed job (HandleRefreshFeed in internal/jobs/refresh_feed.go): the subscriptions of a group one after
  the other, and the fetch-content tasks that are left at the end.
 */
module RefreshJob {
  import opened Prelude
  import opened RefreshFeed
  import opened FeedGrouping

  /** What the outside world answers while one subscription is processed. */
  datatype World = World(answers: seq<Answer>, refreshedAt: int, fallbackOk: bool, dbOk: bool)

  /** The job's payload, the parsed feed, whether its contents may be fetched, and the world for each subscription. */
  datatype Job = Job(group: Group, feedUrl: string, feed: Feed, fetchBlocked: bool, worlds: seq<World>)

  /** How dates are printed, and the UUIDs drawn: the k-th of subscription i. */
  datatype Texts = Texts(iso: Option<int> -> string, uuid: (nat, nat) -> string)

  predicate Complete(job: Job) {
    && |job.worlds| == |job.group.subscriptionIds|
    && forall i :: 0 <= i < |job.worlds| ==> |job.worlds[i].answers| == |job.feed.items|
  }

  function ArgsFor(job: Job, i: nat): SubscriptionArgs
    requires i < |job.group.subscriptionIds|
  {
    ArgsAt(job.group, i, job.fetchBlocked)
  }

  function RowFor(job: Job, i: nat): Row
    requires i < |job.group.subscriptionIds|
  {
    Row(ArgsFor(job, i).mostRecentMs, ArgsFor(job, i).lastChecksum)
  }

  function RefreshFor(job: Job, i: nat): (r: Refresh)
    requires Complete(job) && i < |job.worlds|
    ensures WellFormed(r)
  {
    var w := job.worlds[i];
    Refresh(job.feed, w.answers, ArgsFor(job, i).fetchType, w.refreshedAt, w.fallbackOk, w.dbOk)
  }

  // ---------- what is left to content fetches ----------

  /** The items at the given positions that are not saved directly, in order. */
  function Deferred(items: seq<Item>, positions: seq<nat>, fetchType: string): seq<Item>
    requires forall k :: 0 <= k < |positions| ==> positions[k] < |items|
  {
    if positions == [] then []
    else
      var before := Deferred(items, positions[..|positions| - 1], fetchType);
      var item := items[positions[|positions| - 1]];
      if SavesDirectly(item, fetchType) then before else before + [item]
  }

  /** What one subscription leaves to content fetches: of its accepted items, and of its fallback. */
  function Fetches(items: seq<Item>, outcome: Outcome, fetchType: string): seq<Item>
    requires outcome.Refreshed? ==> forall k :: 0 <= k < |outcome.accepted| ==> outcome.accepted[k] < |items|
  {
    match outcome
    case Skipped => []
    case Refreshed(accepted, fallback, _, _) =>
      Deferred(items, accepted, fetchType)
      + if fallback.Some? && !SavesDirectly(fallback.value, fetchType) then [fallback.value] else []
  }

  lemma AcceptedInFeed(row: Row, r: Refresh)
    requires WellFormed(r) && Process(row, r).Refreshed?
    ensures forall k :: 0 <= k < |Process(row, r).accepted| ==> Process(row, r).accepted[k] < |r.feed.items|
  {
    AfterItemsDescribes(r.feed.items, r.answers, row.mostRecentMs, r.fetchType, |r.feed.items|);
  }

  function FetchesOf(job: Job, i: nat): seq<Item>
    requires Complete(job) && i < |job.worlds|
  {
    var outcome := Process(RowFor(job, i), RefreshFor(job, i));
    if outcome.Refreshed? then AcceptedInFeed(RowFor(job, i), RefreshFor(job, i));
      Fetches(job.feed.items, outcome, ArgsFor(job, i).fetchType)
    else []
  }

  function CallFor(job: Job, texts: Texts, i: nat, k: nat, item: Item): Call
    requires i < |job.group.subscriptionIds|
  {
    var args := ArgsFor(job, i);
    Call(args.userId, args.folder, ItemLink(item), job.feedUrl, texts.iso(Dated(item)), texts.uuid(i, k))
  }

  /** The calls of accumulateFetchContentTask when subscription i fetches the items f, in order. */
  function CallsOf(job: Job, texts: Texts, i: nat, f: seq<Item>): seq<Call>
    requires i < |job.group.subscriptionIds|
  {
    seq(|f|, k requires 0 <= k < |f| => CallFor(job, texts, i, k, f[k]))
  }

  /** The calls of the first n subscriptions, when they fetch these items. */
  function JobCalls(job: Job, texts: Texts, fetches: seq<seq<Item>>, n: nat): seq<Call>
    requires n <= |fetches| && n <= |job.group.subscriptionIds|
  {
    if n == 0 then [] else JobCalls(job, texts, fetches, n - 1) + CallsOf(job, texts, n - 1, fetches[n - 1])
  }

  /** The first n subscriptions fetch these items. */
  ghost predicate Fetched(job: Job, fetches: seq<seq<Item>>, n: nat)
    requires Complete(job) && n <= |fetches| && n <= |job.worlds|
  {
    n == 0 || (Fetched(job, fetches, n - 1) && fetches[n - 1] == FetchesOf(job, n - 1))
  }

  lemma {:induction false} FetchedAt(job: Job, fetches: seq<seq<Item>>, n: nat, i: nat)
    requires Complete(job) && i < n <= |fetches| && n <= |job.worlds| && Fetched(job, fetches, n)
    ensures fetches[i] == FetchesOf(job, i)
  {
    if i == n - 1 {
    } else {
      FetchedAt(job, fetches, n - 1, i);
    }
  }

  lemma {:induction false} FetchedPrefix(job: Job, fetches: seq<seq<Item>>, f: seq<Item>, n: nat)
    requires Complete(job) && n <= |fetches| && n <= |job.worlds| && Fetched(job, fetches, n)
    ensures Fetched(job, fetches + [f], n)
  {
    if n == 0 {
    } else {
      FetchedPrefix(job, fetches, f, n - 1);
      assert (fetches + [f])[n - 1] == fetches[n - 1];
    }
  }

  lemma {:induction false} CallsPrefix(job: Job, texts: Texts, fetches: seq<seq<Item>>, f: seq<Item>, n: nat)
    requires n <= |fetches| && n <= |job.group.subscriptionIds|
    ensures JobCalls(job, texts, fetches + [f], n) == JobCalls(job, texts, fetches, n)
  {
    if n == 0 {
    } else {
      CallsPrefix(job, texts, fetches, f, n - 1);
      assert (fetches + [f])[n - 1] == fetches[n - 1];
    }
  }

  /** The tasks that the fetches of subscription i add. */
  method AddFetches(job: Job, texts: Texts, i: nat, f: seq<Item>, table: TaskTable,
                    ghost earlier: seq<Call>, ghost calls: seq<Call>)
    requires i < |job.group.subscriptionIds| && table.Groups(earlier)
    requires |calls| == |f| && forall k :: 0 <= k < |f| ==> calls[k] == CallFor(job, texts, i, k, f[k])
    modifies table
    ensures table.Groups(earlier + calls)
  {
    var k := 0;
    assert earlier + calls[..0] == earlier;
    while k < |f|
      invariant 0 <= k <= |f|
      invariant table.Groups(earlier + calls[..k])
    {
      table.Accumulate(CallFor(job, texts, i, k, f[k]), earlier + calls[..k]);
      assert earlier + calls[..k + 1] == earlier + calls[..k] + [calls[k]];
      k := k + 1;
    }
    assert calls[..k] == calls;
  }

  /** The items that one subscription leaves to content fetches, by its loop over the accepted ones. */
  method CollectFetches(job: Job, i: nat, outcome: Outcome) returns (f: seq<Item>)
    requires Complete(job) && i < |job.worlds| && outcome == Process(RowFor(job, i), RefreshFor(job, i))
    ensures f == FetchesOf(job, i)
  {
    if outcome.Skipped? { return []; }
    AcceptedInFeed(RowFor(job, i), RefreshFor(job, i));
    var fetchType := ArgsFor(job, i).fetchType;
    f := [];
    var k := 0;
    while k < |outcome.accepted|
      invariant 0 <= k <= |outcome.accepted|
      invariant f == Deferred(job.feed.items, outcome.accepted[..k], fetchType)
    {
      var item := job.feed.items[outcome.accepted[k]];
      assert outcome.accepted[..k + 1][..k] == outcome.accepted[..k];
      if !SavesDirectly(item, fetchType) { f := f + [item]; }
      k := k + 1;
    }
    assert outcome.accepted[..k] == outcome.accepted;
    if outcome.fallback.Some? && !SavesDirectly(outcome.fallback.value, fetchType) {
      f := f + [outcome.fallback.value];
    }
  }

  /** One round of the subscription loop. */
  method HandleSubscription(job: Job, texts: Texts, i: nat, args: SubscriptionArgs, table: TaskTable,
                            ghost earlier: seq<Call>)
    returns (ghost f: seq<Item>)
    requires Complete(job) && i < |job.worlds| && args == ArgsFor(job, i) && table.Groups(earlier)
    modifies table
    ensures f == FetchesOf(job, i) && table.Groups(earlier + CallsOf(job, texts, i, f))
  {
    var outcome := ProcessSubscription(Row(args.mostRecentMs, args.lastChecksum), RefreshFor(job, i));
    var fetched := CollectFetches(job, i, outcome);
    AddFetches(job, texts, i, fetched, table, earlier, CallsOf(job, texts, i, fetched));
    f := fetched;
  }

  /** What holds between subscriptions: the calls so far are those of the items fetched so far. */
  ghost predicate Accumulated(job: Job, texts: Texts, fetches: seq<seq<Item>>, calls: seq<Call>, i: nat)
    requires Complete(job)
  {
    i == |fetches| <= |job.worlds| && Fetched(job, fetches, i) && calls == JobCalls(job, texts, fetches, i)
  }

  lemma AccumulatedStep(job: Job, texts: Texts, fetches: seq<seq<Item>>, calls: seq<Call>, i: nat, f: seq<Item>)
    requires Complete(job) && Accumulated(job, texts, fetches, calls, i) && i < |job.worlds| && f == FetchesOf(job, i)
    ensures Accumulated(job, texts, fetches + [f], calls + CallsOf(job, texts, i, f), i + 1)
  {
    FetchedPrefix(job, fetches, f, i);
    CallsPrefix(job, texts, fetches, f, i);
  }

  /** The job: its tasks are the calls of all its subscriptions, in their order, grouped by URL. */
  method HandleRefreshFeed(job: Job, texts: Texts, table: TaskTable)
    returns (ghost fetches: seq<seq<Item>>, ghost calls: seq<Call>)
    requires Complete(job) && table.Groups([])
    modifies table
    ensures Accumulated(job, texts, fetches, calls, |job.worlds|) && table.Groups(calls)
  {
    var args := Dispatch(job.group, job.fetchBlocked);
    fetches, calls := [], [];
    var i := 0;
    while i < |args|
      invariant 0 <= i <= |args|
      invariant Accumulated(job, texts, fetches, calls, i) && table.Groups(calls)
    {
      ghost var f := HandleSubscription(job, texts, i, args[i], table, calls);
      AccumulatedStep(job, texts, fetches, calls, i, f);
      fetches, calls := fetches + [f], calls + CallsOf(job, texts, i, f);
      i := i + 1;
    }
  }

  // ---------- what the tasks hold ----------

  /** Deferred keeps exactly the items that are not saved directly, in order and each as often as it is listed. */
  lemma {:induction false} DeferredExactly(items: seq<Item>, positions: seq<nat>, fetchType: string, k: nat)
    requires k < |positions| && forall j :: 0 <= j < |positions| ==> positions[j] < |items|
    ensures var before, all := Deferred(items, positions[..k], fetchType), Deferred(items, positions, fetchType);
      if SavesDirectly(items[positions[k]], fetchType) then Deferred(items, positions[..k + 1], fetchType) == before
      else |before| < |all| && all[|before|] == items[positions[k]]
    decreases |positions|
  {
    var n := |positions| - 1;
    if k == n {
      assert positions[..k + 1] == positions;
    } else {
      DeferredExactly(items, positions[..n], fetchType, k);
      assert positions[..n][..k] == positions[..k] && positions[..n][..k + 1] == positions[..k + 1];
    }
  }

  /** Nothing else is in it. */
  lemma {:induction false} OnlyDeferred(items: seq<Item>, positions: seq<nat>, fetchType: string, item: Item)
    requires forall j :: 0 <= j < |positions| ==> positions[j] < |items|
    ensures item in Deferred(items, positions, fetchType)
      <==> !SavesDirectly(item, fetchType) && exists j :: 0 <= j < |positions| && items[positions[j]] == item
    decreases |positions|
  {
    if positions == [] {
    } else {
      var n := |positions| - 1;
      OnlyDeferred(items, positions[..n], fetchType, item);
      if j :| 0 <= j < n && items[positions[j]] == item { assert positions[..n][j] == positions[j]; }
      if j :| 0 <= j < n && items[positions[..n][j]] == item { assert positions[..n][j] == positions[j]; }
      assert items[positions[n]] == item ==> 0 <= n < |positions|;
    }
  }

  /** The subscription wants this item fetched: by its type, unless the feed is blocked, and WHEN_EMPTY by the item. */
  predicate WantsFetch(job: Job, i: nat, item: Item) {
    var fetchType := if i < |job.group.fetchContentTypes| then job.group.fetchContentTypes[i] else "";
    && !job.fetchBlocked && fetchType != "NEVER"
    && (fetchType == "WHEN_EMPTY" ==> item.content == "" && item.description == "")
  }

  /**
    An item is left to a content fetch if and only if it is accepted or the fallback, and the subscription wants it
    fetched; all others are saved from the feed.
   */
  lemma FetchedExactly(job: Job, i: nat, item: Item)
    requires Complete(job) && i < |job.worlds|
    ensures var outcome := Process(RowFor(job, i), RefreshFor(job, i));
      item in FetchesOf(job, i) <==>
        && outcome.Refreshed? && WantsFetch(job, i, item)
        && (|| outcome.fallback == Some(item)
            || exists k :: 0 <= k < |outcome.accepted| && outcome.accepted[k] < |job.feed.items|
                 && job.feed.items[outcome.accepted[k]] == item)
  {
    var outcome := Process(RowFor(job, i), RefreshFor(job, i));
    if outcome.Refreshed? {
      AcceptedInFeed(RowFor(job, i), RefreshFor(job, i));
      OnlyDeferred(job.feed.items, outcome.accepted, ArgsFor(job, i).fetchType, item);
    }
  }

  /** The call made for the k-th fetch of subscription i. */
  ghost predicate Makes(job: Job, texts: Texts, fetches: seq<seq<Item>>, i: nat, k: nat, c: Call)
    requires i < |fetches| && i < |job.group.subscriptionIds|
  {
    k < |fetches[i]| && c == CallFor(job, texts, i, k, fetches[i][k])
  }

  ghost predicate MadeFor(job: Job, texts: Texts, fetches: seq<seq<Item>>, i: nat, c: Call)
    requires i < |fetches| && i < |job.group.subscriptionIds|
  {
    exists k: nat :: Makes(job, texts, fetches, i, k, c)
  }

  lemma CallsOfExactly(job: Job, texts: Texts, fetches: seq<seq<Item>>, i: nat, c: Call)
    requires i < |fetches| && i < |job.group.subscriptionIds|
    ensures c in CallsOf(job, texts, i, fetches[i]) <==> MadeFor(job, texts, fetches, i, c)
  {
    var calls := CallsOf(job, texts, i, fetches[i]);
    if c in calls {
      var k :| 0 <= k < |calls| && calls[k] == c;
      assert Makes(job, texts, fetches, i, k, c);
    }
    if k: nat :| Makes(job, texts, fetches, i, k, c) { assert calls[k] == c; }
  }

  /** A call is made if and only if some subscription fetches an item with it. */
  lemma {:induction false} JobCallsExactly(job: Job, texts: Texts, fetches: seq<seq<Item>>, n: nat, c: Call)
    requires n <= |fetches| && n <= |job.group.subscriptionIds|
    ensures c in JobCalls(job, texts, fetches, n) <==> exists i: nat :: i < n && MadeFor(job, texts, fetches, i, c)
  {
    if n == 0 {
    } else {
      JobCallsExactly(job, texts, fetches, n - 1, c);
      CallsOfExactly(job, texts, fetches, n - 1, c);
    }
  }

  function FetchCount(fetches: seq<seq<Item>>, n: nat): nat
    requires n <= |fetches|
  {
    if n == 0 then 0 else FetchCount(fetches, n - 1) + |fetches[n - 1]|
  }

  lemma {:induction false} CallsCounted(job: Job, texts: Texts, fetches: seq<seq<Item>>, n: nat)
    requires n <= |fetches| && n <= |job.group.subscriptionIds|
    ensures |JobCalls(job, texts, fetches, n)| == FetchCount(fetches, n)
  {
    if n == 0 {
    } else {
      CallsCounted(job, texts, fetches, n - 1);
    }
  }

  /** Across all URLs the tasks hold one user for each item that a subscription fetches, no more and no fewer. */
  lemma OneUserPerFetch(job: Job, texts: Texts, fetches: seq<seq<Item>>, urls: seq<string>)
    requires |fetches| == |job.group.subscriptionIds|
    requires forall i, j :: 0 <= i < j < |urls| ==> urls[i] != urls[j]
    requires forall c :: c in JobCalls(job, texts, fetches, |fetches|) ==> c.itemUrl in urls
    ensures TotalFor(JobCalls(job, texts, fetches, |fetches|), urls) == FetchCount(fetches, |fetches|)
  {
    UsersConserved(JobCalls(job, texts, fetches, |fetches|), urls);
    CallsCounted(job, texts, fetches, |fetches|);
  }

  // ---------- from the columns to the tasks ----------

  /** The item's own link, else the first of its links, else its GUID. */
  ghost predicate HasLink(item: Item, url: string) {
    && (item.link != "" ==> url == item.link)
    && (item.link == "" && item.links != [] && item.links[0] != "" ==> url == item.links[0])
    && (item.link == "" && (item.links == [] || item.links[0] == "") ==> url == item.guid)
  }

  /** The copy that is kept for the fallback differs only in that its link is filled in, by the same link. */
  lemma CopyKeepsLink(item: Item, url: string)
    requires url != ""
    ensures HasLink(WithLink(item), url) <==> HasLink(item, url)
    ensures WithLink(item).(link := item.link) == item
  {}

  /** The k-th fetch of subscription i is an item with this link, and the user is the subscription's, in its folder. */
  ghost predicate FetchedFor(job: Job, texts: Texts, i: nat, k: nat, url: string, u: User)
    requires Complete(job)
  {
    && i < |job.worlds| && k < |FetchesOf(job, i)| && HasLink(FetchesOf(job, i)[k], url)
    && u.id == (if i < |job.group.userIds| then job.group.userIds[i] else "")
    && u.folder == (if i < |job.group.folders| && job.group.folders[i] != "" then job.group.folders[i] else "following")
    && u.libraryItemId == texts.uuid(i, k)
  }

  lemma MakesIsFetched(job: Job, texts: Texts, fetches: seq<seq<Item>>, i: nat, k: nat, c: Call)
    requires Complete(job) && i < |fetches| == |job.worlds| && Fetched(job, fetches, |job.worlds|)
    requires Makes(job, texts, fetches, i, k, c)
    ensures FetchedFor(job, texts, i, k, c.itemUrl, User(c.userId, c.folder, c.libraryItemId))
    ensures c.feedUrl == job.feedUrl && Stamped(job, texts, i, k, c.isoDate)
  {
    FetchedAt(job, fetches, |job.worlds|, i);
  }

  /** The text is the date of the k-th fetch of subscription i: its publish date, or else its update date. */
  ghost predicate Stamped(job: Job, texts: Texts, i: nat, k: nat, text: string)
    requires Complete(job)
  {
    && i < |job.worlds| && k < |FetchesOf(job, i)|
    && var item := FetchesOf(job, i)[k];
       text == texts.iso(if item.published.Some? then item.published else item.updated)
  }

  lemma FetchedIsMade(job: Job, texts: Texts, fetches: seq<seq<Item>>, i: nat, k: nat, url: string, u: User)
    returns (c: Call)
    requires Complete(job) && |fetches| == |job.worlds| && Fetched(job, fetches, |job.worlds|)
    requires FetchedFor(job, texts, i, k, url, u)
    ensures c in JobCalls(job, texts, fetches, |fetches|) && c.itemUrl == url
    ensures u == User(c.userId, c.folder, c.libraryItemId)
  {
    FetchedAt(job, fetches, |job.worlds|, i);
    c := CallFor(job, texts, i, k, fetches[i][k]);
    assert Makes(job, texts, fetches, i, k, c);
    assert MadeFor(job, texts, fetches, i, c);
    JobCallsExactly(job, texts, fetches, |fetches|, c);
  }

  /**
    After the job a user stands in the fetch task of a URL if and only if a subscription of that user leaves an item
    with that link to a content fetch; and every task names its own URL and the feed, and has the date of such an item.
   */
  lemma TaskUsersExactly(job: Job, texts: Texts, fetches: seq<seq<Item>>, calls: seq<Call>, table: TaskTable,
                         url: string, u: User)
    requires Complete(job) && Accumulated(job, texts, fetches, calls, |job.worlds|) && table.Groups(calls)
    ensures url in table.tasks && u in table.tasks[url].users
      <==> exists i: nat, k: nat :: FetchedFor(job, texts, i, k, url, u)
    ensures url in table.tasks ==>
      && table.tasks[url].url == url && table.tasks[url].rssFeedUrl == job.feedUrl
      && table.tasks[url].savedAt == table.tasks[url].publishedAt
      && exists i: nat, k: nat ::
           Stamped(job, texts, i, k, table.tasks[url].savedAt) && HasLink(FetchesOf(job, i)[k], url)
  {
    CallsForUsers(calls, url, u);
    if url in table.tasks {
      var i, k := FirstOfTask(job, texts, fetches, calls, CallsFor(calls, url)[0], url);
    }
    if c :| c in calls && c.itemUrl == url && u == User(c.userId, c.folder, c.libraryItemId) {
      JobCallsExactly(job, texts, fetches, |fetches|, c);
      var i: nat :| i < |fetches| && MadeFor(job, texts, fetches, i, c);
      var k: nat :| Makes(job, texts, fetches, i, k, c);
      MakesIsFetched(job, texts, fetches, i, k, c);
    }
    if i: nat, k: nat :| FetchedFor(job, texts, i, k, url, u) {
      var c := FetchedIsMade(job, texts, fetches, i, k, url, u);
    }
  }

  lemma FirstOfTask(job: Job, texts: Texts, fetches: seq<seq<Item>>, calls: seq<Call>, c: Call, url: string)
    returns (i: nat, k: nat)
    requires Complete(job) && Accumulated(job, texts, fetches, calls, |job.worlds|) && c in CallsFor(calls, url)
    ensures c.feedUrl == job.feedUrl && Stamped(job, texts, i, k, c.isoDate) && HasLink(FetchesOf(job, i)[k], url)
  {
    OnlyFor(calls, url);
    JobCallsExactly(job, texts, fetches, |fetches|, c);
    i :| i < |fetches| && MadeFor(job, texts, fetches, i, c);
    k :| Makes(job, texts, fetches, i, k, c);
    MakesIsFetched(job, texts, fetches, i, k, c);
  }

  lemma CallsForUsers(calls: seq<Call>, url: string, u: User)
    ensures u in UsersOf(CallsFor(calls, url))
      <==> exists c :: c in calls && c.itemUrl == url && u == User(c.userId, c.folder, c.libraryItemId)
  {
    OnlyFor(calls, url);
    var mine := CallsFor(calls, url);
    if u in UsersOf(mine) {
      var k :| 0 <= k < |mine| && UsersOf(mine)[k] == u;
      assert mine[k] in calls;
    }
    if c :| c in calls && c.itemUrl == url && u == User(c.userId, c.folder, c.libraryItemId) {
      var i :| 0 <= i < |calls| && calls[i] == c;
      CallsForExact(calls, url, i);
      var k := |CallsFor(calls[..i], url)|;
      assert UsersOf(mine)[k] == u;
    }
  }

  /**
    With no NULL id, the i-th refresh of a job whose columns were aggregated from subscription rows starts from the
    watermark and checksum of row i, and fetches for its user.
   */
  lemma RowsReachRefreshes(job: Job, rows: seq<SubscriptionRow>, now: int, i: nat)
    requires Complete(job) && IsGroupOf(job.group, Aggregated(rows), now) && i < |rows|
    requires forall k :: 0 <= k < |rows| ==> rows[k].id.Some? && rows[k].userId.Some?
    ensures i < |job.worlds| && i < |job.group.userIds| && job.group.userIds[i] == rows[i].userId.value
    ensures RowFor(job, i).mostRecentMs == (if rows[i].recentDate.Some? then rows[i].recentDate.value else 0)
    ensures RowFor(job, i).checksum == (if rows[i].checksum.Some? then rows[i].checksum.value else "")
  {
    ColumnsGiveRows(rows, job.group, now, job.fetchBlocked, i);
  }
}
