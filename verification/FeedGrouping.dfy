/**
  How refresh-all-feeds groups subscriptions into columns, how refresh-feed reads them back by index,
  and how fetch-content work is grouped by item URL.
 */
module FeedGrouping {
  import opened Prelude

  // ---------- fetch-content tasks ----------

  /** One call of accumulateFetchContentTask; libraryItemId is the fresh UUID it draws. */
  datatype Call = Call(userId: string, folder: string, itemUrl: string, feedUrl: string, isoDate: string,
                       libraryItemId: string)

  datatype User = User(id: string, folder: string, libraryItemId: string)

  datatype Task = Task(url: string, users: seq<User>, rssFeedUrl: string, savedAt: string, publishedAt: string)

  function UserOf(c: Call): User {
    User(c.userId, c.folder, c.libraryItemId)
  }

  /** The calls for one URL, in order. */
  function CallsFor(calls: seq<Call>, url: string): seq<Call> {
    if calls == [] then []
    else
      var before := CallsFor(calls[..|calls| - 1], url);
      var last := calls[|calls| - 1];
      if last.itemUrl == url then before + [last] else before
  }

  function UsersOf(calls: seq<Call>): seq<User> {
    seq(|calls|, i requires 0 <= i < |calls| => UserOf(calls[i]))
  }

  lemma CallsForSnoc(earlier: seq<Call>, c: Call, url: string)
    ensures CallsFor(earlier + [c], url)
      == if url == c.itemUrl then CallsFor(earlier, url) + [c] else CallsFor(earlier, url)
  {
    assert (earlier + [c])[..|earlier|] == earlier;
  }

  lemma UsersSnoc(mine: seq<Call>, c: Call)
    ensures UsersOf(mine + [c]) == UsersOf(mine) + [UserOf(c)]
  {}

  class TaskTable {
    var tasks: map<string, Task>

    constructor ()
      ensures tasks == map[]
    {
      tasks := map[];
    }

    /**
      The tasks are the given calls grouped by URL: dated by the first call, with the users of all of them in order.
     */
    ghost predicate Groups(calls: seq<Call>)
      reads this
    {
      && (forall url :: url in tasks <==> CallsFor(calls, url) != [])
      && forall url :: url in tasks ==>
           var mine := CallsFor(calls, url);
           tasks[url] == Task(url, UsersOf(mine), mine[0].feedUrl, mine[0].isoDate, mine[0].isoDate)
    }

    /** accumulateFetchContentTask. */
    method Accumulate(c: Call, ghost earlier: seq<Call>)
      requires Groups(earlier)
      modifies this
      ensures Groups(earlier + [c])
    {
      var task := if c.itemUrl in tasks then tasks[c.itemUrl]
                  else Task(c.itemUrl, [], c.feedUrl, c.isoDate, c.isoDate);
      tasks := tasks[c.itemUrl := task.(users := task.users + [UserOf(c)])];
      forall url ensures CallsFor(earlier + [c], url)
                      == if url == c.itemUrl then CallsFor(earlier, url) + [c] else CallsFor(earlier, url) {
        CallsForSnoc(earlier, c, url);
      }
      UsersSnoc(CallsFor(earlier, c.itemUrl), c);
    }

    /** All the calls of one refresh-feed job. */
    method AccumulateAll(calls: seq<Call>)
      requires Groups([])
      modifies this
      ensures Groups(calls)
    {
      var i := 0;
      while i < |calls|
        invariant 0 <= i <= |calls|
        invariant Groups(calls[..i])
      {
        assert calls[..i + 1] == calls[..i] + [calls[i]];
        Accumulate(calls[i], calls[..i]);
        i := i + 1;
      }
      assert calls[..i] == calls;
    }
  }

  /**
    CallsFor(calls, url) is exactly the subsequence of calls with that URL: nothing is lost, duplicated or reordered.
   */
  lemma {:induction false} CallsForExact(calls: seq<Call>, url: string, i: nat)
    requires i < |calls|
    ensures var before := |CallsFor(calls[..i], url)|;
      if calls[i].itemUrl == url
      then before < |CallsFor(calls, url)| && CallsFor(calls, url)[before] == calls[i]
      else forall c :: c in CallsFor(calls, url) ==> c != calls[i]
  {
    var n := |calls| - 1;
    OnlyFor(calls, url);
    if i < n {
      CallsForExact(calls[..n], url, i);
      assert calls[..n][..i] == calls[..i];
    }
  }

  lemma {:induction false} OnlyFor(calls: seq<Call>, url: string)
    ensures forall c :: c in CallsFor(calls, url) ==> c.itemUrl == url && c in calls
  {
    if calls == [] {
    } else {
      OnlyFor(calls[..|calls| - 1], url);
    }
  }

  /** No user is lost or counted twice: the tasks of all URLs hold as many users as there were calls. */
  lemma {:induction false} UsersConserved(calls: seq<Call>, urls: seq<string>)
    requires forall i, j :: 0 <= i < j < |urls| ==> urls[i] != urls[j]
    requires forall c :: c in calls ==> c.itemUrl in urls
    ensures TotalFor(calls, urls) == |calls|
  {
    if calls == [] {
      NoneFor(urls);
    } else {
      var n := |calls| - 1;
      UsersConserved(calls[..n], urls);
      LastCounted(calls, urls);
    }
  }

  function TotalFor(calls: seq<Call>, urls: seq<string>): nat {
    if urls == [] then 0 else |CallsFor(calls, urls[0])| + TotalFor(calls, urls[1..])
  }

  lemma {:induction false} NoneFor(urls: seq<string>)
    ensures TotalFor([], urls) == 0
  {
    if urls == [] {
    } else {
      NoneFor(urls[1..]);
    }
  }

  lemma {:induction false} LastCounted(calls: seq<Call>, urls: seq<string>)
    requires calls != [] && forall i, j :: 0 <= i < j < |urls| ==> urls[i] != urls[j]
    ensures TotalFor(calls, urls) == TotalFor(calls[..|calls| - 1], urls)
      + if calls[|calls| - 1].itemUrl in urls then 1 else 0
  {
    if urls == [] {
    } else {
      LastCounted(calls, urls[1..]);
    }
  }

  // ---------- the columns of a subscription group ----------

  /** A subscription row as the grouping query reads it; None is NULL. Dates are in ms. */
  datatype SubscriptionRow = SubscriptionRow(id: Option<string>, userId: Option<string>, recentDate: Option<int>,
                                             scheduledDate: Option<int>, checksum: Option<string>,
                                             folder: Option<string>, fetchType: Option<string>)

  /** The ARRAY_AGG columns of one group. */
  datatype Columns = Columns(ids: seq<Option<string>>, userIds: seq<Option<string>>, recentDates: seq<Option<int>>,
                             scheduledDates: seq<Option<int>>, checksums: seq<Option<string>>,
                             folders: seq<Option<string>>, fetchTypes: seq<Option<string>>)

  datatype Group = Group(subscriptionIds: seq<string>, userIds: seq<string>, mostRecentItemDates: seq<int>,
                         scheduledDates: seq<int>, checksums: seq<string>, folders: seq<string>,
                         fetchContentTypes: seq<string>)

  function Aggregated(rows: seq<SubscriptionRow>): Columns {
    Columns(seq(|rows|, i requires 0 <= i < |rows| => rows[i].id),
            seq(|rows|, i requires 0 <= i < |rows| => rows[i].userId),
            seq(|rows|, i requires 0 <= i < |rows| => rows[i].recentDate),
            seq(|rows|, i requires 0 <= i < |rows| => rows[i].scheduledDate),
            seq(|rows|, i requires 0 <= i < |rows| => rows[i].checksum),
            seq(|rows|, i requires 0 <= i < |rows| => rows[i].folder),
            seq(|rows|, i requires 0 <= i < |rows| => rows[i].fetchType))
  }

  /** The elements that are not NULL. */
  function Valid<T>(column: seq<Option<T>>): seq<T> {
    if column == [] then []
    else
      var before := Valid(column[..|column| - 1]);
      match column[|column| - 1] case None => before case Some(v) => before + [v]
  }

  method AppendValid<T>(column: seq<Option<T>>) returns (r: seq<T>)
    ensures r == Valid(column)
  {
    r := [];
    var i := 0;
    while i < |column|
      invariant 0 <= i <= |column| && r == Valid(column[..i])
    {
      assert column[..i + 1][..i] == column[..i];
      if column[i].Some? { r := r + [column[i].value]; }
      i := i + 1;
    }
    assert column[..i] == column;
  }

  method AppendOr<T>(column: seq<Option<T>>, default: T) returns (r: seq<T>)
    ensures |r| == |column|
    ensures forall i :: 0 <= i < |r| ==> r[i] == if column[i].Some? then column[i].value else default
  {
    r := [];
    var i := 0;
    while i < |column|
      invariant 0 <= i <= |column| == |column| && |r| == i
      invariant forall k :: 0 <= k < i ==> r[k] == if column[k].Some? then column[k].value else default
    {
      r := r + [if column[i].Some? then column[i].value else default];
      i := i + 1;
    }
  }

  function Or<T>(v: Option<T>, default: T): T {
    match v case None => default case Some(x) => x
  }

  /** The group that BuildGroup makes of some rows. */
  ghost predicate IsGroupOf(g: Group, c: Columns, now: int) {
    && g.subscriptionIds == Valid(c.ids) && g.userIds == Valid(c.userIds)
    && |g.mostRecentItemDates| == |c.recentDates|
    && (forall i :: 0 <= i < |c.recentDates| ==> g.mostRecentItemDates[i] == Or(c.recentDates[i], 0))
    && |g.scheduledDates| == |c.scheduledDates|
    && (forall i :: 0 <= i < |c.scheduledDates| ==> g.scheduledDates[i] == Or(c.scheduledDates[i], now))
    && |g.checksums| == |c.checksums|
    && (forall i :: 0 <= i < |c.checksums| ==> g.checksums[i] == Or(c.checksums[i], ""))
    && |g.folders| == |c.folders|
    && (forall i :: 0 <= i < |c.folders| ==> g.folders[i] == Or(c.folders[i], "following"))
    && |g.fetchContentTypes| == |c.fetchTypes|
    && (forall i :: 0 <= i < |c.fetchTypes| ==> g.fetchContentTypes[i] == Or(c.fetchTypes[i], "NEVER"))
  }

  /** The column loops of querySubscriptionGroups, for one group; now is the clock in ms. */
  method BuildGroup(c: Columns, now: int) returns (g: Group)
    ensures IsGroupOf(g, c, now)
  {
    var ids := AppendValid(c.ids);
    var users := AppendValid(c.userIds);
    var recent := AppendOr(c.recentDates, 0);
    var scheduled := AppendOr(c.scheduledDates, now);
    var checksums := AppendOr(c.checksums, "");
    var folders := AppendOr(c.folders, "following");
    var fetchTypes := AppendOr(c.fetchTypes, "NEVER");
    return Group(ids, users, recent, scheduled, checksums, folders, fetchTypes);
  }

  // ---------- reading the columns back ----------

  /** The arguments of one processSubscription call. */
  datatype SubscriptionArgs = SubscriptionArgs(subscriptionId: string, userId: string, mostRecentMs: int,
                                               scheduledMs: int,
                                               lastChecksum: string, fetchType: string, folder: string)

  /** safeIdx, safeStr and safeInt64. */
  function SafeAt<T>(s: seq<T>, i: nat, default: T): T {
    if i < |s| then s[i] else default
  }

  /** The i-th round of HandleRefreshFeed's subscription loop. */
  function ArgsAt(g: Group, i: nat, fetchBlocked: bool): SubscriptionArgs
    requires i < |g.subscriptionIds|
  {
    var fetchType := SafeAt(g.fetchContentTypes, i, "");
    var folder := SafeAt(g.folders, i, "");
    SubscriptionArgs(g.subscriptionIds[i], SafeAt(g.userIds, i, ""), SafeAt(g.mostRecentItemDates, i, 0),
                     SafeAt(g.scheduledDates, i, 0), SafeAt(g.checksums, i, ""),
                     if fetchBlocked then "NEVER" else fetchType, if folder == "" then "following" else folder)
  }

  /** What the row itself asks for. */
  function ArgsOf(row: SubscriptionRow, now: int, fetchBlocked: bool): SubscriptionArgs
    requires row.id.Some? && row.userId.Some?
  {
    SubscriptionArgs(row.id.value, row.userId.value, Or(row.recentDate, 0), Or(row.scheduledDate, now),
                     Or(row.checksum, ""),
                     if fetchBlocked then "NEVER" else Or(row.fetchType, "NEVER"),
                     if Or(row.folder, "") == "" then "following" else row.folder.value)
  }

  lemma {:induction false} ValidLength<T>(column: seq<Option<T>>)
    ensures |Valid(column)| <= |column|
    ensures |Valid(column)| == |column| <==> forall i :: 0 <= i < |column| ==> column[i].Some?
    ensures (forall i :: 0 <= i < |column| ==> column[i].Some?) ==>
      forall i :: 0 <= i < |column| ==> Valid(column)[i] == column[i].value
  {
    if column == [] {
    } else {
      var n := |column| - 1;
      ValidLength(column[..n]);
      if forall i :: 0 <= i < |column| ==> column[i].Some? {
        assert forall i :: 0 <= i < n ==> column[..n][i].Some?;
      } else if column[n].Some? {
        var i :| 0 <= i < |column| && column[i].None?;
        assert column[..n][i].None?;
      }
    }
  }

  /** Nothing is cut from the id columns exactly when they hold no NULL. */
  lemma IdColumnsWhole(rows: seq<SubscriptionRow>)
    ensures |Valid(Aggregated(rows).ids)| == |rows| <==> forall i :: 0 <= i < |rows| ==> rows[i].id.Some?
    ensures |Valid(Aggregated(rows).userIds)| == |rows| <==> forall i :: 0 <= i < |rows| ==> rows[i].userId.Some?
  {
    var c := Aggregated(rows);
    ValidLength(c.ids);
    ValidLength(c.userIds);
    if i :| 0 <= i < |rows| && rows[i].id.None? { assert c.ids[i].None?; }
    if i :| 0 <= i < |rows| && rows[i].userId.None? { assert c.userIds[i].None?; }
  }

  /**
    With no NULL id, index i across all columns gives back row i with its defaults, and no index falls outside a column.
   */
  lemma ColumnsGiveRows(rows: seq<SubscriptionRow>, g: Group, now: int, fetchBlocked: bool, i: nat)
    requires IsGroupOf(g, Aggregated(rows), now) && i < |rows|
    requires forall k :: 0 <= k < |rows| ==> rows[k].id.Some? && rows[k].userId.Some?
    ensures |g.subscriptionIds| == |g.userIds| == |g.mostRecentItemDates| == |g.scheduledDates| == |rows|
    ensures |g.checksums| == |g.folders| == |g.fetchContentTypes| == |rows|
    ensures ArgsAt(g, i, fetchBlocked) == ArgsOf(rows[i], now, fetchBlocked)
  {
    var c := Aggregated(rows);
    ValidLength(c.ids);
    ValidLength(c.userIds);
    assert c.ids[i] == rows[i].id && c.userIds[i] == rows[i].userId;
    assert forall k :: 0 <= k < |c.ids| ==> c.ids[k] == rows[k].id;
    assert forall k :: 0 <= k < |c.userIds| ==> c.userIds[k] == rows[k].userId;
  }

  /** The subscription loop of HandleRefreshFeed: the calls it makes, in order. */
  method Dispatch(g: Group, fetchBlocked: bool) returns (calls: seq<SubscriptionArgs>)
    ensures |calls| == |g.subscriptionIds|
    ensures forall i :: 0 <= i < |calls| ==> calls[i] == ArgsAt(g, i, fetchBlocked)
  {
    calls := [];
    var i := 0;
    while i < |g.subscriptionIds|
      invariant 0 <= i <= |g.subscriptionIds| && |calls| == i
      invariant forall k :: 0 <= k < i ==> calls[k] == ArgsAt(g, k, fetchBlocked)
    {
      calls := calls + [ArgsAt(g, i, fetchBlocked)];
      i := i + 1;
    }
  }
}
