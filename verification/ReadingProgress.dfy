/** Flushing buffered reading progress from Redis to the library item (internal/jobs/sync_read_positions.go). */
module ReadingProgress {

  /** A buffered update; percents are reals, times are in nanoseconds. */
  datatype Entry = Entry(bottom: real, top: real, anchor: int, updatedAt: int)

  /** A member of the Redis set: JSON that parses, or not. */
  datatype Member = Valid(entry: Entry) | Invalid(raw: string)

  /** The progress columns of the library item. */
  datatype Progress = Progress(top: real, bottom: real, anchor: int)

  /** What a flush passes to the UPDATE as $2, $3 and $4. */
  datatype Aggregate = Aggregate(top: real, bottom: real, anchor: int)

  const ZERO_TIME: int := -62_135_596_800 * 1_000_000_000
  const FRESH: int := 60 * 1_000_000_000

  // ---------- the UPDATE ----------

  /** CASE WHEN column < $v THEN $v WHEN $v = 0 THEN 0 ELSE column END. */
  function MergePercent(column: real, v: real): real {
    if column < v then v else if v == 0.0 then 0.0 else column
  }

  /** The anchor's CASE looks at the top percent instead of the anchor. */
  function MergeAnchor(top: real, column: int, v: int): int {
    if top < v as real then v else if v == 0 then 0 else column
  }

  function SetAll(row: Progress, a: Aggregate): Progress {
    Progress(MergePercent(row.top, a.top), MergePercent(row.bottom, a.bottom),
             MergeAnchor(row.top, row.anchor, a.anchor))
  }

  predicate Guard(row: Progress, a: Aggregate) {
    (row.top < a.top || a.top == 0.0) || (row.bottom < a.bottom || a.bottom == 0.0)
        || (row.anchor < a.anchor || a.anchor == 0)
  }

  function Update(row: Progress, a: Aggregate): Progress {
    if Guard(row, a) then SetAll(row, a) else row
  }

  function MaxReal(a: real, b: real): real {
    if a >= b then a else b
  }

  /** For the percents the flush is a maximum, or a reset on 0, and the WHERE guard makes no difference. */
  lemma UpdateIsMaxMerge(row: Progress, a: Aggregate)
    requires row.top >= 0.0 && row.bottom >= 0.0
    ensures Update(row, a).top == if a.top == 0.0 then 0.0 else MaxReal(row.top, a.top)
    ensures Update(row, a).bottom == if a.bottom == 0.0 then 0.0 else MaxReal(row.bottom, a.bottom)
    ensures Update(row, a).top == SetAll(row, a).top && Update(row, a).bottom == SetAll(row, a).bottom
  {}

  /** Flushing the same aggregate again changes neither percent. */
  lemma UpdateIdempotent(row: Progress, a: Aggregate)
    requires row.top >= 0.0 && row.bottom >= 0.0 && a.top >= 0.0 && a.bottom >= 0.0
    ensures Update(Update(row, a), a).top == Update(row, a).top
    ensures Update(Update(row, a), a).bottom == Update(row, a).bottom
  {}

  /**
    The highest read anchor, on the other hand, goes down if and only if the flush goes through with a smaller
    anchor, and the top percent of the row is below that anchor or the anchor is 0.
   */
  lemma AnchorFallsExactly(row: Progress, a: Aggregate)
    ensures Update(row, a).anchor < row.anchor <==>
      Guard(row, a) && a.anchor < row.anchor && (row.top < a.anchor as real || a.anchor == 0)
  {}

  /** It goes up if and only if the flush has a greater anchor, and one that lies above the top percent of the row. */
  lemma AnchorRisesExactly(row: Progress, a: Aggregate)
    requires row.anchor >= 0
    ensures Update(row, a).anchor > row.anchor <==> a.anchor > row.anchor && row.top < a.anchor as real
    ensures Update(row, a).anchor == row.anchor || Update(row, a).anchor == a.anchor
  {}

  /** For instance, in an article read to 10 percent from the top. */
  lemma AnchorCanFall()
    ensures Update(Progress(10.0, 0.0, 30), Aggregate(5.0, 50.0, 20)).anchor == 20
  {}

  // ---------- aggregation ----------

  datatype Column = Top | Bottom

  function EntryValue(e: Entry, c: Column): real {
    match c case Top => e.top case Bottom => e.bottom
  }

  function RowValue(row: Progress, c: Column): real {
    match c case Top => row.top case Bottom => row.bottom
  }

  function AggregateValue(a: Aggregate, c: Column): real {
    match c case Top => a.top case Bottom => a.bottom
  }

  /** v is the greatest value of the column over the valid members, or 0 if none is positive. */
  ghost predicate IsMax(v: real, members: set<Member>, c: Column) {
    && v >= 0.0
    && (forall e :: Valid(e) in members ==> EntryValue(e, c) <= v)
    && (v == 0.0 || exists e :: Valid(e) in members && EntryValue(e, c) == v)
  }

  ghost predicate IsAggregate(a: Aggregate, members: set<Member>) {
    && IsMax(a.top, members, Top) && IsMax(a.bottom, members, Bottom) && a.anchor >= 0
    && (forall e :: Valid(e) in members ==> e.anchor <= a.anchor)
    && (a.anchor == 0 || exists e :: Valid(e) in members && e.anchor == a.anchor)
  }

  ghost predicate HasValid(members: set<Member>) {
    exists e :: Valid(e) in members
  }

  /** Some valid member was updated less than a minute ago; a missing date counts as the zero time. */
  ghost predicate StillFresh(members: set<Member>, now: int) {
    now - ZERO_TIME < FRESH || exists e :: Valid(e) in members && now - e.updatedAt < FRESH
  }

  /** Any clock after 1970 is a minute past the zero time, so what keeps a key fresh is an update in the last minute. */
  lemma FreshForAMinute(members: set<Member>, now: int)
    requires now >= 0
    ensures StillFresh(members, now) <==> exists e :: Valid(e) in members && e.updatedAt > now - 60_000_000_000
  {}

  ghost predicate Lists(entries: seq<Entry>, members: set<Member>) {
    forall e :: e in entries <==> Valid(e) in members
  }

  /** The Redis set and the row of one reading-progress key. */
  class Key {
    var members: set<Member>
    var row: Progress

    constructor (row: Progress)
      ensures members == {} && this.row == row
    {
      this.row := row;
      members := {};
    }

    /** The members in the order SMEMBERS returns them, with the invalid ones skipped. */
    method ReadEntries(snapshot: set<Member>) returns (entries: seq<Entry>)
      ensures Lists(entries, snapshot)
    {
      entries := [];
      var rest := snapshot;
      while rest != {}
        invariant rest <= snapshot
        invariant forall e :: e in entries <==> Valid(e) in snapshot - rest
        decreases |rest|
      {
        var m :| m in rest;
        rest := rest - {m};
        if m.Valid? { entries := entries + [m.entry]; }
      }
    }

    /** syncReadKey, run without interruption; the two flags say whether the UPDATE and the SREM go through. */
    method SyncReadKey(now: int, updateOk: bool, removeOk: bool)
      modifies this
      ensures !HasValid(old(members)) || StillFresh(old(members), now) || !updateOk ==>
        members == old(members) && row == old(row)
      ensures HasValid(old(members)) && !StillFresh(old(members), now) && updateOk ==>
        && members == (if removeOk then {} else old(members))
        && exists a :: IsAggregate(a, old(members)) && row == Update(old(row), a)
    {
      var snapshot := members;
      if snapshot == {} { return; }
      var entries := ReadEntries(snapshot);
      if |entries| == 0 { return; }
      assert entries[0] in entries;

      var mostRecent := ZERO_TIME;
      var i := 0;
      while i < |entries|
        invariant 0 <= i <= |entries| && mostRecent >= ZERO_TIME
        invariant mostRecent == ZERO_TIME || exists k :: 0 <= k < i && entries[k].updatedAt == mostRecent
        invariant forall k :: 0 <= k < i ==> entries[k].updatedAt <= mostRecent
      {
        if entries[i].updatedAt > mostRecent { mostRecent := entries[i].updatedAt; }
        i := i + 1;
      }
      FreshByMostRecent(entries, snapshot, mostRecent, now);
      if now - mostRecent < FRESH { return; }

      var a := MaxOf(entries);
      AggregateOfList(entries, snapshot, a);
      if !updateOk { return; }
      if Guard(row, a) { row := SetAll(row, a); }
      if !removeOk { return; }
      members := members - snapshot;
    }

    method MaxOf(entries: seq<Entry>) returns (a: Aggregate)
      ensures BoundsList(a, entries, |entries|)
    {
      a := Aggregate(0.0, 0.0, 0);
      var i := 0;
      while i < |entries|
        invariant 0 <= i <= |entries| && BoundsList(a, entries, i)
      {
        var e := entries[i];
        if e.top > a.top { a := a.(top := e.top); }
        if e.bottom > a.bottom { a := a.(bottom := e.bottom); }
        if e.anchor > a.anchor { a := a.(anchor := e.anchor); }
        i := i + 1;
      }
    }
  }

  /** a holds the maxima over the first n entries, starting from 0. */
  ghost predicate BoundsList(a: Aggregate, entries: seq<Entry>, n: nat)
    requires n <= |entries|
  {
    && a.top >= 0.0 && a.bottom >= 0.0 && a.anchor >= 0
    && (forall k :: 0 <= k < n ==>
          entries[k].top <= a.top && entries[k].bottom <= a.bottom && entries[k].anchor <= a.anchor)
    && (a.top == 0.0 || exists k :: 0 <= k < n && entries[k].top == a.top)
    && (a.bottom == 0.0 || exists k :: 0 <= k < n && entries[k].bottom == a.bottom)
    && (a.anchor == 0 || exists k :: 0 <= k < n && entries[k].anchor == a.anchor)
  }

  lemma AggregateOfList(entries: seq<Entry>, members: set<Member>, a: Aggregate)
    requires Lists(entries, members) && BoundsList(a, entries, |entries|)
    ensures IsAggregate(a, members)
  {
    forall e | Valid(e) in members ensures e.top <= a.top && e.bottom <= a.bottom && e.anchor <= a.anchor {
      assert e in entries;
    }
    if a.top != 0.0 {
      var k :| 0 <= k < |entries| && entries[k].top == a.top;
      assert entries[k] in entries && Valid(entries[k]) in members && EntryValue(entries[k], Top) == a.top;
    }
    if a.bottom != 0.0 {
      var k :| 0 <= k < |entries| && entries[k].bottom == a.bottom;
      assert entries[k] in entries && Valid(entries[k]) in members && EntryValue(entries[k], Bottom) == a.bottom;
    }
    if a.anchor != 0 {
      var k :| 0 <= k < |entries| && entries[k].anchor == a.anchor;
      assert entries[k] in entries && Valid(entries[k]) in members;
    }
  }

  lemma FreshByMostRecent(entries: seq<Entry>, members: set<Member>, mostRecent: int, now: int)
    requires Lists(entries, members) && mostRecent >= ZERO_TIME
    requires mostRecent == ZERO_TIME || exists k :: 0 <= k < |entries| && entries[k].updatedAt == mostRecent
    requires forall k :: 0 <= k < |entries| ==> entries[k].updatedAt <= mostRecent
    ensures now - mostRecent < FRESH <==> StillFresh(members, now)
  {
    if mostRecent != ZERO_TIME {
      var k :| 0 <= k < |entries| && entries[k].updatedAt == mostRecent;
      assert entries[k] in entries && Valid(entries[k]) in members;
    }
    forall e | Valid(e) in members ensures e.updatedAt <= mostRecent { assert e in entries; }
  }
}
