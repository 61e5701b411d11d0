/**
  The whole bulk-action job: adding labels in batches, and the dispatch of HandleBulkAction
  (internal/jobs/bulk_action.go).
 */
module BulkJobs {
  import opened Prelude
  import opened BulkFilter
  import opened BulkAction
  import opened BulkSweeps

  // ---------- adding labels ----------

  datatype Pair = Pair(item: Id, labelId: string)

  function AllPairs(items: set<Id>, labelIds: seq<string>): set<Pair> {
    set id, labelId | id in items && labelId in labelIds :: Pair(id, labelId)
  }

  /** The table entity_labels. */
  class EntityLabels {
    var pairs: set<Pair>

    constructor ()
      ensures pairs == {}
    {
      pairs := {};
    }

    /** INSERT ... ON CONFLICT DO NOTHING for each item and label of one batch. */
    method InsertAll(items: set<Id>, labelIds: seq<string>)
      modifies this
      ensures pairs == old(pairs) + AllPairs(items, labelIds)
    {
      var rest := items;
      while rest != {}
        invariant rest <= items && pairs == old(pairs) + AllPairs(items - rest, labelIds)
        decreases |rest|
      {
        ghost var before := pairs;
        var id :| id in rest;
        var i := 0;
        while i < |labelIds|
          invariant 0 <= i <= |labelIds| && pairs == before + AllPairs({id}, labelIds[..i])
        {
          pairs := pairs + {Pair(id, labelIds[i])};
          assert labelIds[..i + 1] == labelIds[..i] + [labelIds[i]];
          i := i + 1;
        }
        assert labelIds[..i] == labelIds;
        PairsUnion(items - rest, {id}, labelIds);
        assert items - (rest - {id}) == (items - rest) + {id};
        rest := rest - {id};
      }
      assert items - rest == items;
    }

    /** One batch: the SELECT is composed and run, and the labels are inserted. */
    method LabelBatch(library: Library, lower: char -> char, user: string, f: Filter, limit: nat, labelIds: seq<string>)
      returns (ids: set<Id>)
      modifies this
      ensures ids <= Eligible(library.rows, Meant(lower, user, f, AddLabels))
      ensures |ids| == Min(limit, |Eligible(library.rows, Meant(lower, user, f, AddLabels))|)
      ensures pairs == old(pairs) + AllPairs(ids, labelIds)
    {
      var st := BuildStatement(user, f, AddLabels, limit);
      ComposedRuns(user, f, AddLabels, limit, lower, library.rows, 0);
      ids := library.SelectIds(lower, st, AddLabels);
      InsertAll(ids, labelIds);
    }

    /**
      bulkAddLabels; `batches` is how many transactions go through before one fails, `picks` the rows of each of them.
     */
    method Label(library: Library, lower: char -> char, user: string, f: Filter, batchSize: nat, total: nat,
                 labelIds: seq<string>, batches: nat)
      returns (processed: nat, ok: bool, ghost picks: seq<set<Id>>)
      requires batchSize > 0
      modifies this
      ensures Sweep(Eligible(library.rows, Meant(lower, user, f, AddLabels)), picks, batchSize, total, LABEL_RULE)
      ensures ok && labelIds != [] ==>
        Complete(Eligible(library.rows, Meant(lower, user, f, AddLabels)), picks, batchSize, total, LABEL_RULE)
      ensures processed == Size(picks) && |Union(picks)| <= processed <= total
      ensures pairs == old(pairs) + AllPairs(Union(picks), labelIds)
      ensures labelIds == [] ==> ok && picks == []
    {
      ghost var eligible := Eligible(library.rows, Meant(lower, user, f, AddLabels));
      processed, picks := 0, [];
      assert AllPairs({}, labelIds) == {};
      if |labelIds| == 0 { return 0, true, []; }
      var round := 0;
      while processed < total
        invariant processed == Size(picks) <= total
        invariant Labelling(eligible, picks, batchSize, total, old(pairs), pairs, labelIds)
        decreases total - processed
      {
        var limit := batchSize;
        if processed + limit > total { limit := total - processed; }
        if round == batches {
          SweepFacts(eligible, picks, batchSize, total, LABEL_RULE);
          return processed, false, picks;
        }
        round := round + 1;
        ghost var before := pairs;
        var ids := LabelBatch(library, lower, user, f, limit, labelIds);
        LabellingStep(eligible, picks, ids, batchSize, total, old(pairs), before, labelIds);
        processed, picks := processed + |ids|, picks + [ids];
        if |ids| < limit { break; }
      }
      SweepFacts(eligible, picks, batchSize, total, LABEL_RULE);
      return processed, true, picks;
    }
  }

  /** What holds between the batches of Label. */
  ghost predicate Labelling(eligible: set<Id>, picks: seq<set<Id>>, batchSize: nat, total: nat,
                            start: set<Pair>, pairs: set<Pair>, labelIds: seq<string>) {
    && Sweep(eligible, picks, batchSize, total, LABEL_RULE) && !Stopped(picks, batchSize, total, LABEL_RULE)
    && pairs == start + AllPairs(Union(picks), labelIds)
  }

  lemma LabellingStep(eligible: set<Id>, picks: seq<set<Id>>, ids: set<Id>, batchSize: nat, total: nat,
                      start: set<Pair>, pairs: set<Pair>, labelIds: seq<string>)
    requires Labelling(eligible, picks, batchSize, total, start, pairs, labelIds) && Size(picks) < total
    requires ids <= eligible && |ids| == Min(LimitAfter(picks, batchSize, total), |eligible|)
    ensures Sweep(eligible, picks + [ids], batchSize, total, LABEL_RULE)
    ensures Stopped(picks + [ids], batchSize, total, LABEL_RULE) <==> |ids| < LimitAfter(picks, batchSize, total)
    ensures Size(picks + [ids]) == Size(picks) + |ids| <= total
    ensures pairs + AllPairs(ids, labelIds) == start + AllPairs(Union(picks + [ids]), labelIds)
  {
    SweepStep(eligible, picks, ids, batchSize, total, LABEL_RULE);
    SweepFacts(eligible, picks + [ids], batchSize, total, LABEL_RULE);
    PairsUnion(Union(picks), ids, labelIds);
  }

  /** Labelled rows go on matching, and the loop ends with a short batch. */
  const LABEL_RULE := Rule(false, true)

  lemma PairsUnion(a: set<Id>, b: set<Id>, labelIds: seq<string>)
    ensures AllPairs(a + b, labelIds) == AllPairs(a, labelIds) + AllPairs(b, labelIds)
  {}

  // ---------- the job ----------

  datatype BulkJob = BulkJob(count: int, userId: string, action: string, query: string, batchSize: int,
                             folder: Option<string>, labelIds: seq<string>)

  function BatchSizeOf(job: BulkJob): nat {
    if job.batchSize <= 0 then 100 else job.batchSize
  }

  function TotalOf(job: BulkJob): nat {
    if job.count <= 0 then BatchSizeOf(job) else job.count
  }

  function FilterOf(job: BulkJob): Filter {
    Meaning(Fields(job.query))
  }

  /** The picks are those of a loop with the job's batch size and total, and of a complete one if nothing failed. */
  ghost predicate Swept(job: BulkJob, eligible: set<Id>, picks: seq<set<Id>>, rule: Rule, ok: bool) {
    && Sweep(eligible, picks, BatchSizeOf(job), TotalOf(job), rule)
    && (ok ==> Complete(eligible, picks, BatchSizeOf(job), TotalOf(job), rule))
  }

  /**
    What that means for the rows: batches hold at most the batch size asked for (or 100), and no more rows are picked
    than the count asked for (or one batch); if nothing failed, exactly as many as are eligible (up to that count) when
    rows stop matching, and at least the first batch otherwise.
   */
  lemma SweptFacts(job: BulkJob, eligible: set<Id>, picks: seq<set<Id>>, rule: Rule, ok: bool)
    requires Swept(job, eligible, picks, rule, ok)
    ensures var batch := if job.batchSize > 0 then job.batchSize else 100;
      var total := if job.count > 0 then job.count else batch;
      && Union(picks) <= eligible && |Union(picks)| <= total
      && (forall i :: 0 <= i < |picks| ==> |picks[i]| <= batch)
      && (ok && rule == Rule(true, false) ==> |Union(picks)| == Min(total, |eligible|))
      && (ok ==> |Union(picks)| >= Min(Min(batch, total), |eligible|))
  {
    SweepFacts(eligible, picks, BatchSizeOf(job), TotalOf(job), rule);
    if ok { CompleteFacts(eligible, picks, BatchSizeOf(job), TotalOf(job), rule); }
  }

  /** The user's rows that the query selects and whose state is none of these. */
  ghost function Wanted(rows: map<Id, Row>, job: BulkJob, lower: char -> char, done: set<string>): set<Id> {
    set id | id in rows && rows[id].user == job.userId && rows[id].state !in done
             && Selects(lower, FilterOf(job), rows[id])
  }

  /** Exactly these rows were changed, and in this way. */
  ghost predicate Touched(rows: map<Id, Row>, rows': map<Id, Row>, ids: set<Id>, change: Row -> Row) {
    && ids <= rows.Keys && rows'.Keys == rows.Keys
    && forall id :: id in rows ==> rows'[id] == if id in ids then change(rows[id]) else rows[id]
  }

  /**
    The rows picked by a loop over the rows wanted were changed in this way, and no other row was; consuming tells
    whether changed rows stop matching.
   */
  ghost predicate Applied(job: BulkJob, rows: map<Id, Row>, rows': map<Id, Row>, lower: char -> char,
                          done: set<string>, change: Row -> Row, consuming: bool, picks: seq<set<Id>>, ok: bool) {
    && Touched(rows, rows', Union(picks), change)
    && Swept(job, Wanted(rows, job, lower, done), picks, Rule(consuming, false), ok)
  }

  /** What is left of the loop's contract once it is read row by row. */
  lemma ApplyFacts(job: BulkJob, rows: map<Id, Row>, rows': map<Id, Row>, lower: char -> char, action: Action, now: int,
                   done: set<string>, change: Row -> Row, picks: seq<set<Id>>, ok: bool)
    requires rows' == After(rows, Union(picks), action, now)
    requires Swept(job, Eligible(rows, Meant(lower, job.userId, FilterOf(job), action)), picks,
                   RuleOf(FilterOf(job), action), ok)
    requires forall row :: Guard(action, row) <==> row.state !in done
    requires forall row :: Changed(action, now, row) == change(row)
    ensures Applied(job, rows, rows', lower, done, change, Consuming(FilterOf(job), action), picks, ok)
  {
    var eligible := Eligible(rows, Meant(lower, job.userId, FilterOf(job), action));
    assert eligible == Wanted(rows, job, lower, done);
    SweptFacts(job, eligible, picks, RuleOf(FilterOf(job), action), ok);
  }

  /** The part of the dispatch that updates rows. */
  method UpdateRows(library: Library, job: BulkJob, action: Action, lower: char -> char, now: int, batches: nat,
                    ghost done: set<string>, ghost change: Row -> Row)
    returns (ok: bool, ghost picks: seq<set<Id>>)
    requires forall row :: Guard(action, row) <==> row.state !in done
    requires forall row :: Changed(action, now, row) == change(row)
    modifies library
    ensures Applied(job, old(library.rows), library.rows, lower, done, change, Consuming(FilterOf(job), action), picks,
                    ok)
  {
    var filter := ParseBulkFilter(job.query);
    var processed;
    processed, ok, picks :=
      library.RunBatches(lower, job.userId, filter, action, BatchSizeOf(job), TotalOf(job), now, batches);
    ApplyFacts(job, old(library.rows), library.rows, lower, action, now, done, change, picks, ok);
  }

  /** The part that labels rows. */
  method LabelRows(library: Library, labels: EntityLabels, job: BulkJob, lower: char -> char, batches: nat)
    returns (ok: bool, ghost picks: seq<set<Id>>)
    modifies labels
    ensures labels.pairs == old(labels.pairs) + AllPairs(Union(picks), job.labelIds)
    ensures Swept(job, Wanted(library.rows, job, lower, {}), picks, Rule(false, true), ok && job.labelIds != [])
  {
    var filter := ParseBulkFilter(job.query);
    var processed;
    processed, ok, picks :=
      labels.Label(library, lower, job.userId, filter, BatchSizeOf(job), TotalOf(job), job.labelIds, batches);
    assert Eligible(library.rows, Meant(lower, job.userId, FilterOf(job), AddLabels))
        == Wanted(library.rows, job, lower, {});
  }

  /**
    The whole job, from the query text to the columns. Each action changes the columns named here in the rows that its
    batches picked, and nothing else; a move without a folder is an error, and an unknown action does nothing.
   */
  method HandleBulkAction(library: Library, labels: EntityLabels, job: BulkJob, lower: char -> char, now: int,
                          batches: nat)
    returns (ok: bool, ghost picks: seq<set<Id>>)
    modifies library, labels
    ensures job.action == "ARCHIVE" ==>
      Applied(job, old(library.rows), library.rows, lower, {"ARCHIVED", "DELETED"},
              (row: Row) => row.(state := "ARCHIVED", archivedAt := Some(now), updatedAt := now), true, picks, ok)
    ensures job.action == "DELETE" ==>
      Applied(job, old(library.rows), library.rows, lower, {"DELETED"},
              (row: Row) => row.(state := "DELETED", deletedAt := Some(now), updatedAt := now), true, picks, ok)
    ensures job.action == "MARK_AS_READ" ==>
      Applied(job, old(library.rows), library.rows, lower, {},
              (row: Row) => row.(topPercent := 100, bottomPercent := 100, readAt := Some(now)), false, picks, ok)
    ensures job.action == "MARK_AS_SEEN" ==>
      Applied(job, old(library.rows), library.rows, lower, {}, (row: Row) => row.(seenAt := Some(now)), false, picks,
              ok)
    ensures job.action == "MOVE_TO_FOLDER" && job.folder.Some? && job.folder.value != "" ==>
      Applied(job, old(library.rows), library.rows, lower, {},
              (row: Row) => row.(folder := job.folder, updatedAt := now),
              FilterOf(job).folderFilter != "" && Some(FilterOf(job).folderFilter) != job.folder, picks, ok)
    ensures job.action == "MOVE_TO_FOLDER" && (job.folder == None || job.folder == Some("")) ==>
      !ok && picks == [] && library.rows == old(library.rows)
    ensures job.action == "ADD_LABELS" ==>
      && library.rows == old(library.rows)
      && labels.pairs == old(labels.pairs) + AllPairs(Union(picks), job.labelIds)
      && Swept(job, Wanted(old(library.rows), job, lower, {}), picks, Rule(false, true), ok && job.labelIds != [])
    ensures job.action != "ADD_LABELS" ==> labels.pairs == old(labels.pairs)
    ensures job.action !in {"ARCHIVE", "DELETE", "MARK_AS_READ", "MARK_AS_SEEN", "ADD_LABELS", "MOVE_TO_FOLDER"} ==>
      ok && picks == [] && library.rows == old(library.rows)
  {
    match job.action {
      case "ARCHIVE" =>
        ok, picks := UpdateRows(library, job, Archive, lower, now, batches, {"ARCHIVED", "DELETED"},
                                (row: Row) => row.(state := "ARCHIVED", archivedAt := Some(now), updatedAt := now));
      case "DELETE" =>
        ok, picks := UpdateRows(library, job, Delete, lower, now, batches, {"DELETED"},
                                (row: Row) => row.(state := "DELETED", deletedAt := Some(now), updatedAt := now));
      case "MARK_AS_READ" =>
        ok, picks := UpdateRows(library, job, MarkAsRead, lower, now, batches, {},
                                (row: Row) => row.(topPercent := 100, bottomPercent := 100, readAt := Some(now)));
      case "MARK_AS_SEEN" =>
        ok, picks := UpdateRows(library, job, MarkAsSeen, lower, now, batches, {},
                                (row: Row) => row.(seenAt := Some(now)));
      case "ADD_LABELS" =>
        ok, picks := LabelRows(library, labels, job, lower, batches);
      case "MOVE_TO_FOLDER" =>
        if job.folder.None? || job.folder.value == "" { return false, []; }
        ok, picks := UpdateRows(library, job, MoveToFolder(job.folder.value), lower, now, batches, {},
                                (row: Row) => row.(folder := job.folder, updatedAt := now));
      case _ => return true, [];
    }
  }
}
