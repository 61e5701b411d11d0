/**
  Bulk actions (internal/jobs/bulk_action.go): composed statements, and batches of limited UPDATEs on the library table.
 */
module BulkAction {
  import opened Prelude
  import opened BulkFilter
  import opened BulkSweeps

  /** AddLabels only selects rows; their labels are in another table. */
  datatype Action = Archive | Delete | MarkAsRead | MarkAsSeen | MoveToFolder(folder: string) | AddLabels

  // ---------- statements ----------

  /** The fixed condition that follows the filter's fragments. */
  predicate Guard(action: Action, row: Row) {
    match action
    case Archive => row.state != "ARCHIVED" && row.state != "DELETED"
    case Delete => row.state != "DELETED"
    case _ => true
  }

  /** The SET clause. */
  function Changed(action: Action, now: int, row: Row): Row {
    match action
    case Archive => row.(state := "ARCHIVED", archivedAt := Some(now), updatedAt := now)
    case Delete => row.(state := "DELETED", deletedAt := Some(now), updatedAt := now)
    case MarkAsRead => row.(topPercent := 100, bottomPercent := 100, readAt := Some(now))
    case MarkAsSeen => row.(seenAt := Some(now))
    case MoveToFolder(folder) => row.(folder := Some(folder), updatedAt := now)
    case AddLabels => row
  }

  /**
    The text with its placeholders: user_id = $1 <parts> <guard> LIMIT $limitAt, with SET folder = $folderAt for a move.
   */
  datatype Statement = Statement(parts: seq<Fragment>, args: seq<Arg>, folderAt: Option<nat>, limitAt: nat)

  function Compose(user: string, f: Filter, action: Action, limit: int): Statement {
    var c := WholeClause(f, 1);
    var args := [Text(user)] + c.args;
    if action.MoveToFolder?
    then Statement(c.parts, args + [Text(action.folder), Number(limit)], Some(|args| + 1), |args| + 2)
    else Statement(c.parts, args + [Number(limit)], None, |args| + 1)
  }

  method BuildStatement(user: string, f: Filter, action: Action, limit: int) returns (st: Statement)
    ensures st == Compose(user, f, action, limit)
  {
    var parts, args := FilterClause(f, [Text(user)]);
    if action.MoveToFolder? {
      var nFolder := |args| + 1;
      args := args + [Text(action.folder)];
      var nLimit := nFolder + 1;
      args := args + [Number(limit)];
      return Statement(parts, args, Some(nFolder), nLimit);
    }
    var n := |args| + 1;
    args := args + [Number(limit)];
    return Statement(parts, args, None, n);
  }

  predicate StatementInRange(st: Statement) {
    && |st.args| > 0 && st.args[0].Text?
    && (forall c :: c in st.parts ==> InRange(c, st.args))
  }

  function Where(lower: char -> char, st: Statement, action: Action, row: Row): Truth
    requires StatementInRange(st)
  {
    And(And(FromBool(row.user == st.args[0].text), EvalAll(lower, st.parts, st.args, row)),
        FromBool(Guard(action, row)))
  }

  /** The rows an action is meant for. */
  predicate Matches(lower: char -> char, user: string, f: Filter, action: Action, row: Row) {
    row.user == user && Selects(lower, f, row) && Guard(action, row)
  }

  /**
    In every composed statement all placeholders are in range, and the WHERE clause is true of exactly the rows meant.
   */
  lemma StatementMeans(user: string, f: Filter, action: Action, limit: int, lower: char -> char, row: Row)
    ensures var st := Compose(user, f, action, limit);
      && StatementInRange(st)
      && (Where(lower, st, action, row).True? <==> Matches(lower, user, f, action, row))
  {
    var st := Compose(user, f, action, limit);
    var c := WholeClause(f, 1);
    var later := if action.MoveToFolder? then [Text(action.folder), Number(limit)] else [Number(limit)];
    ClauseMeansFilter(f, [Text(user)], later, lower, row);
    assert st.args == [Text(user)] + c.args + later;
  }

  /** Each argument of a composed statement is used by a placeholder; the last ones are the folder and the limit. */
  lemma StatementUsesItsArguments(user: string, f: Filter, action: Action, limit: int)
    ensures var st := Compose(user, f, action, limit);
      && 1 <= st.limitAt <= |st.args| && st.args[st.limitAt - 1] == Number(limit)
      && (if action.MoveToFolder?
          then st.folderAt.Some? && 1 <= st.folderAt.value <= |st.args|
              && st.args[st.folderAt.value - 1] == Text(action.folder)
          else st.folderAt.None?)
      && forall n: nat :: 1 <= n <= |st.args| <==>
           n == 1 || n in AllPlaceholders(st.parts) || st.folderAt == Some(n) || n == st.limitAt
  {
    ClauseUsesItsArguments(f, 1);
  }

  // ---------- running a statement ----------

  /** The statement has a limit, and a folder if its SET clause needs one. */
  predicate Executable(st: Statement, action: Action) {
    && StatementInRange(st)
    && 1 <= st.limitAt <= |st.args| && st.args[st.limitAt - 1].Number? && st.args[st.limitAt - 1].number >= 0
    && (action.MoveToFolder? ==> st.folderAt.Some? && Bound(st.folderAt.value, st.args))
  }

  function LimitOf(st: Statement, action: Action): nat
    requires Executable(st, action)
  {
    st.args[st.limitAt - 1].number
  }

  /** The SET clause of the statement; the folder is what its placeholder is bound to. */
  function Assigned(st: Statement, action: Action, now: int, row: Row): Row
    requires Executable(st, action)
  {
    if action.MoveToFolder?
    then row.(folder := Some(st.args[st.folderAt.value - 1].text), updatedAt := now)
    else Changed(action, now, row)
  }

  /** The rows the WHERE clause of the statement is true of. */
  function Chosen(lower: char -> char, st: Statement, action: Action): Row -> bool {
    (row: Row) => StatementInRange(st) && Where(lower, st, action, row).True?
  }

  /** The rows an action is meant for. */
  function Meant(lower: char -> char, user: string, f: Filter, action: Action): Row -> bool {
    (row: Row) => Matches(lower, user, f, action, row)
  }

  /**
    A composed statement can be run: it picks from the rows meant, up to the limit meant, and changes them as meant.
   */
  lemma ComposedRuns(user: string, f: Filter, action: Action, limit: nat, lower: char -> char, rows: map<Id, Row>,
                     now: int)
    ensures var st := Compose(user, f, action, limit);
      && Executable(st, action) && LimitOf(st, action) == limit
      && Eligible(rows, Chosen(lower, st, action)) == Eligible(rows, Meant(lower, user, f, action))
      && forall row :: Assigned(st, action, now, row) == Changed(action, now, row)
  {
    var st := Compose(user, f, action, limit);
    StatementUsesItsArguments(user, f, action, limit);
    forall row: Row
      ensures StatementInRange(st) && (Where(lower, st, action, row).True? <==> Matches(lower, user, f, action, row))
    {
      StatementMeans(user, f, action, limit, lower, row);
    }
    var row: Row := *;
    StatementMeans(user, f, action, limit, lower, row);
  }

  // ---------- which actions use up their rows ----------

  /** After the action a row no longer matches: archived, deleted, or moved out of the folder searched. */
  predicate Consuming(f: Filter, action: Action) {
    match action
    case Archive => true
    case Delete => true
    case MoveToFolder(folder) => f.folderFilter != "" && f.folderFilter != folder
    case _ => false
  }

  lemma ChangedMatches(lower: char -> char, user: string, f: Filter, action: Action, now: int, row: Row)
    requires Matches(lower, user, f, action, row)
    ensures Matches(lower, user, f, action, Changed(action, now, row)) <==> !Consuming(f, action)
  {}

  // ---------- the table ----------

  ghost function Eligible(rows: map<Id, Row>, matching: Row -> bool): set<Id> {
    set id | id in rows && matching(rows[id])
  }

  /** The rows after the given ones were changed. */
  ghost function After(rows: map<Id, Row>, changed: set<Id>, action: Action, now: int): map<Id, Row> {
    map id | id in rows :: if id in changed then Changed(action, now, rows[id]) else rows[id]
  }

  class Library {
    var rows: map<Id, Row>

    constructor (initial: map<Id, Row>)
      ensures rows == initial
    {
      rows := initial;
    }

    /** Any matching rows, as many as there are up to the limit. */
    method AnyMatching(matching: Row -> bool, limit: nat) returns (ids: set<Id>)
      ensures ids <= Eligible(rows, matching) && |ids| == Min(limit, |Eligible(rows, matching)|)
    {
      ids := {};
      var rest := rows.Keys;
      while rest != {} && |ids| < limit
        invariant rest <= rows.Keys && |ids| <= limit
        invariant ids <= Eligible(rows, matching) <= ids + rest
        decreases |rest|
      {
        var id :| id in rest;
        rest := rest - {id};
        if matching(rows[id]) { ids := ids + {id}; }
      }
      SubsetCard(ids, Eligible(rows, matching));
      if rest == {} { assert ids == Eligible(rows, matching); }
    }

    /** SELECT id ... LIMIT: any rows that the statement chooses, as many as there are up to its limit. */
    method SelectIds(lower: char -> char, st: Statement, action: Action) returns (ids: set<Id>)
      requires Executable(st, action)
      ensures ids <= Eligible(rows, Chosen(lower, st, action))
      ensures |ids| == Min(LimitOf(st, action), |Eligible(rows, Chosen(lower, st, action))|)
    {
      ids := AnyMatching(Chosen(lower, st, action), st.args[st.limitAt - 1].number);
    }

    /** One UPDATE ... WHERE id IN (SELECT ... LIMIT). */
    method Execute(lower: char -> char, st: Statement, action: Action, now: int)
      returns (n: nat, ghost touched: set<Id>)
      requires Executable(st, action)
      modifies this
      ensures touched <= Eligible(old(rows), Chosen(lower, st, action))
      ensures n == |touched| == Min(LimitOf(st, action), |Eligible(old(rows), Chosen(lower, st, action))|)
      ensures rows == map id | id in old(rows) ::
                        if id in touched then Assigned(st, action, now, old(rows)[id]) else old(rows)[id]
    {
      var ids := SelectIds(lower, st, action);
      rows := map id | id in rows :: if id in ids then Assigned(st, action, now, rows[id]) else rows[id];
      return |ids|, ids;
    }

    /** One batch: the statement is composed and run. */
    method OneBatch(lower: char -> char, user: string, f: Filter, action: Action, limit: nat, now: int)
      returns (n: nat, ghost touched: set<Id>)
      modifies this
      ensures touched <= Eligible(old(rows), Meant(lower, user, f, action))
      ensures n == |touched| == Min(limit, |Eligible(old(rows), Meant(lower, user, f, action))|)
      ensures rows == After(old(rows), touched, action, now)
    {
      var st := BuildStatement(user, f, action, limit);
      ComposedRuns(user, f, action, limit, lower, rows, now);
      n, touched := Execute(lower, st, action, now);
    }

    /**
      The batch loop shared by bulkArchive, bulkDelete, bulkMarkAsRead, bulkMarkAsSeen and bulkMoveToFolder;
      `batches` is how many transactions go through before one fails, `picks` the rows that each of them changed.
     */
    method RunBatches(lower: char -> char, user: string, f: Filter, action: Action, batchSize: nat, total: nat,
                      now: int, batches: nat)
      returns (processed: nat, ok: bool, ghost picks: seq<set<Id>>)
      requires batchSize > 0
      modifies this
      ensures Sweep(Eligible(old(rows), Meant(lower, user, f, action)), picks, batchSize, total, RuleOf(f, action))
      ensures ok ==>
        Complete(Eligible(old(rows), Meant(lower, user, f, action)), picks, batchSize, total, RuleOf(f, action))
      ensures processed == Size(picks) && |Union(picks)| <= processed <= total
      ensures rows == After(old(rows), Union(picks), action, now)
      ensures batches >= total ==> ok
    {
      ghost var start := rows;
      processed, ok, picks := 0, true, [];
      var round := 0;
      Untouched(start, action, now);
      while processed < total
        invariant round <= processed == Size(picks) <= total
        invariant Going(start, rows, picks, batchSize, total, lower, user, f, action, now)
        decreases total - processed
      {
        var limit := batchSize;
        if processed + limit > total { limit := total - processed; }
        if round == batches { ok := false; break; }
        round := round + 1;
        ghost var before := rows;
        var n;
        ghost var touched;
        n, touched := OneBatch(lower, user, f, action, limit, now);
        GoingStep(start, before, picks, touched, batchSize, total, lower, user, f, action, now);
        processed, picks := processed + n, picks + [touched];
        if n == 0 { break; }
      }
      SweepFacts(Eligible(start, Meant(lower, user, f, action)), picks, batchSize, total, RuleOf(f, action));
    }
  }

  /** These loops end with an empty batch. */
  function RuleOf(f: Filter, action: Action): Rule {
    Rule(Consuming(f, action), false)
  }

  /** What holds between batches. */
  ghost predicate Going(start: map<Id, Row>, rows: map<Id, Row>, picks: seq<set<Id>>, batchSize: nat, total: nat,
                        lower: char -> char, user: string, f: Filter, action: Action, now: int) {
    && Sweep(Eligible(start, Meant(lower, user, f, action)), picks, batchSize, total, RuleOf(f, action))
    && !Stopped(picks, batchSize, total, RuleOf(f, action))
    && rows == After(start, Union(picks), action, now)
  }

  lemma GoingStep(start: map<Id, Row>, rows: map<Id, Row>, picks: seq<set<Id>>, touched: set<Id>, batchSize: nat,
                  total: nat,
                  lower: char -> char, user: string, f: Filter, action: Action, now: int)
    requires Going(start, rows, picks, batchSize, total, lower, user, f, action, now) && Size(picks) < total
    requires touched <= Eligible(rows, Meant(lower, user, f, action))
    requires |touched| == Min(LimitAfter(picks, batchSize, total), |Eligible(rows, Meant(lower, user, f, action))|)
    ensures Sweep(Eligible(start, Meant(lower, user, f, action)), picks + [touched], batchSize, total,
                  RuleOf(f, action))
    ensures Stopped(picks + [touched], batchSize, total, RuleOf(f, action)) <==> touched == {}
    ensures Size(picks + [touched]) == Size(picks) + |touched| <= total
    ensures After(rows, touched, action, now) == After(start, Union(picks + [touched]), action, now)
  {
    var eligible, rule := Eligible(start, Meant(lower, user, f, action)), RuleOf(f, action);
    SweepFacts(eligible, picks, batchSize, total, rule);
    StillEligible(start, Union(picks), lower, user, f, action, now);
    SweepStep(eligible, picks, touched, batchSize, total, rule);
    SweepFacts(eligible, picks + [touched], batchSize, total, rule);
    ComposeAfter(start, Union(picks), touched, action, now);
  }

  lemma Untouched(rows: map<Id, Row>, action: Action, now: int)
    ensures After(rows, {}, action, now) == rows
  {}

  /** What is still eligible after some eligible rows were changed. */
  lemma StillEligible(rows: map<Id, Row>, changed: set<Id>, lower: char -> char, user: string, f: Filter,
                      action: Action, now: int)
    requires changed <= Eligible(rows, Meant(lower, user, f, action))
    ensures Eligible(After(rows, changed, action, now), Meant(lower, user, f, action))
      == if Consuming(f, action) then Eligible(rows, Meant(lower, user, f, action)) - changed
         else Eligible(rows, Meant(lower, user, f, action))
  {
    var matching := Meant(lower, user, f, action);
    var after := After(rows, changed, action, now);
    forall id | id in rows
      ensures matching(after[id]) <==> matching(rows[id]) && !(Consuming(f, action) && id in changed)
    {
      if id in changed { ChangedMatches(lower, user, f, action, now, rows[id]); }
    }
  }

  lemma ChangedTwice(action: Action, now: int, row: Row)
    ensures Changed(action, now, Changed(action, now, row)) == Changed(action, now, row)
  {}

  lemma ComposeAfter(rows: map<Id, Row>, first: set<Id>, second: set<Id>, action: Action, now: int)
    ensures After(After(rows, first, action, now), second, action, now) == After(rows, first + second, action, now)
  {
    forall id | id in rows { ChangedTwice(action, now, rows[id]); }
  }
}
