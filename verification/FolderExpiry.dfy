/**
  The procedure omnivore.expire_folders (migrations/0182.do.folder_policy.sql): a cursor over policies, one UPDATE each.
 */
module FolderExpiry {
  import opened Prelude

  datatype ItemState = SUCCEEDED | FAILED | PROCESSING | ARCHIVED | DELETED | CONTENT_NOT_FETCHED

  datatype PolicyAction = DELETE | ARCHIVE

  datatype Policy = Policy(id: string, userId: string, folder: string, action: PolicyAction, afterDays: int)

  datatype Item = Item(userId: string, folder: string, createdAt: int, state: ItemState,
                       deletedAt: Option<int>, archivedAt: Option<int>)

  datatype Id = Id(uuid: string)

  /** Whether an item's age makes a policy apply; the clock stands still during a call. */
  type AgeTest = (Policy, Item) -> bool

  /** The age test reads the policy and the creation date only. */
  ghost predicate ByDateOnly(aged: AgeTest) {
    forall p, i1: Item, i2: Item :: i1.createdAt == i2.createdAt ==> aged(p, i1) == aged(p, i2)
  }

  function OldStates(a: PolicyAction): set<ItemState> {
    match a
    case DELETE => {SUCCEEDED, FAILED, ARCHIVED, PROCESSING, CONTENT_NOT_FETCHED}
    case ARCHIVE => {SUCCEEDED, FAILED, PROCESSING, CONTENT_NOT_FETCHED}
  }

  predicate InScope(p: Policy, item: Item, aged: AgeTest) {
    item.userId == p.userId && item.folder == p.folder && aged(p, item)
  }

  /** One UPDATE, on one row. */
  function Expire1(p: Policy, item: Item, aged: AgeTest, now: int): Item {
    if InScope(p, item, aged) && item.state in OldStates(p.action) then
      match p.action
      case DELETE => item.(state := DELETED, deletedAt := Some(now))
      case ARCHIVE => item.(state := ARCHIVED, archivedAt := Some(now))
    else item
  }

  /** The policies in cursor order, on one row. */
  function ExpireItem(ps: seq<Policy>, item: Item, aged: AgeTest, now: int): Item
    decreases |ps|
  {
    if ps == [] then item else ExpireItem(ps[1..], Expire1(ps[0], item, aged, now), aged, now)
  }

  class LibraryItems {
    var rows: map<Id, Item>

    constructor (rows: map<Id, Item>)
      ensures this.rows == rows
    {
      this.rows := rows;
    }

    /**
      No row is touched that no policy of its own user and folder is about; the others end up in the state that those
      policies call for, in whatever order the cursor brings them, and keep their owner, folder and creation date.
     */
    method ExpireFolders(ps: seq<Policy>, aged: AgeTest, now: int)
      modifies this
      ensures rows == map id | id in old(rows) :: ExpireItem(ps, old(rows)[id], aged, now)
      ensures rows.Keys == old(rows).Keys
      ensures forall id :: id in old(rows) ==> RowExpired(ps, old(rows)[id], rows[id], aged)
    {
      ghost var start := rows;
      var i := 0;
      while i < |ps|
        invariant 0 <= i <= |ps| && rows.Keys == start.Keys
        invariant forall id :: id in start ==>
          ExpireItem(ps[i..], rows[id], aged, now) == ExpireItem(ps, start[id], aged, now)
      {
        var p := ps[i];
        var newState, oldStates := if p.action == DELETE then DELETED else ARCHIVED, OldStates(p.action);
        rows := map id | id in rows ::
          if InScope(p, rows[id], aged) && rows[id].state in oldStates
          then if p.action == DELETE then rows[id].(state := newState, deletedAt := Some(now))
               else rows[id].(state := newState, archivedAt := Some(now))
          else rows[id];
        i := i + 1;
      }
      forall id | id in start ensures RowExpired(ps, start[id], rows[id], aged) {
        RowEnds(ps, start[id], aged, now);
      }
    }
  }

  /** Every policy is another user's or about another folder, or the row is too young for it. */
  ghost predicate SpareRow(ps: seq<Policy>, item: Item, aged: AgeTest) {
    forall p :: p in ps ==> p.userId != item.userId || p.folder != item.folder || !aged(p, item)
  }

  lemma {:induction false} SparedStays(ps: seq<Policy>, item: Item, aged: AgeTest, now: int)
    ensures SpareRow(ps, item, aged) ==> ExpireItem(ps, item, aged, now) == item
    decreases |ps|
  {
    if ps == [] {
    } else {
      assert ps[0] in ps;
      SparedStays(ps[1..], item, aged, now);
    }
  }

  lemma {:induction false} OthersKept(ps: seq<Policy>, item: Item, aged: AgeTest, now: int)
    ensures ExpireItem(ps, item, aged, now).(state := item.state, deletedAt := item.deletedAt,
                                             archivedAt := item.archivedAt) == item
    decreases |ps|
  {
    if ps == [] {
    } else {
      OthersKept(ps[1..], Expire1(ps[0], item, aged, now), aged, now);
    }
  }

  /** What a call makes of a row. */
  ghost predicate RowExpired(ps: seq<Policy>, item: Item, item': Item, aged: AgeTest) {
    && (SpareRow(ps, item, aged) ==> item' == item)
    && (ByDateOnly(aged) ==> item'.state == FinalState(ps, item, aged))
    && item'.userId == item.userId && item'.folder == item.folder && item'.createdAt == item.createdAt
  }

  lemma RowEnds(ps: seq<Policy>, item: Item, aged: AgeTest, now: int)
    ensures RowExpired(ps, item, ExpireItem(ps, item, aged, now), aged)
  {
    SparedStays(ps, item, aged, now);
    OthersKept(ps, item, aged, now);
    if ByDateOnly(aged) { EndsInFinalState(ps, item, aged, now); }
  }

  // ---------- what the loop amounts to ----------

  /** Some policy of the list with this action is the item's own user's, about its folder, and old enough. */
  ghost predicate Applies(ps: seq<Policy>, a: PolicyAction, item: Item, aged: AgeTest) {
    exists p :: p in ps && p.action == a && p.userId == item.userId && p.folder == item.folder && aged(p, item)
  }

  /** The outcome, without any order: deletion wins over archiving, and deleted items are left alone. */
  ghost function FinalState(ps: seq<Policy>, item: Item, aged: AgeTest): ItemState {
    if item.state == DELETED then DELETED
    else if Applies(ps, DELETE, item, aged) then DELETED
    else if Applies(ps, ARCHIVE, item, aged) then ARCHIVED
    else item.state
  }

  lemma ScopeKept(p: Policy, q: Policy, item: Item, aged: AgeTest, now: int)
    requires ByDateOnly(aged)
    ensures InScope(q, Expire1(p, item, aged, now), aged) <==> InScope(q, item, aged)
  {}

  /** Whatever the cursor order, an item ends up in the state that the policies in scope call for. */
  lemma {:induction false} EndsInFinalState(ps: seq<Policy>, item: Item, aged: AgeTest, now: int)
    requires ByDateOnly(aged)
    ensures ExpireItem(ps, item, aged, now).state == FinalState(ps, item, aged)
    decreases |ps|
  {
    if ps == [] {
    } else {
      var next := Expire1(ps[0], item, aged, now);
      EndsInFinalState(ps[1..], next, aged, now);
      forall a ensures Applies(ps, a, item, aged)
        <==> (ps[0].action == a && InScope(ps[0], item, aged)) || Applies(ps[1..], a, next, aged)
      {
        forall q { ScopeKept(ps[0], q, item, aged, now); }
        assert ps == [ps[0]] + ps[1..];
        if Applies(ps, a, item, aged) {
          var p :| p in ps && p.action == a && InScope(p, item, aged);
          assert p == ps[0] || p in ps[1..];
        }
      }
    }
  }

  ghost predicate SamePolicies(ps: seq<Policy>, qs: seq<Policy>) {
    forall p :: p in ps <==> p in qs
  }

  lemma {:induction false} DeletedAtFollows(ps: seq<Policy>, item: Item, aged: AgeTest, now: int)
    requires ByDateOnly(aged)
    ensures ExpireItem(ps, item, aged, now).deletedAt
      == if item.state != DELETED && Applies(ps, DELETE, item, aged) then Some(now) else item.deletedAt
    decreases |ps|
  {
    if ps == [] {
    } else {
      var next := Expire1(ps[0], item, aged, now);
      DeletedAtFollows(ps[1..], next, aged, now);
      forall q { ScopeKept(ps[0], q, item, aged, now); }
      assert Applies(ps, DELETE, item, aged)
        <==> (ps[0].action == DELETE && InScope(ps[0], item, aged)) || Applies(ps[1..], DELETE, next, aged) by
      {
        assert ps == [ps[0]] + ps[1..];
        if Applies(ps, DELETE, item, aged) {
          var p :| p in ps && p.action == DELETE && InScope(p, item, aged);
          assert p == ps[0] || p in ps[1..];
        }
      }
    }
  }

  /** Confluence: any two orders of the same policies leave the same states and deletion dates. */
  lemma OrderDoesNotMatter(ps: seq<Policy>, qs: seq<Policy>, item: Item, aged: AgeTest, now: int)
    requires ByDateOnly(aged) && SamePolicies(ps, qs)
    ensures ExpireItem(ps, item, aged, now).state == ExpireItem(qs, item, aged, now).state
    ensures ExpireItem(ps, item, aged, now).deletedAt == ExpireItem(qs, item, aged, now).deletedAt
  {
    EndsInFinalState(ps, item, aged, now);
    EndsInFinalState(qs, item, aged, now);
    DeletedAtFollows(ps, item, aged, now);
    DeletedAtFollows(qs, item, aged, now);
  }

  /** The action of the first policy in scope. */
  function FirstAction(ps: seq<Policy>, item: Item, aged: AgeTest): Option<PolicyAction> {
    if ps == [] then None
    else if InScope(ps[0], item, aged) then Some(ps[0].action)
    else FirstAction(ps[1..], item, aged)
  }

  lemma {:induction false} SettledStays(ps: seq<Policy>, item: Item, aged: AgeTest, now: int)
    requires item.state !in OldStates(ARCHIVE)
    ensures ExpireItem(ps, item, aged, now).archivedAt == item.archivedAt
    decreases |ps|
  {
    if ps == [] {
    } else {
      SettledStays(ps[1..], Expire1(ps[0], item, aged, now), aged, now);
    }
  }

  /** The archive date is set if and only if the item can still be archived and the first policy in scope archives. */
  lemma {:induction false} ArchivedAtExactly(ps: seq<Policy>, item: Item, aged: AgeTest, now: int)
    ensures ExpireItem(ps, item, aged, now).archivedAt
      == if item.state != ARCHIVED && item.state != DELETED && FirstAction(ps, item, aged) == Some(ARCHIVE)
         then Some(now) else item.archivedAt
    decreases |ps|
  {
    if ps == [] {
    } else if InScope(ps[0], item, aged) {
      SettledStays(ps[1..], Expire1(ps[0], item, aged, now), aged, now);
    } else {
      ArchivedAtExactly(ps[1..], item, aged, now);
    }
  }

  lemma {:induction false} FirstActionApplies(ps: seq<Policy>, item: Item, aged: AgeTest)
    ensures match FirstAction(ps, item, aged)
      case None => forall p :: p in ps ==> !InScope(p, item, aged)
      case Some(a) => Applies(ps, a, item, aged)
  {
    if ps == [] {
    } else {
      assert ps == [ps[0]] + ps[1..];
      if InScope(ps[0], item, aged) {
        assert ps[0] in ps;
      } else {
        FirstActionApplies(ps[1..], item, aged);
        if FirstAction(ps, item, aged).Some? {
          var p :| p in ps[1..] && p.action == FirstAction(ps, item, aged).value && InScope(p, item, aged);
          assert p in ps;
        }
      }
    }
  }

  /** Moving a policy to the front is a permutation. */
  lemma ToFront(ps: seq<Policy>, p: Policy) returns (qs: seq<Policy>)
    requires p in ps
    ensures multiset(qs) == multiset(ps) && qs != [] && qs[0] == p
  {
    var i :| 0 <= i < |ps| && ps[i] == p;
    qs := [p] + ps[..i] + ps[i + 1..];
    assert ps == ps[..i] + [p] + ps[i + 1..];
  }

  ghost predicate OrderMatters(ps: seq<Policy>, item: Item, aged: AgeTest, now: int) {
    exists qs :: multiset(qs) == multiset(ps)
      && ExpireItem(qs, item, aged, now).archivedAt != ExpireItem(ps, item, aged, now).archivedAt
  }

  lemma OtherOrder(ps: seq<Policy>, a: PolicyAction, item: Item, aged: AgeTest, now: int)
    requires Applies(ps, a, item, aged) && FirstAction(ps, item, aged).Some? && FirstAction(ps, item, aged) != Some(a)
    requires item.state in OldStates(ARCHIVE) && item.archivedAt != Some(now)
    ensures OrderMatters(ps, item, aged, now)
  {
    var p :| p in ps && p.action == a && InScope(p, item, aged);
    var qs := ToFront(ps, p);
    assert FirstAction(qs, item, aged) == Some(a);
    ArchivedAtExactly(ps, item, aged, now);
    ArchivedAtExactly(qs, item, aged, now);
    assert FirstAction(ps, item, aged) == Some(if a == DELETE then ARCHIVE else DELETE) by {
      assert FirstAction(ps, item, aged).value.DELETE? || FirstAction(ps, item, aged).value.ARCHIVE?;
    }
    assert ExpireItem(qs, item, aged, now).archivedAt != ExpireItem(ps, item, aged, now).archivedAt;
  }

  lemma SameMembers(ps: seq<Policy>, qs: seq<Policy>)
    requires multiset(qs) == multiset(ps)
    ensures SamePolicies(ps, qs)
  {
    forall p ensures p in ps <==> p in qs { assert p in multiset(ps) <==> p in multiset(qs); }
  }

  /**
    The archive date depends on the order of a list of policies if and only if policies of both kinds apply to an
    item that can still be archived (and was not archived at this very time before).
   */
  lemma ArchivedAtDependsExactly(ps: seq<Policy>, item: Item, aged: AgeTest, now: int)
    ensures OrderMatters(ps, item, aged, now) <==>
      && item.state != ARCHIVED && item.state != DELETED && item.archivedAt != Some(now)
      && Applies(ps, DELETE, item, aged) && Applies(ps, ARCHIVE, item, aged)
  {
    FirstActionApplies(ps, item, aged);
    ArchivedAtExactly(ps, item, aged, now);
    if OrderMatters(ps, item, aged, now) {
      var qs :| multiset(qs) == multiset(ps)
        && ExpireItem(qs, item, aged, now).archivedAt != ExpireItem(ps, item, aged, now).archivedAt;
      SameMembers(ps, qs);
      ArchivedAtExactly(qs, item, aged, now);
      FirstActionApplies(qs, item, aged);
      assert forall a :: Applies(ps, a, item, aged) <==> Applies(qs, a, item, aged);
    }
    if item.state in OldStates(ARCHIVE) && item.archivedAt != Some(now)
       && Applies(ps, DELETE, item, aged) && Applies(ps, ARCHIVE, item, aged) {
      OtherOrder(ps, if FirstAction(ps, item, aged) == Some(DELETE) then ARCHIVE else DELETE, item, aged, now);
    }
  }

  /** A second call changes no state, in whatever order it meets the policies. */
  lemma SecondCallChangesNothing(ps: seq<Policy>, qs: seq<Policy>, item: Item, aged: AgeTest, now: int)
    requires ByDateOnly(aged) && SamePolicies(ps, qs)
    ensures var once := ExpireItem(ps, item, aged, now);
      ExpireItem(qs, once, aged, now).state == once.state
  {
    var once := ExpireItem(ps, item, aged, now);
    EndsInFinalState(ps, item, aged, now);
    EndsInFinalState(qs, once, aged, now);
    ScopeAfterAll(ps, item, aged, now);
    forall a ensures Applies(qs, a, once, aged) <==> Applies(ps, a, item, aged) {
      if p :| p in qs && p.action == a && InScope(p, once, aged) { assert p in ps && InScope(p, item, aged); }
      if p :| p in ps && p.action == a && InScope(p, item, aged) { assert p in qs && InScope(p, once, aged); }
    }
  }

  lemma {:induction false} ScopeAfterAll(ps: seq<Policy>, item: Item, aged: AgeTest, now: int)
    requires ByDateOnly(aged)
    ensures forall q :: InScope(q, ExpireItem(ps, item, aged, now), aged) <==> InScope(q, item, aged)
    decreases |ps|
  {
    if ps == [] {
    } else {
      ScopeAfterAll(ps[1..], Expire1(ps[0], item, aged, now), aged, now);
      forall q { ScopeKept(ps[0], q, item, aged, now); }
    }
  }
}
