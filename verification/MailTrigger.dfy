/** The trigger that keeps each user's 20 most recent mails (migrations/0109.do.received_email_trigger_query.sql). */
module MailTrigger {
  import opened Prelude

  const KEPT: nat := 20

  datatype Mail = Mail(id: string, userId: string, createdAt: int)

  function MailsOf(s: set<Mail>, userId: string): set<Mail> {
    set x | x in s && x.userId == userId
  }

  /** What ORDER BY created_at DESC LIMIT k may return: k rows, or all of them, none older than a row left out. */
  predicate IsTop(t: set<Mail>, s: set<Mail>, k: nat) {
    t <= s && |t| == Min(k, |s|) && forall x, y :: x in t && y in s - t ==> y.createdAt <= x.createdAt
  }

  predicate UniqueIds(s: set<Mail>) {
    forall x, y :: x in s && y in s && x.id == y.id ==> x == y
  }

  /** Primary keys: the mails to insert carry new ids, all different. */
  predicate FreshIds(table: set<Mail>, history: seq<Mail>) {
    && (forall i, j :: 0 <= i < j < |history| ==> history[i].id != history[j].id)
    && (forall i, x :: 0 <= i < |history| && x in table ==> history[i].id != x.id)
  }

  class ReceivedEmails {
    var mails: set<Mail>

    constructor (mails: set<Mail>)
      ensures this.mails == mails
    {
      this.mails := mails;
    }

    /** The subquery; among mails of one time it may leave out any. */
    method SelectNewest(userId: string) returns (t: set<Mail>)
      ensures IsTop(t, MailsOf(mails, userId), KEPT)
    {
      var own := MailsOf(mails, userId);
      ghost var some := TopExists(own, KEPT);
      t :| t <= own && IsTop(t, own, KEPT);
    }

    /** INSERT, then the trigger's DELETE of every mail of the user whose id the subquery does not list. */
    method Insert(m: Mail)
      requires UniqueIds(mails + {m})
      modifies this
      ensures IsTop(MailsOf(mails, m.userId), MailsOf(old(mails) + {m}, m.userId), 20)
      ensures forall u :: u != m.userId ==> MailsOf(mails, u) == MailsOf(old(mails), u)
    {
      mails := mails + {m};
      var newest := SelectNewest(m.userId);
      mails := set x | x in mails && !(x.userId == m.userId && x.id !in (set y | y in newest :: y.id));
      assert MailsOf(mails, m.userId) == newest;
    }

    /** A whole history of inserts: each user that received mail keeps a 20 most recent of all their mails ever. */
    method InsertAll(history: seq<Mail>)
      requires UniqueIds(Received(mails, history)) && FreshIds(mails, history)
      modifies this
      ensures KeepsNewest(old(mails), mails, history)
    {
      ghost var start := mails;
      var i := 0;
      while i < |history|
        invariant 0 <= i <= |history|
        invariant KeepsNewest(start, mails, history[..i])
      {
        Incoming(start, mails, history, i);
        ghost var before := mails;
        Insert(history[i]);
        StepKeepsNewest(start, before, mails, history[..i], history[i]);
        assert history[..i + 1] == history[..i] + [history[i]];
        i := i + 1;
      }
      assert history[..i] == history;
    }
  }

  function Received(table: set<Mail>, history: seq<Mail>): set<Mail> {
    table + (set m | m in history)
  }

  /** A user's mails in the table against all the user ever had; before the first insert nothing is removed. */
  ghost predicate Kept(table: set<Mail>, all: set<Mail>, inserted: bool) {
    if inserted then IsTop(table, all, KEPT) else table == all
  }

  ghost predicate Owns(history: seq<Mail>, u: string) {
    exists m :: m in history && m.userId == u
  }

  ghost predicate KeepsNewest(start: set<Mail>, table: set<Mail>, history: seq<Mail>) {
    && table <= Received(start, history)
    && forall u :: Kept(MailsOf(table, u), MailsOf(Received(start, history), u), Owns(history, u))
  }

  lemma Incoming(start: set<Mail>, table: set<Mail>, history: seq<Mail>, i: nat)
    requires UniqueIds(Received(start, history)) && FreshIds(start, history) && i < |history|
    requires table <= Received(start, history[..i])
    ensures UniqueIds(table + {history[i]}) && history[i] !in Received(start, history[..i])
  {
    assert history[i] in history;
    assert table + {history[i]} <= Received(start, history);
  }

  lemma StepKeepsNewest(start: set<Mail>, before: set<Mail>, after: set<Mail>, history: seq<Mail>, m: Mail)
    requires KeepsNewest(start, before, history) && m !in Received(start, history)
    requires IsTop(MailsOf(after, m.userId), MailsOf(before + {m}, m.userId), KEPT)
    requires forall u :: u != m.userId ==> MailsOf(after, u) == MailsOf(before, u)
    ensures KeepsNewest(start, after, history + [m])
  {
    var all := Received(start, history);
    assert Received(start, history + [m]) == all + {m};
    forall x | x in after ensures x in all + {m} {
      assert x in MailsOf(after, x.userId);
      if x.userId != m.userId { assert x in MailsOf(before, x.userId); }
      else { assert x in MailsOf(before + {m}, x.userId); }
    }
    forall u ensures Kept(MailsOf(after, u), MailsOf(all + {m}, u), Owns(history + [m], u)) {
      assert Owns(history + [m], u) <==> Owns(history, u) || u == m.userId by {
        assert m in history + [m];
        if Owns(history, u) { var x :| x in history && x.userId == u; assert x in history + [m]; }
      }
      InsertKeeps(before, after, all, m, u, Owns(history, u));
    }
  }

  lemma {:induction false} Newest(s: set<Mail>) returns (m: Mail)
    requires s != {}
    ensures m in s && forall x :: x in s ==> x.createdAt <= m.createdAt
    decreases |s|
  {
    m :| m in s;
    if s != {m} {
      var x := Newest(s - {m});
      if x.createdAt > m.createdAt { m := x; }
      forall y | y in s ensures y.createdAt <= m.createdAt { assert y in s - {m} || y.createdAt <= m.createdAt; }
    }
  }

  /** The subquery always has an answer. */
  lemma {:induction false} TopExists(s: set<Mail>, k: nat) returns (t: set<Mail>)
    ensures IsTop(t, s, k)
    decreases k
  {
    if k == 0 {
      t := {};
    } else {
      t := TopExists(s, k - 1);
      SubsetCard(t, s);
      if s - t != {} {
        var x := Newest(s - t);
        SubsetCard(t + {x}, s);
        t := t + {x};
      } else {
        assert s == t + (s - t);
      }
    }
  }

  /** The incremental top k is a global top k: mails dropped earlier are never missed, however ties were broken. */
  lemma TopOfTop(t: set<Mail>, all: set<Mail>, m: Mail, next: set<Mail>, k: nat)
    requires IsTop(t, all, k) && m !in all && IsTop(next, t + {m}, k)
    ensures IsTop(next, all + {m}, k)
  {
    SubsetCard(t, all);
    if |all| > k && m in next {
      if t <= next {
        SubsetCard(t + {m}, next);
      }
      var z :| z in t && z !in next;
      assert z.createdAt <= m.createdAt;
    }
  }

  /** One insert, seen by any user. */
  lemma InsertKeeps(before: set<Mail>, after: set<Mail>, all: set<Mail>, m: Mail, u: string, inserted: bool)
    requires Kept(MailsOf(before, u), MailsOf(all, u), inserted) && m !in all
    requires u == m.userId ==> IsTop(MailsOf(after, u), MailsOf(before + {m}, u), KEPT)
    requires u != m.userId ==> MailsOf(after, u) == MailsOf(before, u)
    ensures Kept(MailsOf(after, u), MailsOf(all + {m}, u), inserted || u == m.userId)
  {
    if u == m.userId {
      assert MailsOf(before + {m}, u) == MailsOf(before, u) + {m};
      assert MailsOf(all + {m}, u) == MailsOf(all, u) + {m};
      if inserted { TopOfTop(MailsOf(before, u), MailsOf(all, u), m, MailsOf(after, u), KEPT); }
    } else {
      assert MailsOf(all + {m}, u) == MailsOf(all, u);
    }
  }

  /** With distinct times there is only one answer: the mails with fewer than k newer ones. */
  lemma TopIsExact(t: set<Mail>, s: set<Mail>, k: nat, m: Mail)
    requires IsTop(t, s, k) && m in s
    requires forall x, y :: x in s && y in s && x.createdAt == y.createdAt ==> x == y
    ensures m in t <==> |set x | x in s && x.createdAt > m.createdAt| < k
  {
    var newer := set x | x in s && x.createdAt > m.createdAt;
    if m in t {
      assert newer + {m} <= t;
      SubsetCard(newer + {m}, t);
    } else {
      assert t <= newer;
      SubsetCard(t, newer);
      if |t| < k { SubsetCard(t, s); }
    }
  }
}
