/**
  Deterministic job ids: the two functions refreshFeedJobID (internal/jobs/refresh_all_feeds.go and
  internal/graphql/resolver/subscription_helpers.go). Both sort a copy of the user list in place, print it as JSON and
  hash it; the JSON text and the hash are parameters.
 */
module JobIds {
  import opened Strings
  import opened JobQueue
  import Decimal

  /** A Go slice as json.Marshal sees it: a nil slice prints as null, an empty one as an empty list. */
  datatype Json = Null | List(elements: seq<string>)

  /** json.Marshal, and the first eight bytes of SHA-256 in hexadecimal. */
  datatype Encoding = Encoding(json: Json -> string, hash: string -> string)

  ghost predicate Hex16(e: Encoding) {
    forall s :: |e.hash(s)| == 16
  }

  // ---------- sorting ----------

  function InsertText(x: string, s: seq<string>): seq<string> {
    if s == [] || LessEq(x, s[0]) then [x] + s else [s[0]] + InsertText(x, s[1..])
  }

  /** The one sorted arrangement of a list of strings. */
  function SortedText(s: seq<string>): seq<string> {
    if s == [] then [] else InsertText(s[0], SortedText(s[1..]))
  }

  ghost predicate Ascending(s: seq<string>) {
    forall i, j :: 0 <= i < j < |s| ==> LessEq(s[i], s[j])
  }

  /** Ascending as far as s[j] is not concerned. */
  ghost predicate AscendingBut(s: seq<string>, j: nat) {
    && (forall p, q :: 0 <= p < q < |s| && p != j && q != j ==> LessEq(s[p], s[q]))
    && (forall q :: j < q < |s| && j < |s| ==> LessEq(s[j], s[q]))
  }

  function Swapped(s: seq<string>, j: nat): seq<string>
    requires 0 < j < |s|
  {
    s[j - 1 := s[j]][j := s[j - 1]]
  }

  lemma SwapKeepsBag(s: seq<string>, j: nat)
    requires 0 < j < |s|
    ensures multiset(Swapped(s, j)) == multiset(s)
  {}

  /** One exchange of the inner loop. */
  lemma SinkStep(s: seq<string>, i: nat, j: nat)
    requires 0 < j <= i < |s| && AscendingBut(s[..i + 1], j) && Less(s[j], s[j - 1])
    ensures AscendingBut(Swapped(s, j)[..i + 1], j - 1) && multiset(Swapped(s, j)) == multiset(s)
  {
    SwapKeepsOrder(s[..i + 1], j);
    assert Swapped(s, j)[..i + 1] == Swapped(s[..i + 1], j);
    SwapKeepsBag(s, j);
  }

  /** Moves a[i] down to its place among the elements before it. */
  method Sink(a: array<string>, i: nat)
    requires i < a.Length && Ascending(a[..i])
    modifies a
    ensures Ascending(a[..i + 1]) && multiset(a[..]) == multiset(old(a[..]))
  {
    ghost var all := a[..];
    var j := i;
    assert all[..i] == a[..i];
    while j > 0 && Less(a[j], a[j - 1])
      invariant 0 <= j <= i && all == a[..]
      invariant AscendingBut(all[..i + 1], j) && multiset(all) == multiset(old(a[..]))
    {
      SinkStep(all, i, j);
      a[j - 1], a[j] := a[j], a[j - 1];
      all := Swapped(all, j);
      j := j - 1;
    }
    Settled(all[..i + 1], j);
    assert a[..i + 1] == all[..i + 1];
  }

  /** sort.Strings on a slice, here by insertion. */
  method SortStrings(a: array<string>)
    modifies a
    ensures a[..] == SortedText(old(a[..]))
  {
    var i := 0;
    while i < a.Length
      invariant 0 <= i <= a.Length
      invariant Ascending(a[..i])
      invariant multiset(a[..]) == multiset(old(a[..]))
    {
      Sink(a, i);
      i := i + 1;
    }
    assert a[..i] == a[..];
    SortedTextSorts(old(a[..]));
    AscendingIsUnique(a[..], SortedText(old(a[..])));
  }

  lemma SwapKeepsOrder(s: seq<string>, j: nat)
    requires 0 < j < |s| && AscendingBut(s, j) && Less(s[j], s[j - 1])
    ensures AscendingBut(Swapped(s, j), j - 1)
  {}

  lemma Settled(s: seq<string>, j: nat)
    requires j < |s| && AscendingBut(s, j) && (j == 0 || !Less(s[j], s[j - 1]))
    ensures Ascending(s)
  {
    if j > 0 {
      LessTotal(s[j], s[j - 1]);
      forall p | 0 <= p < j ensures LessEq(s[p], s[j]) { LessEqTransitive(s[p], s[j - 1], s[j]); }
    }
  }

  lemma LessEqTransitive(a: string, b: string, c: string)
    requires LessEq(a, b) && LessEq(b, c)
    ensures LessEq(a, c)
  {
    if a != b && b != c { LessTransitive(a, b, c); }
  }

  lemma {:induction false} InsertTextSorts(x: string, s: seq<string>)
    requires Ascending(s)
    ensures Ascending(InsertText(x, s)) && multiset(InsertText(x, s)) == multiset{x} + multiset(s)
  {
    if s == [] {
    } else {
      assert s == [s[0]] + s[1..];
      if LessEq(x, s[0]) {
        forall j | 0 <= j < |s| ensures LessEq(x, s[j]) { LessEqTransitive(x, s[0], s[j]); }
      } else {
        LessTotal(x, s[0]);
        InsertTextSorts(x, s[1..]);
        var t := InsertText(x, s[1..]);
        forall j | 0 <= j < |t| ensures LessEq(s[0], t[j]) {
          assert t[j] in multiset(t);
          assert t[j] == x || t[j] in s[1..];
        }
      }
    }
  }

  lemma {:induction false} SortedTextSorts(s: seq<string>)
    ensures Ascending(SortedText(s)) && multiset(SortedText(s)) == multiset(s)
  {
    if s == [] {
    } else {
      SortedTextSorts(s[1..]);
      InsertTextSorts(s[0], SortedText(s[1..]));
      assert s == [s[0]] + s[1..];
    }
  }

  lemma HeadIsLeast(s: seq<string>, x: string)
    requires Ascending(s) && x in multiset(s)
    ensures LessEq(s[0], x)
  {
    var i :| 0 <= i < |s| && s[i] == x;
    if i > 0 { assert LessEq(s[0], s[i]); }
  }

  lemma TailOf(s: seq<string>)
    requires s != [] && Ascending(s)
    ensures multiset(s[1..]) == multiset(s) - multiset{s[0]} && Ascending(s[1..])
  {
    assert s == [s[0]] + s[1..];
  }

  /** Two ascending lists of the same strings are the same list. */
  lemma {:induction false} AscendingIsUnique(s: seq<string>, t: seq<string>)
    requires Ascending(s) && Ascending(t) && multiset(s) == multiset(t)
    ensures s == t
  {
    assert |s| == |multiset(s)| == |multiset(t)| == |t|;
    if s == [] {
    } else {
      assert t[0] in multiset(t) && s[0] in multiset(s);
      HeadIsLeast(s, t[0]);
      HeadIsLeast(t, s[0]);
      if s[0] != t[0] { LessAsymmetric(s[0], t[0]); }
      TailOf(s);
      TailOf(t);
      AscendingIsUnique(s[1..], t[1..]);
      assert s == [s[0]] + s[1..] && t == [t[0]] + t[1..];
    }
  }

  /** Sorting identifies exactly the lists that are permutations of each other. */
  lemma SameSortedExactly(s: seq<string>, t: seq<string>)
    ensures SortedText(s) == SortedText(t) <==> multiset(s) == multiset(t)
  {
    SortedTextSorts(s);
    SortedTextSorts(t);
    if multiset(s) == multiset(t) { AscendingIsUnique(SortedText(s), SortedText(t)); }
  }

  // ---------- the ids ----------

  function RefreshId(e: Encoding, feedUrl: string, users: Json): Id {
    Id("refresh-feed_" + e.hash(feedUrl) + "_" + e.hash(e.json(users)))
  }

  /** The id of a scheduled refresh: make and copy always give a slice that is not nil. */
  method ScheduledJobId(e: Encoding, feedUrl: string, userIds: seq<string>) returns (id: Id)
    ensures id == RefreshId(e, feedUrl, List(SortedText(userIds)))
  {
    var sorted := new string[|userIds|](i requires 0 <= i < |userIds| => userIds[i]);
    assert sorted[..] == userIds;
    SortStrings(sorted);
    var userList := e.json(List(sorted[..]));
    id := Id("refresh-feed_" + e.hash(feedUrl) + "_" + e.hash(userList));
  }

  /** The id of a manual refresh: appending nothing to a nil slice leaves it nil. */
  method ManualJobId(e: Encoding, feedUrl: string, userIds: seq<string>) returns (id: Id)
    ensures id == RefreshId(e, feedUrl, ManualList(userIds))
  {
    var sorted := new string[|userIds|](i requires 0 <= i < |userIds| => userIds[i]);
    assert sorted[..] == userIds;
    SortStrings(sorted);
    var userBytes := e.json(if sorted.Length == 0 then Null else List(sorted[..]));
    assert sorted.Length == 0 ==> userIds == [];
    id := Id("refresh-feed_" + e.hash(feedUrl) + "_" + e.hash(userBytes));
  }

  function ManualList(userIds: seq<string>): Json {
    if userIds == [] then Null else List(SortedText(userIds))
  }

  /** Two ids are equal exactly when both of their hashes are. */
  lemma SameIdExactly(e: Encoding, feed1: string, users1: Json, feed2: string, users2: Json)
    requires Hex16(e)
    ensures RefreshId(e, feed1, users1) == RefreshId(e, feed2, users2)
      <==> e.hash(feed1) == e.hash(feed2) && e.hash(e.json(users1)) == e.hash(e.json(users2))
    ensures "refresh-feed_" + e.hash(feed1) <= RefreshId(e, feed1, users1).text
  {
    var h1, u1, h2, u2 := e.hash(feed1), e.hash(e.json(users1)), e.hash(feed2), e.hash(e.json(users2));
    var s1, s2 := RefreshId(e, feed1, users1).text, RefreshId(e, feed2, users2).text;
    assert s1[13..29] == h1 && s1[30..] == u1 && s2[13..29] == h2 && s2[30..] == u2;
  }

  /** The order in which the users are listed does not matter to either function. */
  lemma UserOrderDoesNotMatter(e: Encoding, feedUrl: string, users1: seq<string>, users2: seq<string>)
    requires multiset(users1) == multiset(users2)
    ensures RefreshId(e, feedUrl, List(SortedText(users1))) == RefreshId(e, feedUrl, List(SortedText(users2)))
    ensures RefreshId(e, feedUrl, ManualList(users1)) == RefreshId(e, feedUrl, ManualList(users2))
  {
    SameSortedExactly(users1, users2);
    assert |multiset(users1)| == |multiset(users2)|;
  }

  /** The two functions agree on every non-empty list, and on the empty one only by a hash collision. */
  lemma AgreeExactly(e: Encoding, feedUrl: string, userIds: seq<string>)
    requires Hex16(e)
    ensures RefreshId(e, feedUrl, List(SortedText(userIds))) == RefreshId(e, feedUrl, ManualList(userIds))
      <==> userIds != [] || e.hash(e.json(List([]))) == e.hash(e.json(Null))
  {
    SameIdExactly(e, feedUrl, List(SortedText(userIds)), feedUrl, ManualList(userIds));
  }

  /** An id that does not begin with a digit is not a numeral; every custom id of the program begins with a letter. */
  lemma LetterIsNoNumeral(id: Id)
    requires id.text == "" || !('0' <= id.text[0] <= '9')
    ensures NotNumeral(id)
  {
    forall n: nat ensures id != AutoId(n) { Decimal.DigitsAreDigits(n); }
  }

  /** Refreshing by hand a feed whose scheduled refresh, for the same users, still has its hash adds nothing. */
  lemma ManualJoinsScheduled(q: State, e: Encoding, feedUrl: string, users1: seq<string>, users2: seq<string>,
                             spec: AddSpec, io: EntryIO)
    requires multiset(users1) == multiset(users2) && users1 != [] && io != ExistsError
    requires RefreshId(e, feedUrl, List(SortedText(users1))) in q.jobs
    requires spec.jobId == RefreshId(e, feedUrl, ManualList(users2))
    ensures AddEntry(q, spec, io) == (q, Skipped) && NotNumeral(spec.jobId)
  {
    UserOrderDoesNotMatter(e, feedUrl, users1, users2);
    assert |multiset(users1)| == |multiset(users2)|;
    LetterIsNoNumeral(spec.jobId);
  }
}
