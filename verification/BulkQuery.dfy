/**
  What a bulk query selects, from its text to the rows: how it falls into words, which words count, and what each of
  them asks of a row (parseBulkFilter and filterClause in internal/jobs/bulk_action.go).
 */
module BulkQuery {
  import opened Prelude
  import opened Strings
  import opened BulkFilter

  // ---------- words ----------

  predicate IsWord(w: string) {
    w != "" && forall i :: 0 <= i < |w| ==> !IsSpace(w[i])
  }

  lemma {:induction false} WholeWord(w: string, rest: string)
    requires forall i :: 0 <= i < |w| ==> !IsSpace(w[i])
    requires rest == "" || IsSpace(rest[0])
    ensures FirstWord(w + rest) == w
  {
    if w == "" {
      assert w + rest == rest;
    } else {
      WholeWord(w[1..], rest);
      assert (w + rest)[1..] == w[1..] + rest;
    }
  }

  lemma {:induction false} FirstWordIsWord(s: string)
    ensures forall i :: 0 <= i < |FirstWord(s)| ==> !IsSpace(FirstWord(s)[i])
    ensures |FirstWord(s)| < |s| ==> IsSpace(s[|FirstWord(s)|])
  {
    if s != "" && !IsSpace(s[0]) { FirstWordIsWord(s[1..]); }
  }

  /** A word in front of a blank is the first field. */
  lemma WordAndRest(w: string, rest: string)
    requires IsWord(w) && (rest == "" || IsSpace(rest[0]))
    ensures Fields(w + rest) == [w] + Fields(rest)
  {
    WholeWord(w, rest);
    assert (w + rest)[0] == w[0] && (w + rest)[|w|..] == rest;
  }

  lemma Behind(first: seq<string>, a: seq<string>, b: seq<string>)
    ensures first + (a + b) == first + a + b
  {}

  /** A text falls apart at every blank: no word runs across one, and nothing else separates words. */
  lemma {:induction false} FieldsSplit(s: string, t: string)
    requires s == "" || t == "" || IsSpace(s[|s| - 1]) || IsSpace(t[0])
    ensures Fields(s + t) == Fields(s) + Fields(t)
    decreases |s|
  {
    if s == "" {
      assert s + t == t;
    } else if t == "" {
      assert s + t == s;
    } else if IsSpace(s[0]) {
      assert (s + t)[1..] == s[1..] + t;
      FieldsSplit(s[1..], t);
    } else {
      var w := FirstWord(s);
      FirstWordIsWord(s);
      var rest := s[|w|..];
      calc {
        Fields(s + t);
      == { assert s + t == w + (rest + t); WordAndRest(w, rest + t); }
        [w] + Fields(rest + t);
      == { FieldsSplit(rest, t); }
        [w] + (Fields(rest) + Fields(t));
      == { Behind([w], Fields(rest), Fields(t)); }
        [w] + Fields(rest) + Fields(t);
      == { assert s == w + rest; WordAndRest(w, rest); }
        Fields(s) + Fields(t);
      }
    }
  }

  /** A word is one field, and a blank is none. */
  lemma OneField(w: string, c: char)
    ensures IsWord(w) ==> Fields(w) == [w]
    ensures IsSpace(c) ==> Fields([c]) == []
  {
    if IsWord(w) {
      WordAndRest(w, "");
      assert w + "" == w;
    }
    assert [c][1..] == "";
  }

  lemma {:induction false} FieldsAreWords(s: string)
    ensures forall w :: w in Fields(s) ==> IsWord(w)
    decreases |s|
  {
    if s == "" {
    } else if IsSpace(s[0]) {
      FieldsAreWords(s[1..]);
    } else {
      FirstWordIsWord(s);
      FieldsAreWords(s[|FirstWord(s)|..]);
    }
  }

  /** Joining puts one blank between any two parts. */
  lemma {:induction false} JoinAppend(a: seq<string>, b: seq<string>)
    requires a != [] && b != []
    ensures Join(a + b) == Join(a) + " " + Join(b)
  {
    assert (a + b)[0] == a[0] && (a + b)[1..] == a[1..] + b;
    if |a| == 1 {
      assert a[1..] + b == b;
    } else {
      JoinAppend(a[1..], b);
      assert Join(a + b) == a[0] + " " + (Join(a[1..]) + " " + Join(b));
    }
  }

  lemma BlankFirst(s: string)
    ensures Fields(" " + s) == Fields(s)
  {
    assert (" " + s)[1..] == s;
  }

  /** Words that are joined are found again. */
  lemma {:induction false} FieldsOfJoined(words: seq<string>)
    requires forall w :: w in words ==> IsWord(w)
    ensures Fields(Join(words)) == words
  {
    if words == [] {
    } else if |words| == 1 {
      OneField(words[0], ' ');
    } else {
      var w, more := words[0], Join(words[1..]);
      calc {
        Fields(Join(words));
      == { assert Join(words) == w + (" " + more); WordAndRest(w, " " + more); }
        [w] + Fields(" " + more);
      == { BlankFirst(more); }
        [w] + Fields(more);
      == { FieldsOfJoined(words[1..]); }
        [w] + words[1..];
      }
    }
  }

  // ---------- which words count ----------

  /** t is the last of these words in the query. */
  ghost predicate LastIs(terms: seq<string>, words: set<string>, t: string) {
    t in words && exists i :: 0 <= i < |terms| && terms[i] == t && forall j :: i < j < |terms| ==> terms[j] !in words
  }

  ghost predicate NoneOf(terms: seq<string>, words: set<string>) {
    forall t :: t in terms ==> t !in words
  }

  lemma LastIsUnique(terms: seq<string>, words: set<string>, t: string, u: string)
    requires LastIs(terms, words, t) && LastIs(terms, words, u)
    ensures t == u
  {
    var i :| 0 <= i < |terms| && terms[i] == t && forall j :: i < j < |terms| ==> terms[j] !in words;
    var k :| 0 <= k < |terms| && terms[k] == u && forall j :: k < j < |terms| ==> terms[j] !in words;
  }

  lemma LastOfWords(terms: seq<string>, kind: string -> bool, words: set<string>, t: string)
    requires forall w :: kind(w) <==> w in words
    ensures LastOf(terms, kind) == Some(t) <==> LastIs(terms, words, t)
    ensures LastOf(terms, kind) == None <==> NoneOf(terms, words)
  {
    LastOfExact(terms, kind);
    if LastOf(terms, kind).Some? {
      var u := LastOf(terms, kind).value;
      assert LastIs(terms, words, u);
      if LastIs(terms, words, t) { LastIsUnique(terms, words, t, u); }
    }
  }

  const STATES := {"in:archive", "in:trash"}
  const FOLDERS := {"in:inbox", "in:following"}

  /** The state and the folder that a query asks for, by the last word that names one; other in: words ask for none. */
  lemma WordsNameStateAndFolder(terms: seq<string>)
    ensures var f := Meaning(terms);
      && (f.stateFilter == "ARCHIVED" <==> LastIs(terms, STATES, "in:archive"))
      && (f.stateFilter == "DELETED" <==> LastIs(terms, STATES, "in:trash"))
      && (f.stateFilter == "" <==> NoneOf(terms, STATES))
      && (f.folderFilter == "inbox" <==> LastIs(terms, FOLDERS, "in:inbox"))
      && (f.folderFilter == "following" <==> LastIs(terms, FOLDERS, "in:following"))
      && (f.folderFilter == "" <==> NoneOf(terms, FOLDERS))
  {
    LastOfWords(terms, NamesState, STATES, "in:archive");
    LastOfWords(terms, NamesState, STATES, "in:trash");
    LastOfWords(terms, NamesFolder, FOLDERS, "in:inbox");
    LastOfWords(terms, NamesFolder, FOLDERS, "in:following");
  }

  /** The last label: word of the query names this label. */
  ghost predicate LastLabel(terms: seq<string>, name: string) {
    exists i ::
      && 0 <= i < |terms| && terms[i] == "label:" + name
      && forall j :: i < j < |terms| ==> !("label:" <= terms[j])
  }

  lemma LabelWord(t: string)
    ensures IsLabel(t) <==> "label:" <= t
    ensures "label:" <= t ==> t == "label:" + t[6..]
  {
    if "label:" <= t { assert t[0] == 'l'; }
  }

  lemma WordsNameLabel(terms: seq<string>, name: string)
    ensures LastLabel(terms, name) ==> Meaning(terms).labelName == name
    ensures Meaning(terms).labelName != "" ==> LastLabel(terms, Meaning(terms).labelName)
  {
    LastOfExact(terms, IsLabel);
    forall t { LabelWord(t); }
    if LastLabel(terms, name) {
      var i :| 0 <= i < |terms| && terms[i] == "label:" + name
               && forall j :: i < j < |terms| ==> !("label:" <= terms[j]);
      assert IsLabel(terms[i]);
      var t := LastOf(terms, IsLabel).value;
      var k :| 0 <= k < |terms| && terms[k] == t && IsLabel(t) && forall j :: k < j < |terms| ==> !IsLabel(terms[j]);
      assert i == k && t[6..] == name;
    }
  }

  /** All other words are searched for, in their order. */
  lemma {:induction false} OtherWords(a: seq<string>, b: seq<string>, t: string)
    ensures TextTerms(a + b) == TextTerms(a) + TextTerms(b)
    ensures TextTerms([t]) == if "in:" <= t || "label:" <= t then [] else [t]
    decreases |b|
  {
    assert [t][..0] == [] && TextTerms([]) == [];
    if b == [] {
      assert a + b == a;
    } else {
      var n := |b| - 1;
      OtherWords(a, b[..n], t);
      assert (a + b)[..|a + b| - 1] == a + b[..n];
    }
  }

  // ---------- which rows ----------

  predicate Finds(lower: char -> char, text: string, row: Row) {
    || ILike(lower, row.title, "%" + text + "%")
    || (row.description.Some? && ILike(lower, row.description.value, "%" + text + "%"))
  }

  /**
    A row is selected if and only if it is in the state asked for (not deleted, if none is), in the folder and under
    the label asked for, if any, and its title or description matches the other words, if there are any.
   */
  lemma QuerySelects(lower: char -> char, query: string, row: Row)
    ensures var terms := Fields(query); var text := Join(TextTerms(terms));
      Selects(lower, Meaning(terms), row) <==>
        && (if LastIs(terms, STATES, "in:archive") then row.state == "ARCHIVED"
            else if LastIs(terms, STATES, "in:trash") then row.state == "DELETED" else row.state != "DELETED")
        && (LastIs(terms, FOLDERS, "in:inbox") ==> row.folder == Some("inbox"))
        && (LastIs(terms, FOLDERS, "in:following") ==> row.folder == Some("following"))
        && (forall name :: name != "" && LastLabel(terms, name) ==> name in row.labels)
        && (text != "" ==> Finds(lower, text, row))
  {
    var terms := Fields(query);
    var f := Meaning(terms);
    WordsNameStateAndFolder(terms);
    WordsNameLabel(terms, f.labelName);
    forall name ensures LastLabel(terms, name) ==> f.labelName == name { WordsNameLabel(terms, name); }
  }
}
