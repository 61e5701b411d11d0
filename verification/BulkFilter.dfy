/** The search query of a bulk action: parsed to a filter, and compiled to a WHERE clause with placeholders. */
module BulkFilter {
  import opened Prelude
  import opened Strings
  import opened LikePattern

  // ---------- parsing ----------

  datatype Filter = Filter(stateFilter: string, folderFilter: string, textSearch: string, labelName: string)

  /** The text up to the first blank. */
  function FirstWord(s: string): (w: string)
    ensures w <= s
    ensures s != [] && !IsSpace(s[0]) ==> w != []
  {
    if s == [] || IsSpace(s[0]) then [] else [s[0]] + FirstWord(s[1..])
  }

  /** strings.Fields. */
  function Fields(s: string): seq<string>
    decreases |s|
  {
    if s == [] then []
    else if IsSpace(s[0]) then Fields(s[1..])
    else [FirstWord(s)] + Fields(s[|FirstWord(s)|..])
  }

  /** strings.Join(words, " "). */
  function Join(words: seq<string>): string {
    if words == [] then ""
    else if |words| == 1 then words[0]
    else words[0] + " " + Join(words[1..])
  }

  const IN := "in:"
  const LABEL := "label:"

  predicate IsIn(t: string) { IN <= t }
  predicate IsLabel(t: string) { !IsIn(t) && LABEL <= t }
  predicate IsText(t: string) { !IsIn(t) && !IsLabel(t) }

  predicate NamesFolder(t: string) { t == "in:inbox" || t == "in:following" }
  predicate NamesState(t: string) { t == "in:archive" || t == "in:trash" }

  function StateNamed(t: string): string {
    if t == "in:archive" then "ARCHIVED" else "DELETED"
  }

  function FolderNamed(t: string): string {
    if t == "in:inbox" then "inbox" else "following"
  }

  /** The last term of a kind, if any. */
  function LastOf(terms: seq<string>, kind: string -> bool): (r: Option<string>)
    ensures r.Some? ==> kind(r.value)
  {
    if terms == [] then None
    else if kind(terms[|terms| - 1]) then Some(terms[|terms| - 1])
    else LastOf(terms[..|terms| - 1], kind)
  }

  function TextTerms(terms: seq<string>): seq<string> {
    if terms == [] then []
    else
      var before := TextTerms(terms[..|terms| - 1]);
      if IsText(terms[|terms| - 1]) then before + [terms[|terms| - 1]] else before
  }

  /** What a query means: of each kind of term the last one counts, and everything else is searched for. */
  function Meaning(terms: seq<string>): Filter {
    Filter(match LastOf(terms, NamesState) case None => "" case Some(t) => StateNamed(t),
           match LastOf(terms, NamesFolder) case None => "" case Some(t) => FolderNamed(t),
           Join(TextTerms(terms)),
           match LastOf(terms, IsLabel) case None => "" case Some(t) => t[|LABEL|..])
  }

  /** LastOf finds a term of its kind behind which there is none. */
  lemma {:induction false} LastOfExact(terms: seq<string>, kind: string -> bool)
    ensures match LastOf(terms, kind)
      case None => forall t :: t in terms ==> !kind(t)
      case Some(t) => exists i :: 0 <= i < |terms| && terms[i] == t && kind(t)
                        && forall j :: i < j < |terms| ==> !kind(terms[j])
  {
    if terms == [] {
    } else {
      var n := |terms| - 1;
      if kind(terms[n]) {
        assert terms[n] == LastOf(terms, kind).value;
      } else {
        LastOfExact(terms[..n], kind);
        if LastOf(terms, kind).Some? {
          var i :| 0 <= i < n && terms[..n][i] == LastOf(terms, kind).value
                   && forall j :: i < j < n ==> !kind(terms[..n][j]);
          assert terms[i] == LastOf(terms, kind).value;
          forall j | i < j < |terms| ensures !kind(terms[j]) { if j < n { assert terms[..n][j] == terms[j]; } }
        }
      }
    }
  }

  lemma MeaningStep(terms: seq<string>, t: string)
    ensures TextTerms(terms + [t]) == if IsText(t) then TextTerms(terms) + [t] else TextTerms(terms)
    ensures Meaning(terms + [t]) == Filter(
      if NamesState(t) then StateNamed(t) else Meaning(terms).stateFilter,
      if NamesFolder(t) then FolderNamed(t) else Meaning(terms).folderFilter,
      Join(TextTerms(terms + [t])),
      if IsLabel(t) then t[|LABEL|..] else Meaning(terms).labelName)
  {
    assert (terms + [t])[..|terms|] == terms;
  }

  lemma InTerm(t: string)
    requires IN <= t
    ensures t == IN + t[|IN|..]
    ensures (t == "in:inbox" <==> t[|IN|..] == "inbox") && (t == "in:following" <==> t[|IN|..] == "following")
    ensures (t == "in:archive" <==> t[|IN|..] == "archive") && (t == "in:trash" <==> t[|IN|..] == "trash")
  {
    assert t == IN + t[|IN|..];
    assert "in:inbox" == IN + "inbox" && "in:following" == IN + "following";
    assert "in:archive" == IN + "archive" && "in:trash" == IN + "trash";
  }

  /** parseBulkFilter. */
  method ParseBulkFilter(query: string) returns (f: Filter)
    ensures f == Meaning(Fields(query))
  {
    var terms := Fields(query);
    f := Filter("", "", "", "");
    var remaining: seq<string> := [];
    var i := 0;
    while i < |terms|
      invariant 0 <= i <= |terms|
      invariant remaining == TextTerms(terms[..i])
      invariant f.(textSearch := Join(remaining)) == Meaning(terms[..i])
    {
      var t := terms[i];
      assert terms[..i + 1] == terms[..i] + [t];
      MeaningStep(terms[..i], t);
      if IN <= t {
        InTerm(t);
        var name := t[|IN|..];
        if name == "inbox" {
          f := f.(folderFilter := "inbox");
        } else if name == "archive" {
          f := f.(stateFilter := "ARCHIVED");
        } else if name == "trash" {
          f := f.(stateFilter := "DELETED");
        } else if name == "following" {
          f := f.(folderFilter := "following");
        }
      } else if LABEL <= t {
        f := f.(labelName := t[|LABEL|..]);
      } else {
        remaining := remaining + [t];
      }
      i := i + 1;
    }
    assert terms[..i] == terms;
    f := f.(textSearch := Join(remaining));
  }

  // ---------- rows and the filter's predicate ----------

  /** The columns that bulk actions read or write. Only folder, description and the dates may be NULL. */
  datatype Row = Row(user: string, state: string, folder: Option<string>, labels: seq<string>, title: string,
                     description: Option<string>, topPercent: int, bottomPercent: int, archivedAt: Option<int>,
                     deletedAt: Option<int>, readAt: Option<int>, seenAt: Option<int>, updatedAt: int)

  function Lower(lower: char -> char, s: string): string {
    seq(|s|, i requires 0 <= i < |s| => lower(s[i]))
  }

  /** ILIKE: LIKE after folding case. */
  predicate ILike(lower: char -> char, s: string, pattern: string) {
    Like(Lower(lower, pattern), Lower(lower, s))
  }

  function Pattern(text: string): string {
    "%" + text + "%"
  }

  predicate StateSelects(f: Filter, row: Row) {
    if f.stateFilter != "" then row.state == f.stateFilter else row.state != "DELETED"
  }

  predicate TextSelects(lower: char -> char, f: Filter, row: Row) {
    || ILike(lower, row.title, Pattern(f.textSearch))
    || (row.description.Some? && ILike(lower, row.description.value, Pattern(f.textSearch)))
  }

  predicate ColumnsSelect(f: Filter, row: Row) {
    && StateSelects(f, row)
    && (f.folderFilter != "" ==> row.folder == Some(f.folderFilter))
    && (f.labelName != "" ==> f.labelName in row.labels)
  }

  /** The rows a filter is meant to select. */
  predicate Selects(lower: char -> char, f: Filter, row: Row) {
    && ColumnsSelect(f, row)
    && (f.textSearch != "" ==> TextSelects(lower, f, row))
  }

  // ---------- what the text search finds ----------

  /** Folding case twice changes nothing more, and it neither makes nor unmakes a wildcard. */
  ghost predicate FoldsCase(lower: char -> char) {
    && (forall c :: lower(lower(c)) == lower(c))
    && (forall c :: lower(c) in {'%', '_', '\\'} || c in {'%', '_', '\\'} ==> lower(c) == c)
    && lower('a') == 'a'
  }

  predicate Folded(lower: char -> char, s: string) {
    forall i :: 0 <= i < |s| ==> lower(s[i]) == s[i]
  }

  lemma {:induction false} LiteralFolded(lower: char -> char, t: string)
    requires FoldsCase(lower) && Folded(lower, t)
    ensures Folded(lower, Literal(t))
  {
    if t == [] {
    } else if t[0] == '\\' {
      if |t| > 1 { LiteralFolded(lower, t[2..]); }
    } else {
      LiteralFolded(lower, t[1..]);
    }
  }

  lemma PlainFolded(lower: char -> char, t: string)
    requires FoldsCase(lower)
    ensures Plain(Lower(lower, t)) <==> Plain(t)
    ensures Lower(lower, Pattern(t)) == Pattern(Lower(lower, t))
  {
    var u := Lower(lower, t);
    assert forall i :: 0 <= i < |t| ==> u[i] == lower(t[i]);
    if !Plain(t) {
      var i :| 0 <= i < |t| && t[i] in {'%', '_', '\\'};
      assert u[i] == t[i];
    }
  }

  /** The search is a substring search, up to case, exactly for the texts without '%', '_' and backslash. */
  lemma TextSearchExactly(lower: char -> char, t: string)
    requires FoldsCase(lower)
    ensures (forall s :: ILike(lower, s, Pattern(t)) <==> Contains(Lower(lower, s), Lower(lower, t))) <==> Plain(t)
  {
    var u := Lower(lower, t);
    PlainFolded(lower, t);
    if Plain(t) {
      forall s ensures ILike(lower, s, Pattern(t)) <==> Contains(Lower(lower, s), u) {
        PlainSearch(u, Lower(lower, s));
      }
    } else {
      var s := Literal(u);
      LiteralFolded(lower, u);
      assert Lower(lower, s) == s;
      LiteralFound(u);
      assert !(ILike(lower, s, Pattern(t)) <==> Contains(Lower(lower, s), u));
    }
  }

  // ---------- SQL conditions ----------

  datatype Arg = Text(text: string) | Number(number: int)

  /** The fragments that filterClause emits; the numbers are placeholders. */
  datatype Fragment =
    | StateIs(n: nat)
    | StateNotDeleted
    | FolderIs(n: nat)
    | LabelAny(n: nat)
    | TitleOrDescription(n: nat, m: nat)

  /** SQL's three truth values. */
  datatype Truth = True | False | Unknown

  function FromBool(b: bool): Truth {
    if b then True else False
  }

  function Or(a: Truth, b: Truth): Truth {
    if a.True? || b.True? then True else if a.False? && b.False? then False else Unknown
  }

  function And(a: Truth, b: Truth): Truth {
    if a.False? || b.False? then False else if a.True? && b.True? then True else Unknown
  }

  predicate Bound(n: nat, args: seq<Arg>) {
    1 <= n <= |args| && args[n - 1].Text?
  }

  predicate InRange(c: Fragment, args: seq<Arg>) {
    match c
    case StateIs(n) => Bound(n, args)
    case StateNotDeleted => true
    case FolderIs(n) => Bound(n, args)
    case LabelAny(n) => Bound(n, args)
    case TitleOrDescription(n, m) => Bound(n, args) && Bound(m, args)
  }

  function EvalFragment(lower: char -> char, c: Fragment, args: seq<Arg>, row: Row): Truth
    requires InRange(c, args)
  {
    match c
    case StateIs(n) => FromBool(row.state == args[n - 1].text)
    case StateNotDeleted => FromBool(row.state != "DELETED")
    case FolderIs(n) => if row.folder.None? then Unknown else FromBool(row.folder.value == args[n - 1].text)
    case LabelAny(n) => FromBool(args[n - 1].text in row.labels)
    case TitleOrDescription(n, m) =>
      Or(FromBool(ILike(lower, row.title, args[n - 1].text)),
         if row.description.None? then Unknown else FromBool(ILike(lower, row.description.value, args[m - 1].text)))
  }

  function EvalAll(lower: char -> char, parts: seq<Fragment>, args: seq<Arg>, row: Row): Truth
    requires forall c :: c in parts ==> InRange(c, args)
  {
    if parts == [] then True
    else And(EvalAll(lower, parts[..|parts| - 1], args, row), EvalFragment(lower, parts[|parts| - 1], args, row))
  }

  // ---------- compiling ----------

  function Placeholders(c: Fragment): set<nat> {
    match c
    case StateIs(n) => {n}
    case StateNotDeleted => {}
    case FolderIs(n) => {n}
    case LabelAny(n) => {n}
    case TitleOrDescription(n, m) => {n, m}
  }

  function AllPlaceholders(parts: seq<Fragment>): set<nat> {
    if parts == [] then {} else AllPlaceholders(parts[..|parts| - 1]) + Placeholders(parts[|parts| - 1])
  }

  /** The fragments and the arguments emitted so far. */
  datatype Clause = Clause(parts: seq<Fragment>, args: seq<Arg>)

  /** The next placeholder, when `before` arguments precede the clause's own. */
  function Next(c: Clause, before: nat): nat {
    before + |c.args| + 1
  }

  /** Emit a fragment for the next placeholder and append its argument. */
  function Emit(c: Clause, fragment: Fragment, arg: Arg): Clause {
    Clause(c.parts + [fragment], c.args + [arg])
  }

  function StateClause(f: Filter, before: nat): Clause {
    if f.stateFilter != "" then Emit(Clause([], []), StateIs(before + 1), Text(f.stateFilter))
    else Clause([StateNotDeleted], [])
  }

  function FolderClause(f: Filter, before: nat): Clause {
    var c := StateClause(f, before);
    if f.folderFilter != "" then Emit(c, FolderIs(Next(c, before)), Text(f.folderFilter)) else c
  }

  function LabelClause(f: Filter, before: nat): Clause {
    var c := FolderClause(f, before);
    if f.labelName != "" then Emit(c, LabelAny(Next(c, before)), Text(f.labelName)) else c
  }

  /** The whole clause, when `before` arguments are already there. */
  function WholeClause(f: Filter, before: nat): Clause {
    var c := LabelClause(f, before);
    var n := Next(c, before);
    if f.textSearch != "" then Emit(c, TitleOrDescription(n, n), Text(Pattern(f.textSearch))) else c
  }

  /** filterClause. */
  method FilterClause(f: Filter, args: seq<Arg>) returns (parts: seq<Fragment>, out: seq<Arg>)
    ensures parts == WholeClause(f, |args|).parts && out == args + WholeClause(f, |args|).args
  {
    parts, out := [], args;
    var n := |args| + 1;
    if f.stateFilter != "" {
      parts := parts + [StateIs(n)];
      out := out + [Text(f.stateFilter)];
      n := n + 1;
    } else {
      parts := parts + [StateNotDeleted];
    }
    assert parts == StateClause(f, |args|).parts && out == args + StateClause(f, |args|).args;
    if f.folderFilter != "" {
      parts := parts + [FolderIs(n)];
      out := out + [Text(f.folderFilter)];
      n := n + 1;
    }
    assert parts == FolderClause(f, |args|).parts && out == args + FolderClause(f, |args|).args;
    if f.labelName != "" {
      parts := parts + [LabelAny(n)];
      out := out + [Text(f.labelName)];
      n := n + 1;
    }
    assert parts == LabelClause(f, |args|).parts && out == args + LabelClause(f, |args|).args;
    if f.textSearch != "" {
      parts := parts + [TitleOrDescription(n, n)];
      out := out + [Text(Pattern(f.textSearch))];
      n := n + 1;
    }
  }

  /** With the clause's arguments in their place, the fragments are in range and hold just when `holds`. */
  ghost predicate Means(c: Clause, args: seq<Arg>, later: seq<Arg>, lower: char -> char, row: Row, holds: bool) {
    && (forall x :: x in c.parts ==> InRange(x, args + c.args + later))
    && (EvalAll(lower, c.parts, args + c.args + later, row).True? <==> holds)
  }

  lemma EmitMeans(c: Clause, args: seq<Arg>, later: seq<Arg>, lower: char -> char, row: Row, holds: bool,
                  fragment: Fragment, arg: Arg, also: bool)
    requires Means(c, args, [arg] + later, lower, row, holds)
    requires var all := args + (c.args + [arg]) + later;
      InRange(fragment, all) && (EvalFragment(lower, fragment, all, row).True? <==> also)
    ensures Means(Emit(c, fragment, arg), args, later, lower, row, holds && also)
  {
    var e := Emit(c, fragment, arg);
    var all := args + e.args + later;
    assert all == args + c.args + ([arg] + later);
    assert e.parts[..|c.parts|] == c.parts && e.parts[|c.parts|] == fragment;
    forall x | x in e.parts ensures InRange(x, all) { assert x in c.parts || x == fragment; }
  }

  lemma StateClauseMeans(f: Filter, args: seq<Arg>, later: seq<Arg>, lower: char -> char, row: Row)
    ensures Means(StateClause(f, |args|), args, later, lower, row, StateSelects(f, row))
  {
    if f.stateFilter != "" {
      var arg := Text(f.stateFilter);
      assert Means(Clause([], []), args, [arg] + later, lower, row, true);
      EmitMeans(Clause([], []), args, later, lower, row, true, StateIs(|args| + 1), arg, StateSelects(f, row));
    } else {
      assert StateClause(f, |args|).parts[..0] == [];
    }
  }

  lemma FolderClauseMeans(f: Filter, args: seq<Arg>, later: seq<Arg>, lower: char -> char, row: Row)
    ensures Means(FolderClause(f, |args|), args, later, lower, row,
                  StateSelects(f, row) && (f.folderFilter != "" ==> row.folder == Some(f.folderFilter)))
  {
    var c, arg := StateClause(f, |args|), Text(f.folderFilter);
    if f.folderFilter != "" {
      StateClauseMeans(f, args, [arg] + later, lower, row);
      EmitMeans(c, args, later, lower, row, StateSelects(f, row), FolderIs(Next(c, |args|)), arg,
                row.folder == Some(f.folderFilter));
    } else {
      StateClauseMeans(f, args, later, lower, row);
    }
  }

  lemma LabelClauseMeans(f: Filter, args: seq<Arg>, later: seq<Arg>, lower: char -> char, row: Row)
    ensures Means(LabelClause(f, |args|), args, later, lower, row, ColumnsSelect(f, row))
  {
    var c, arg := FolderClause(f, |args|), Text(f.labelName);
    if f.labelName != "" {
      FolderClauseMeans(f, args, [arg] + later, lower, row);
      EmitMeans(c, args, later, lower, row,
                StateSelects(f, row) && (f.folderFilter != "" ==> row.folder == Some(f.folderFilter)),
                LabelAny(Next(c, |args|)), arg, f.labelName in row.labels);
    } else {
      FolderClauseMeans(f, args, later, lower, row);
    }
  }

  lemma TextFragmentMeans(f: Filter, n: nat, all: seq<Arg>, lower: char -> char, row: Row)
    requires 1 <= n <= |all| && all[n - 1] == Text(Pattern(f.textSearch))
    ensures InRange(TitleOrDescription(n, n), all)
    ensures EvalFragment(lower, TitleOrDescription(n, n), all, row).True? <==> TextSelects(lower, f, row)
  {}

  /**
    Compiling preserves meaning: whatever precedes and follows, the fragments hold of exactly the rows that the filter
    selects.
   */
  lemma ClauseMeansFilter(f: Filter, args: seq<Arg>, later: seq<Arg>, lower: char -> char, row: Row)
    ensures Means(WholeClause(f, |args|), args, later, lower, row, Selects(lower, f, row))
  {
    var c, arg := LabelClause(f, |args|), Text(Pattern(f.textSearch));
    if f.textSearch != "" {
      var n := Next(c, |args|);
      LabelClauseMeans(f, args, [arg] + later, lower, row);
      TextFragmentMeans(f, n, args + (c.args + [arg]) + later, lower, row);
      EmitMeans(c, args, later, lower, row, ColumnsSelect(f, row), TitleOrDescription(n, n), arg,
                TextSelects(lower, f, row));
    } else {
      LabelClauseMeans(f, args, later, lower, row);
    }
  }

  /** The clause uses each placeholder of its own arguments, and no other. */
  ghost predicate Uses(c: Clause, before: nat) {
    forall n: nat :: n in AllPlaceholders(c.parts) <==> before < n <= before + |c.args|
  }

  lemma EmitUses(c: Clause, before: nat, fragment: Fragment, arg: Arg)
    requires Uses(c, before) && Placeholders(fragment) == {Next(c, before)}
    ensures Uses(Emit(c, fragment, arg), before)
  {
    var e := Emit(c, fragment, arg);
    assert e.parts[..|c.parts|] == c.parts;
  }

  lemma StateClauseUses(f: Filter, before: nat)
    ensures Uses(StateClause(f, before), before)
  {
    if f.stateFilter != "" { EmitUses(Clause([], []), before, StateIs(before + 1), Text(f.stateFilter)); }
  }

  lemma LabelClauseUses(f: Filter, before: nat)
    ensures Uses(LabelClause(f, before), before)
  {
    StateClauseUses(f, before);
    var c1, c2 := StateClause(f, before), FolderClause(f, before);
    assert Uses(c2, before) by {
      if f.folderFilter != "" { EmitUses(c1, before, FolderIs(Next(c1, before)), Text(f.folderFilter)); }
    }
    if f.labelName != "" { EmitUses(c2, before, LabelAny(Next(c2, before)), Text(f.labelName)); }
  }

  /** No argument is left out and no placeholder runs past the arguments. */
  lemma ClauseUsesItsArguments(f: Filter, before: nat)
    ensures Uses(WholeClause(f, before), before)
  {
    LabelClauseUses(f, before);
    var c := LabelClause(f, before);
    if f.textSearch != "" {
      EmitUses(c, before, TitleOrDescription(Next(c, before), Next(c, before)), Text(Pattern(f.textSearch)));
    }
  }
}
