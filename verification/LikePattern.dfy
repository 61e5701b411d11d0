/** SQL LIKE, and what a search for '%' + text + '%' finds. */
module LikePattern {
  import opened Strings

  /** s LIKE p: '%' stands for any text, '_' for any character, and a backslash makes the next character plain. */
  predicate Like(p: string, s: string)
    decreases |p| + |s|
  {
    if p == [] then s == []
    else if p[0] == '%' then Like(p[1..], s) || (s != [] && Like(p, s[1..]))
    else if p[0] == '\\' then |p| >= 2 && s != [] && s[0] == p[1] && Like(p[2..], s[1..])
    else s != [] && (p[0] == '_' || p[0] == s[0]) && Like(p[1..], s[1..])
  }

  predicate Plain(t: string) {
    '%' !in t && '_' !in t && '\\' !in t
  }

  lemma {:induction false} AnyTail(s: string)
    ensures Like("%", s)
  {
    if s == [] {
    } else {
      AnyTail(s[1..]);
    }
  }

  lemma {:induction false} PlainPrefix(t: string, s: string)
    requires Plain(t)
    ensures Like(t + "%", s) <==> t <= s
  {
    if t == [] {
      assert t + "%" == "%";
      AnyTail(s);
    } else {
      assert (t + "%")[0] == t[0] && t[0] in t && (t + "%")[1..] == t[1..] + "%";
      if s != [] {
        PlainPrefix(t[1..], s[1..]);
        assert t[1..] <= s[1..] && t[0] == s[0] ==> t <= s;
      }
    }
  }

  lemma {:induction false} PlainSearch(t: string, s: string)
    requires Plain(t)
    ensures Like("%" + t + "%", s) <==> Contains(s, t)
  {
    var p := "%" + t + "%";
    assert p[1..] == t + "%";
    PlainPrefix(t, s);
    if s == [] {
    } else {
      PlainSearch(t, s[1..]);
    }
  }

  /** A shortest text that t matches when it is read as a pattern and followed by '%'. */
  function Literal(t: string): string {
    if t == [] then []
    else if t[0] == '%' then Literal(t[1..])
    else if t[0] == '_' then "a" + Literal(t[1..])
    else if t[0] == '\\' then if |t| == 1 then "%" else [t[1]] + Literal(t[2..])
    else [t[0]] + Literal(t[1..])
  }

  lemma {:induction false} LiteralMatches(t: string)
    ensures Like(t + "%", Literal(t))
  {
    var p := t + "%";
    if t == [] {
      assert p == "%";
      AnyTail([]);
    } else if t[0] == '\\' {
      if |t| == 1 {
        assert p == "\\%" && p[2..] == [];
      } else {
        LiteralMatches(t[2..]);
        assert p[2..] == t[2..] + "%" && Literal(t)[1..] == Literal(t[2..]);
      }
    } else {
      LiteralMatches(t[1..]);
      assert p[1..] == t[1..] + "%";
      if t[0] != '%' { assert Literal(t)[1..] == Literal(t[1..]); }
    }
  }

  lemma {:induction false} LiteralDiffers(t: string)
    ensures |Literal(t)| <= |t|
    ensures Literal(t) == t ==> Plain(t)
  {
    if t == [] {
    } else {
      if t[0] == '\\' {
        if |t| > 1 { LiteralDiffers(t[2..]); }
      } else {
        LiteralDiffers(t[1..]);
        if t[0] != '%' && t[0] != '_' && Literal(t) == t {
          assert Literal(t)[1..] == Literal(t[1..]);
          assert t == [t[0]] + t[1..];
        }
      }
    }
  }

  lemma {:induction false} ContainsShort(s: string, t: string)
    requires Contains(s, t) && |s| <= |t|
    ensures s == t
  {
    if !(t <= s) { ContainsLength(s[1..], t); }
  }

  lemma {:induction false} ContainsLength(s: string, t: string)
    requires Contains(s, t)
    ensures |t| <= |s|
  {
    if !(t <= s) { ContainsLength(s[1..], t); }
  }

  /** A text with a wildcard or a backslash finds something that does not contain it. */
  lemma LiteralFound(t: string)
    requires !Plain(t)
    ensures Like("%" + t + "%", Literal(t)) && !Contains(Literal(t), t)
  {
    LiteralMatches(t);
    assert ("%" + t + "%")[1..] == t + "%";
    LiteralDiffers(t);
    if Contains(Literal(t), t) { ContainsShort(Literal(t), t); }
  }

  /** Searching with '%' + t + '%' is a substring search exactly for the texts without '%', '_' and backslash. */
  lemma SubstringSearchExactly(t: string)
    ensures (forall s :: Like("%" + t + "%", s) <==> Contains(s, t)) <==> Plain(t)
  {
    if Plain(t) {
      forall s ensures Like("%" + t + "%", s) <==> Contains(s, t) { PlainSearch(t, s); }
    } else {
      LiteralFound(t);
      assert !(Like("%" + t + "%", Literal(t)) <==> Contains(Literal(t), t));
    }
  }
}
