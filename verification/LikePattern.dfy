/** Literal search by LIKE: escaping the search text, and the matcher it is meant for. */
module LikePattern {

  predicate Special(c: char) {
    c == '\\' || c == '%' || c == '_'
  }

  /** Puts a backslash before each backslash, percent sign and underscore. */
  function Escape(s: string): string {
    if s == "" then ""
    else if Special(s[0]) then ['\\', s[0]] + Escape(s[1..])
    else [s[0]] + Escape(s[1..])
  }

  /** Every escape character of the pattern has a character after it. */
  predicate WellFormed(p: string) {
    p == "" || (if p[0] == '\\' then |p| >= 2 && WellFormed(p[2..]) else WellFormed(p[1..]))
  }

  /** The LIKE predicate with backslash as escape character (section 8.5 of ISO/IEC 9075-2): `%` stands for any
      text, `_` for any one character, and an escaped character for itself. */
  predicate Like(t: string, p: string)
    requires WellFormed(p)
    decreases |p|, |t|
  {
    if p == "" then t == ""
    else if p[0] == '\\' then t != "" && t[0] == p[1] && Like(t[1..], p[2..])
    else if p[0] == '%' then Like(t, p[1..]) || (t != "" && Like(t[1..], p))
    else if p[0] == '_' then t != "" && Like(t[1..], p[1..])
    else t != "" && t[0] == p[0] && Like(t[1..], p[1..])
  }

  predicate OccursAt(t: string, s: string, i: nat) {
    i + |s| <= |t| && t[i..i + |s|] == s
  }

  /** `s` occurs in `t` as a contiguous part. */
  predicate Contains(t: string, s: string) {
    exists i: nat | i <= |t| :: OccursAt(t, s, i)
  }

  function SearchPattern(s: string): string {
    "%" + Escape(s) + "%"
  }

  lemma {:induction false} EscapeWellFormed(s: string, rest: string)
    requires WellFormed(rest)
    ensures WellFormed(Escape(s) + rest)
  {
    if s == "" {
      assert Escape(s) + rest == rest;
    } else {
      var tail := Escape(s[1..]) + rest;
      EscapeWellFormed(s[1..], rest);
      if Special(s[0]) {
        assert Escape(s) + rest == ['\\', s[0]] + tail;
        assert (Escape(s) + rest)[2..] == tail;
      } else {
        assert Escape(s) + rest == [s[0]] + tail;
        assert (Escape(s) + rest)[1..] == tail;
      }
    }
  }

  /** The pattern built for a search never ends in a dangling escape. */
  lemma SearchPatternWellFormed(s: string)
    ensures WellFormed(SearchPattern(s))
  {
    EscapeWellFormed(s, "%");
    assert SearchPattern(s)[1..] == Escape(s) + "%";
  }

  lemma {:induction false} PercentMatchesAll(t: string)
    ensures Like(t, "%")
  {
    if t != "" {
      PercentMatchesAll(t[1..]);
    }
  }

  /** Escaped text followed by `%` matches exactly the texts that start with it. */
  lemma {:induction false} PrefixMatch(t: string, s: string)
    ensures WellFormed(Escape(s) + "%")
    ensures Like(t, Escape(s) + "%") <==> s <= t
  {
    EscapeWellFormed(s, "%");
    if s == "" {
      PercentMatchesAll(t);
      assert Escape(s) + "%" == "%";
    } else {
      var p := Escape(s) + "%";
      var n := if Special(s[0]) then 2 else 1;
      assert p[n..] == Escape(s[1..]) + "%";
      if t != "" {
        PrefixMatch(t[1..], s[1..]);
        assert s <= t <==> s[0] == t[0] && s[1..] <= t[1..];
      }
    }
  }

  lemma ContainsStep(t: string, s: string)
    requires t != ""
    ensures Contains(t, s) <==> s <= t || Contains(t[1..], s)
  {
    if s <= t {
      assert OccursAt(t, s, 0);
    }
    if i: nat :| i <= |t[1..]| && OccursAt(t[1..], s, i) {
      assert t[1..][i..i + |s|] == t[i + 1..i + 1 + |s|];
      assert OccursAt(t, s, i + 1);
    }
    if i: nat :| i <= |t| && OccursAt(t, s, i) {
      if i > 0 {
        assert t[1..][i - 1..i - 1 + |s|] == t[i..i + |s|];
        assert OccursAt(t[1..], s, i - 1);
      } else {
        assert t[0..|s|] == t[..|s|];
      }
    }
  }

  /** A search finds exactly the texts that contain the search text, whatever characters it is made of. */
  lemma {:induction false} SearchIsLiteral(t: string, s: string)
    ensures WellFormed(SearchPattern(s))
    ensures Like(t, SearchPattern(s)) <==> Contains(t, s)
  {
    SearchPatternWellFormed(s);
    var p := SearchPattern(s);
    assert p[1..] == Escape(s) + "%";
    PrefixMatch(t, s);
    if t == "" {
      assert s <= t <==> OccursAt(t, s, 0);
    } else {
      SearchIsLiteral(t[1..], s);
      ContainsStep(t, s);
    }
  }

  function Unescape(p: string): string {
    if p == "" then ""
    else if p[0] == '\\' && |p| >= 2 then [p[1]] + Unescape(p[2..])
    else [p[0]] + Unescape(p[1..])
  }

  /** Escaping loses nothing: it can be undone, so different texts have different patterns. */
  lemma {:induction false} UnescapeEscape(s: string)
    ensures Unescape(Escape(s)) == s
  {
    if s != "" {
      var n := if Special(s[0]) then 2 else 1;
      assert Escape(s)[n..] == Escape(s[1..]);
      UnescapeEscape(s[1..]);
    }
  }
}
