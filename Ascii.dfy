/**
  * Character-level text rules used by the registry: ASCII upper/lower case
  * mapping (what `str.upper`/`str.lower` and SQLite's `lower()` do on ASCII
  * text), Python's `str.strip` over ASCII whitespace, substring containment,
  * and SQL `LIKE` pattern matching with the `%` and `_` wildcards and no
  * escape character (SQLite's default).
  */
module Ascii {

  predicate IsLowerLetter(c: char) { 'a' <= c <= 'z' }

  predicate IsUpperLetter(c: char) { 'A' <= c <= 'Z' }

  function UpperChar(c: char): char
  {
    if IsLowerLetter(c) then (c as int - 32) as char else c
  }

  function LowerChar(c: char): char
  {
    if IsUpperLetter(c) then (c as int + 32) as char else c
  }

  /** `s.upper()` restricted to ASCII letters. */
  function Upper(s: string): (r: string)
    ensures |r| == |s|
    ensures forall i :: 0 <= i < |s| ==> r[i] == UpperChar(s[i])
  {
    seq(|s|, i requires 0 <= i < |s| => UpperChar(s[i]))
  }

  /** `s.lower()` (and SQL `lower(s)`) restricted to ASCII letters. */
  function Lower(s: string): (r: string)
    ensures |r| == |s|
    ensures forall i :: 0 <= i < |s| ==> r[i] == LowerChar(s[i])
  {
    seq(|s|, i requires 0 <= i < |s| => LowerChar(s[i]))
  }

  /** A string in which no lower-case letter is left. */
  predicate IsUpperCase(s: string)
  {
    forall i :: 0 <= i < |s| ==> !IsLowerLetter(s[i])
  }

  /** Upper-casing yields upper-case text, and upper-case text is its own upper-case form. */
  lemma UpperIsUpperCase(s: string)
    ensures IsUpperCase(Upper(s))
    ensures IsUpperCase(s) <==> Upper(s) == s
  {
    if IsUpperCase(s) {
      assert forall i :: 0 <= i < |s| ==> Upper(s)[i] == s[i];
    }
    if Upper(s) == s {
      assert forall i :: 0 <= i < |s| ==> !IsLowerLetter(Upper(s)[i]);
    }
  }

  lemma UpperIdempotent(s: string)
    ensures Upper(Upper(s)) == Upper(s)
  {
    UpperIsUpperCase(s);
    UpperIsUpperCase(Upper(s));
  }

  /** Case-insensitive comparison cannot tell a string from its upper-case form. */
  lemma LowerOfUpper(s: string)
    ensures Lower(Upper(s)) == Lower(s)
  {
    assert forall i :: 0 <= i < |s| ==> Lower(Upper(s))[i] == Lower(s)[i];
  }

  lemma LowerAppend(a: string, b: string)
    ensures Lower(a + b) == Lower(a) + Lower(b)
  {
    assert forall i :: 0 <= i < |a + b| ==> Lower(a + b)[i] == (Lower(a) + Lower(b))[i];
  }

  // ---------------------------------------------------------------- whitespace

  /** The ASCII characters for which Python's `str.isspace` holds. */
  predicate IsSpace(c: char)
  {
    c == ' ' || '\t' <= c <= '\r' || '\U{1C}' <= c <= '\U{1F}'
  }

  predicate IsBlank(s: string)
  {
    forall i :: 0 <= i < |s| ==> IsSpace(s[i])
  }

  /** Drops leading whitespace: the result is a suffix of `s` and only blanks were cut. */
  function TrimStart(s: string): (r: string)
    ensures |r| <= |s| && r == s[|s| - |r|..]
    ensures IsBlank(s[..|s| - |r|])
    ensures r != [] ==> !IsSpace(r[0])
  {
    if s != [] && IsSpace(s[0]) then
      var t := TrimStart(s[1..]);
      assert s[..|s| - |t|] == [s[0]] + s[1..][..|s[1..]| - |t|];
      t
    else
      s
  }

  /** Drops trailing whitespace: the result is a prefix of `s` and only blanks were cut. */
  function TrimEnd(s: string): (r: string)
    ensures |r| <= |s| && r == s[..|r|]
    ensures IsBlank(s[|r|..])
    ensures r != [] ==> !IsSpace(r[|r| - 1])
  {
    if s != [] && IsSpace(s[|s| - 1]) then
      var t := TrimEnd(s[..|s| - 1]);
      assert s[|t|..] == s[..|s| - 1][|t|..] + [s[|s| - 1]];
      t
    else
      s
  }

  /**
    * Python's `s.strip()`: what is left after cutting whitespace at both ends;
    * it starts and ends with a non-blank character unless it is empty.
    */
  function Strip(s: string): (r: string)
    ensures |r| <= |s|
    ensures r != [] ==> !IsSpace(r[0]) && !IsSpace(r[|r| - 1])
  {
    var t := TrimStart(s);
    var r := TrimEnd(t);
    assert r != [] ==> r[0] == t[0];
    r
  }

  /** `Strip(s)` is the slice of `s` at `i`, and only whitespace lies on either side of it. */
  lemma StripCutsBlanks(s: string) returns (i: nat)
    ensures i + |Strip(s)| <= |s|
    ensures Strip(s) == s[i..i + |Strip(s)|]
    ensures IsBlank(s[..i]) && IsBlank(s[i + |Strip(s)|..])
  {
    var t := TrimStart(s);
    var r := TrimEnd(t);
    i := |s| - |t|;
    assert s[i..][..|r|] == s[i..i + |r|];
    assert s[i..][|r|..] == s[i + |r|..];
  }

  /** `not s.strip()` holds exactly of the strings made of whitespace only. */
  lemma StripEmptyIffBlank(s: string)
    ensures Strip(s) == [] <==> IsBlank(s)
  {
    if IsBlank(s) {
      BlankStripsToEmpty(s);
    }
    if Strip(s) == [] {
      EmptyStripIsBlank(s);
    }
  }

  /** Only blanks precede the first non-blank character, so `TrimStart` of a blank string is empty. */
  lemma BlankStripsToEmpty(s: string)
    requires IsBlank(s)
    ensures Strip(s) == []
  {
    assert TrimStart(s) == [];
  }

  /** An empty strip means `TrimStart` cut everything, and it cuts only blanks. */
  lemma EmptyStripIsBlank(s: string)
    requires Strip(s) == []
    ensures IsBlank(s)
  {
    var t := TrimStart(s);
    assert t[0..] == t;
    assert s[..|s|] == s;
  }

  // ---------------------------------------------------------------- substrings

  /** `x` occurs in `s` at some position. */
  predicate Contains(s: string, x: string)
  {
    exists i :: 0 <= i <= |s| && x <= s[i..]
  }

  // ---------------------------------------------------------------- SQL LIKE

  /**
    * SQL `s LIKE p` without an ESCAPE clause: `%` matches any run of
    * characters, `_` any single character, every other character itself.
    */
  function Like(p: string, s: string): bool
    decreases |p| + |s|
  {
    if p == [] then s == []
    else if p[0] == '%' then Like(p[1..], s) || (s != [] && Like(p, s[1..]))
    else s != [] && (p[0] == '_' || p[0] == s[0]) && Like(p[1..], s[1..])
  }

  /** `column.ilike(p)` as SQLAlchemy compiles it for SQLite: `lower(s) LIKE lower(p)`. */
  predicate ILike(s: string, p: string)
  {
    Like(Lower(p), Lower(s))
  }

  /** The pattern `f'%{x}%'` that every text filter of the registry builds. */
  function Pattern(x: string): (p: string)
    ensures |p| == |x| + 2 && p[0] == '%' && p[|p| - 1] == '%' && p[1..|p| - 1] == x
  {
    "%" + x + "%"
  }

  predicate NoWildcards(x: string)
  {
    forall i :: 0 <= i < |x| ==> x[i] != '%' && x[i] != '_'
  }

  lemma {:induction false} LikePercentMatchesAll(s: string)
    ensures Like("%", s)
  {
    if s != [] {
      LikePercentMatchesAll(s[1..]);
    }
  }

  /** A wildcard-free pattern followed by `%` matches exactly the strings it is a prefix of. */
  lemma {:induction false} LikeLiteralThenPercent(x: string, t: string)
    requires NoWildcards(x)
    ensures Like(x + "%", t) <==> x <= t
  {
    if x == [] {
      assert x + "%" == "%";
      LikePercentMatchesAll(t);
    } else {
      assert (x + "%")[0] == x[0];
      assert (x + "%")[1..] == x[1..] + "%";
      if t != [] {
        LikeLiteralThenPercent(x[1..], t[1..]);
      }
    }
  }

  /** A leading `%` lets the rest of the pattern match any suffix. */
  lemma {:induction false} LikeLeadingPercent(q: string, s: string)
    ensures Like("%" + q, s) <==> exists i :: 0 <= i <= |s| && Like(q, s[i..])
  {
    assert ("%" + q)[0] == '%' && ("%" + q)[1..] == q;
    if s == [] {
      assert s[0..] == s;
    } else {
      LikeLeadingPercent(q, s[1..]);
      if Like("%" + q, s[1..]) {
        var i :| 0 <= i <= |s[1..]| && Like(q, s[1..][i..]);
        assert s[1..][i..] == s[i + 1..];
        assert Like(q, s[i + 1..]);
      }
      if Like(q, s) {
        assert s[0..] == s;
      }
      if exists i :: 0 <= i <= |s| && Like(q, s[i..]) {
        var i :| 0 <= i <= |s| && Like(q, s[i..]);
        if i > 0 {
          assert s[1..][i - 1..] == s[i..];
          assert Like("%" + q, s[1..]);
        } else {
          assert s[0..] == s;
        }
        assert Like("%" + q, s);
      }
    }
  }

  /** For a needle without wildcards, `LIKE '%x%'` is substring containment. */
  lemma LikeContains(x: string, s: string)
    requires NoWildcards(x)
    ensures Like(Pattern(x), s) <==> Contains(s, x)
  {
    assert Pattern(x) == "%" + (x + "%");
    LikeLeadingPercent(x + "%", s);
    forall i | 0 <= i <= |s|
      ensures Like(x + "%", s[i..]) <==> x <= s[i..]
    {
      LikeLiteralThenPercent(x, s[i..]);
    }
  }

  /**
    * For a filter value without `%` or `_`, the registry's `ilike('%x%')` test is
    * case-insensitive substring containment.
    */
  lemma ILikeContains(x: string, s: string)
    requires NoWildcards(x)
    ensures ILike(s, Pattern(x)) <==> Contains(Lower(s), Lower(x))
  {
    LowerAppend("%", x);
    LowerAppend("%" + x, "%");
    assert Lower("%") == "%";
    assert Lower(Pattern(x)) == Pattern(Lower(x));
    LikeContains(Lower(x), Lower(s));
  }

  /** `ilike` cannot tell a column value from its upper-case form. */
  lemma ILikeIgnoresUpper(s: string, p: string)
    ensures ILike(Upper(s), p) == ILike(s, p)
  {
    LowerOfUpper(s);
  }

  /**
    * The filter value is not escaped: a user who types `%` gets the pattern
    * `%%%`, which every (non-null) column value matches.
    */
  lemma PercentFilterMatchesAll(s: string)
    ensures ILike(s, Pattern("%"))
  {
    assert Lower(Pattern("%")) == "%" + ("%" + "%");
    LikeLeadingPercent("%" + "%", Lower(s));
    LikeLeadingPercent("%", Lower(s));
    LikePercentMatchesAll(Lower(s));
    assert Lower(s)[0..] == Lower(s);
  }
}
