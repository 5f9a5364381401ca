/**
 * SQLite's `LIKE` operator with its default settings: `%` matches any run of
 * characters, `_` matches exactly one, and every other character matches itself
 * up to ASCII case (SQLite folds only `A`-`Z` unless built with ICU).
 */
module Sql {
  import opened Common

  function AsciiFold(c: char): char
  {
    if 'A' <= c <= 'Z' then (c as int + 32) as char else c
  }

  function AsciiLower(s: string): (r: string)
    ensures |r| == |s|
    ensures forall i :: 0 <= i < |s| ==> r[i] == AsciiFold(s[i])
  {
    if s == [] then [] else [AsciiFold(s[0])] + AsciiLower(s[1..])
  }

  predicate IsWildcard(c: char)
  {
    c == '%' || c == '_'
  }

  /** `s LIKE p`. */
  predicate Like(s: string, p: string)
    decreases |s| + |p|
  {
    if p == [] then s == []
    else if p[0] == '%' then Like(s, p[1..]) || (s != [] && Like(s[1..], p))
    else if p[0] == '_' then s != [] && Like(s[1..], p[1..])
    else s != [] && AsciiFold(s[0]) == AsciiFold(p[0]) && Like(s[1..], p[1..])
  }

  /** The bound parameter of a search: the term wrapped in `%` on both sides. */
  function Around(term: string): string
  {
    "%" + term + "%"
  }

  /** A lone `%` matches every text. */
  lemma {:induction false} LikeAnything(s: string)
    ensures Like(s, "%")
  {
    if s != [] {
      LikeAnything(s[1..]);
    }
  }

  /** For a term free of wildcards, `s LIKE term || '%'` is a case-blind prefix test. */
  lemma {:induction false} LikePrefix(s: string, term: string)
    requires forall i :: 0 <= i < |term| ==> !IsWildcard(term[i])
    ensures Like(s, term + "%") <==> IsPrefix(AsciiLower(term), AsciiLower(s))
  {
    if term == [] {
      LikeAnything(s);
      assert term + "%" == "%";
    } else {
      var p := term + "%";
      assert p[0] == term[0] && p[1..] == term[1..] + "%";
      if s != [] {
        LikePrefix(s[1..], term[1..]);
        var ls, lt := AsciiLower(s), AsciiLower(term);
        assert ls == [ls[0]] + AsciiLower(s[1..]);
        assert lt == [lt[0]] + AsciiLower(term[1..]);
        if IsPrefix(lt, ls) {
          assert ls[..|lt|][0] == ls[0];
          assert AsciiLower(s[1..])[..|lt| - 1] == ls[..|lt|][1..];
        }
        if ls[0] == lt[0] && IsPrefix(AsciiLower(term[1..]), AsciiLower(s[1..])) {
          assert ls[..|lt|] == [ls[0]] + AsciiLower(s[1..])[..|lt| - 1];
        }
      }
    }
  }

  /**
   * For a term free of wildcards, `s LIKE '%term%'` holds exactly when the term
   * occurs in `s`, ignoring ASCII case.
   */
  lemma {:induction false} LikeAroundIsContains(s: string, term: string)
    requires forall i :: 0 <= i < |term| ==> !IsWildcard(term[i])
    ensures Like(s, Around(term)) <==> Contains(AsciiLower(s), AsciiLower(term))
  {
    var p := Around(term);
    assert p[0] == '%' && p[1..] == term + "%";
    LikePrefix(s, term);
    if s != [] {
      LikeAroundIsContains(s[1..], term);
      assert AsciiLower(s)[1..] == AsciiLower(s[1..]);
    }
  }
}
