/**
 * SQL `ILIKE`, as the two search handlers use it: `name ILIKE '%term%'`.
 * In a pattern `%` matches any run of characters, `_` matches any single
 * character and a backslash makes the character after it literal; every
 * other character matches itself without regard to case. Case is folded for
 * the ASCII letters only.
 */
module Ilike {

  /** The lower-case form of an ASCII letter; any other character as it is. */
  function Lower(c: char): char {
    if 'A' <= c <= 'Z' then (c as int + 32) as char else c
  }

  /** `s ILIKE p`. A backslash that ends the pattern, which the store rejects,
      cannot occur in the patterns built here: they all end with `%`. */
  predicate Like(s: string, p: string)
    decreases |s| + |p|
  {
    if p == [] then s == []
    else if p[0] == '%' then Like(s, p[1..]) || (s != [] && Like(s[1..], p))
    else if p[0] == '_' then s != [] && Like(s[1..], p[1..])
    else if p[0] == '\\' && |p| >= 2 then s != [] && Lower(s[0]) == Lower(p[1]) && Like(s[1..], p[2..])
    else s != [] && Lower(s[0]) == Lower(p[0]) && Like(s[1..], p[1..])
  }

  /** The pattern `f'%{search_term}%'`. */
  function SearchPattern(term: string): string {
    "%" + term + "%"
  }

  /** The term holds none of the characters that are special in a pattern. */
  predicate Plain(term: string) {
    forall i :: 0 <= i < |term| ==> term[i] != '%' && term[i] != '_' && term[i] != '\\'
  }

  /** `a` and `b` spell the same letters up to case. */
  predicate SameIgnoringCase(a: string, b: string) {
    |a| == |b| && forall k :: 0 <= k < |a| ==> Lower(a[k]) == Lower(b[k])
  }

  /** `t` occurs in `s` at position `i`, up to case. */
  predicate OccursAt(s: string, t: string, i: int) {
    0 <= i <= |s| - |t| && SameIgnoringCase(s[i..i + |t|], t)
  }

  /** `t` occurs in `s` up to case. */
  ghost predicate ContainsIgnoringCase(s: string, t: string) {
    exists i :: OccursAt(s, t, i)
  }

  /** `%` alone matches every string. */
  lemma {:induction false} PercentMatchesAll(s: string)
    ensures Like(s, "%")
  {
    if s != [] {
      PercentMatchesAll(s[1..]);
    }
  }

  /** A leading `%` lets the rest of the pattern match any suffix. */
  lemma {:induction false} LeadingPercent(s: string, q: string)
    ensures Like(s, "%" + q) <==> exists i :: 0 <= i <= |s| && Like(s[i..], q)
  {
    var p := "%" + q;
    assert p[1..] == q;
    assert s[0..] == s;
    if s != [] {
      LeadingPercent(s[1..], q);
      if Like(s[1..], p) {
        var i :| 0 <= i <= |s[1..]| && Like(s[1..][i..], q);
        assert s[1..][i..] == s[i + 1..];
      }
      if exists i :: 0 <= i <= |s| && Like(s[i..], q) {
        var i :| 0 <= i <= |s| && Like(s[i..], q);
        if i > 0 {
          assert s[1..][i - 1..] == s[i..];
        }
      }
    }
  }

  /** A plain literal at the head of a pattern matches the same letters, up
      to case, at the head of the string. */
  lemma {:induction false} PlainPrefix(s: string, t: string, rest: string)
    requires Plain(t)
    ensures Like(s, t + rest) <==>
      |t| <= |s| && SameIgnoringCase(s[..|t|], t) && Like(s[|t|..], rest)
  {
    if t == [] {
      assert t + rest == rest && s[|t|..] == s;
    } else {
      var p := t + rest;
      assert p[0] == t[0] && p[1..] == t[1..] + rest;
      if s != [] {
        PlainPrefix(s[1..], t[1..], rest);
        if |t| <= |s| {
          assert s[1..][|t| - 1..] == s[|t|..];
          assert SameIgnoringCase(s[..|t|], t) <==>
                 Lower(s[0]) == Lower(t[0]) && SameIgnoringCase(s[1..][..|t| - 1], t[1..]) by {
            if Lower(s[0]) == Lower(t[0]) && SameIgnoringCase(s[1..][..|t| - 1], t[1..]) {
              forall k | 0 <= k < |t| ensures Lower(s[..|t|][k]) == Lower(t[k]) {
                if k > 0 { assert s[..|t|][k] == s[1..][..|t| - 1][k - 1]; }
              }
            }
          }
        }
      }
    }
  }

  /** For a term without special characters, the search pattern matches
      exactly the names that contain the term, ignoring case. */
  lemma SearchIsSubstringMatch(s: string, term: string)
    requires Plain(term)
    ensures Like(s, SearchPattern(term)) <==> ContainsIgnoringCase(s, term)
  {
    assert SearchPattern(term) == "%" + (term + "%");
    LeadingPercent(s, term + "%");
    if Like(s, SearchPattern(term)) {
      var i :| 0 <= i <= |s| && Like(s[i..], term + "%");
      PlainPrefix(s[i..], term, "%");
      assert s[i..][..|term|] == s[i..i + |term|];
      assert OccursAt(s, term, i);
    }
    if ContainsIgnoringCase(s, term) {
      var i :| OccursAt(s, term, i);
      PlainPrefix(s[i..], term, "%");
      assert s[i..][..|term|] == s[i..i + |term|];
      PercentMatchesAll(s[i..][|term|..]);
    }
  }

  /** An empty term matches every string. */
  lemma EmptyTermMatchesAll(s: string)
    ensures Like(s, SearchPattern(""))
  {
    assert SearchPattern("") == "%" + "%";
    LeadingPercent(s, "%");
    assert s[0..] == s;
    PercentMatchesAll(s);
  }

  /** The term is not escaped: its `_` matches any character, so "axb" is
      found by the term "a_b" though it does not contain it. */
  lemma UnderscoreInTermIsWildcard()
    ensures Like("axb", SearchPattern("a_b"))
    ensures !ContainsIgnoringCase("axb", "a_b")
  {
    assert SearchPattern("a_b") == "%a_b%";
    assert Like("", "%");
    assert Like("axb"[3..], "%");
    assert Like("axb"[2..], "b%");
    assert Like("axb"[1..], "_b%");
    assert Like("axb", "a_b%");
    assert Like("axb", "%a_b%");
    assert "axb"[0..3] == "axb";
    forall i ensures !OccursAt("axb", "a_b", i) {
      if 0 <= i <= 0 {
        assert Lower("axb"[0..3][1]) != Lower("a_b"[1]);
      }
    }
  }
}
