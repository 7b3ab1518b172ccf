/** `expr_match_glob` and `expr_match_regex` (script_interpreter.c): shell
    wildcard matching with `*` and `?`, no character classes, no escapes. */
module Glob {

  /** The language of a pattern: `*` stands for any string, possibly empty,
      `?` for exactly one character, and every other character for itself. */
  predicate GlobMatches(p: string, s: string)
    decreases |p| + |s|
  {
    if p == [] then s == []
    else if p[0] == '*' then GlobMatches(p[1..], s) || (s != [] && GlobMatches(p, s[1..]))
    else s != [] && (p[0] == '?' || p[0] == s[0]) && GlobMatches(p[1..], s[1..])
  }

  predicate AllStars(p: string) { forall k :: 0 <= k < |p| ==> p[k] == '*' }

  /** Only a pattern of stars matches the empty string. */
  lemma {:induction false} EmptyMatch(p: string)
    ensures GlobMatches(p, []) <==> AllStars(p)
  {
    if p != [] {
      EmptyMatch(p[1..]);
      assert AllStars(p) <==> p[0] == '*' && AllStars(p[1..]) by {
        assert forall k :: 1 <= k < |p| ==> p[k] == p[1..][k - 1];
      }
    }
  }

  /** A non-empty pattern of stars matches everything. */
  lemma {:induction false} StarsMatch(p: string, s: string)
    requires p != []
    ensures AllStars(p) ==> GlobMatches(p, s)
    decreases |s|
  {
    if s != [] {
      StarsMatch(p, s[1..]);
    } else {
      EmptyMatch(p);
    }
  }

  /** The source's algorithm: walk both strings; at a `*` try the rest of
      the pattern against every non-empty suffix of the string, recursively;
      when a string runs out, only trailing stars may remain. */
  method MatchGlob(pattern: string, str: string) returns (b: bool)
    ensures b == GlobMatches(pattern, str)
    decreases |pattern| + |str|
  {
    var i, j := 0, 0;
    while i < |pattern| && j < |str|
      invariant 0 <= i <= |pattern| && 0 <= j <= |str|
      invariant GlobMatches(pattern[i..], str[j..]) == GlobMatches(pattern, str)
      decreases |pattern| - i
    {
      if pattern[i] == '*' {
        ghost var star := pattern[i..];
        i := i + 1;
        if i == |pattern| {
          StarsMatch(star, str[j..]);
          return true;
        }
        ghost var rest := pattern[i..];
        assert star[1..] == rest;
        ghost var j0 := j;
        while j < |str|
          invariant j0 <= j <= |str|
          invariant GlobMatches(star, str[j..]) == GlobMatches(pattern, str)
          invariant j > j0 ==> !AllStars(rest)
        {
          var m := MatchGlob(pattern[i..], str[j..]);
          if m {
            return true;
          }
          assert str[j..][1..] == str[j + 1..];
          StarsMatch(rest, str[j..]);
          j := j + 1;
        }
        EmptyMatch(rest);
        return false;
      } else if pattern[i] == '?' || pattern[i] == str[j] {
        assert pattern[i..][1..] == pattern[i + 1..] && str[j..][1..] == str[j + 1..];
        i, j := i + 1, j + 1;
      } else {
        return false;
      }
    }
    ghost var i0 := i;
    while i < |pattern| && pattern[i] == '*'
      invariant i0 <= i <= |pattern|
      invariant forall k :: i0 <= k < i ==> pattern[k] == '*'
    {
      i := i + 1;
    }
    EmptyMatch(pattern[i0..]);
    if j < |str| {
      assert i0 == |pattern|;
    } else {
      assert str[j..] == [];
      assert AllStars(pattern[i0..]) <==> i == |pattern| by {
        if i < |pattern| { assert pattern[i0..][i - i0] == pattern[i]; }
      }
    }
    return i == |pattern| && j == |str|;
  }

  /** `expr_match_regex` is the glob matcher under another name. */
  method MatchRegex(pattern: string, str: string) returns (b: bool)
    ensures b == GlobMatches(pattern, str)
  {
    b := MatchGlob(pattern, str);
  }

  /** A pattern without wildcards matches exactly itself. */
  lemma {:induction false} LiteralMatch(p: string, s: string)
    requires '*' !in p && '?' !in p
    ensures GlobMatches(p, s) <==> s == p
    decreases |p|
  {
    if p != [] && s != [] {
      LiteralMatch(p[1..], s[1..]);
      assert p == [p[0]] + p[1..] && s == [s[0]] + s[1..];
    }
  }

  /** A pattern of question marks matches exactly the strings of its
      length. */
  lemma {:induction false} QuestionMarks(p: string, s: string)
    requires forall k :: 0 <= k < |p| ==> p[k] == '?'
    ensures GlobMatches(p, s) <==> |s| == |p|
    decreases |p|
  {
    if p != [] && s != [] {
      QuestionMarks(p[1..], s[1..]);
    }
  }

  /** Matching is compositional: pieces that match concatenate. */
  lemma {:induction false} ConcatMatch(p: string, s: string, q: string, t: string)
    requires GlobMatches(p, s) && GlobMatches(q, t)
    ensures GlobMatches(p + q, s + t)
    decreases |p| + |s|
  {
    if p == [] {
      assert p + q == q && s + t == t;
    } else if p[0] == '*' {
      assert (p + q)[1..] == p[1..] + q;
      if GlobMatches(p[1..], s) {
        ConcatMatch(p[1..], s, q, t);
      } else {
        ConcatMatch(p, s[1..], q, t);
        assert (s + t)[1..] == s[1..] + t;
      }
    } else {
      ConcatMatch(p[1..], s[1..], q, t);
      assert (p + q)[1..] == p[1..] + q && (s + t)[1..] == s[1..] + t;
    }
  }

  /** The examples the matcher is meant for. */
  lemma Examples()
    ensures GlobMatches("a*c", "abc")
    ensures GlobMatches("a*c", "ac")
    ensures GlobMatches("a?c", "abc")
    ensures !GlobMatches("a?c", "ac")
    ensures GlobMatches("*", "")
  {
    assert "a*c"[1..] == "*c" && "*c"[1..] == "c" && "abc"[1..] == "bc" && "bc"[1..] == "c";
    assert GlobMatches("c", "c") by { assert "c"[1..] == ""; }
    assert GlobMatches("*c", "c");
    assert GlobMatches("*c", "bc");
    assert "a?c"[1..] == "?c" && "?c"[1..] == "c" && "ac"[1..] == "c";
    assert !GlobMatches("c", "") && !GlobMatches("?c", "c");
  }
}
