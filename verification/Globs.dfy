/** Path globs of the selective deploy (rust-backend/deployment/affected.py,
    `_match_any`): `fnmatch` after `**` has been rewritten to `*`. */
module Globs {

  /** `g.replace("**", "*")`. */
  function Collapse(g: string): string {
    if |g| < 2 then g
    else if g[0] == '*' && g[1] == '*' then "*" + Collapse(g[2..])
    else [g[0]] + Collapse(g[1..])
  }

  /** Where the class opened by the bracket before `s` closes, or the length: a `!` and a `]` in front
      belong to the class. */
  function ClassEnd(s: string): (e: nat)
    ensures e <= |s|
  {
    var skip := if s != "" && s[0] == '!' then 1 else 0;
    var first := if skip < |s| && s[skip] == ']' then skip + 1 else skip;
    first + Closing(s[first..])
  }

  function Closing(s: string): (e: nat)
    ensures e <= |s|
  {
    if s == "" || s[0] == ']' then 0 else 1 + Closing(s[1..])
  }

  /** Single characters and ranges; an empty range holds nothing. */
  function InItems(c: char, s: string): bool {
    if s == "" then false
    else if |s| >= 3 && s[1] == '-' then s[0] <= c <= s[2] || InItems(c, s[3..])
    else c == s[0] || InItems(c, s[1..])
  }

  function InClass(c: char, s: string): bool {
    if s != "" && s[0] == '!' then !InItems(c, s[1..]) else InItems(c, s)
  }

  /** `fnmatchcase`. */
  function Match(p: string, g: string): bool
    decreases |p| + |g|
  {
    if g == "" then p == ""
    else if g[0] == '*' then Match(p, g[1..]) || (p != "" && Match(p[1..], g))
    else if p == "" then false
    else if g[0] == '[' && ClassEnd(g[1..]) < |g| - 1 then
      var e := ClassEnd(g[1..]);
      InClass(p[0], g[1..e + 1]) && Match(p[1..], g[e + 2..])
    else (g[0] == '?' || g[0] == p[0]) && Match(p[1..], g[1..])
  }

  function MatchGlob(p: string, g: string): bool { Match(p, Collapse(g)) }

  predicate MatchSome(p: string, globs: seq<string>) { exists i :: 0 <= i < |globs| && MatchGlob(p, globs[i]) }

  /** `_match_any`. */
  method MatchAny(p: string, globs: seq<string>) returns (b: bool)
    ensures b == MatchSome(p, globs)
  {
    for i := 0 to |globs|
      invariant forall k :: 0 <= k < i ==> !MatchGlob(p, globs[k])
    {
      if MatchGlob(p, globs[i]) { return true; }
    }
    return false;
  }

  /** No character with a meaning of its own. */
  predicate Literal(s: string) { forall i :: 0 <= i < |s| ==> s[i] != '*' && s[i] != '?' && s[i] != '[' }

  lemma CollapseCons(c: char, s: string)
    requires c != '*'
    ensures Collapse([c] + s) == [c] + Collapse(s)
  {
    assert ([c] + s)[1..] == s;
  }

  lemma {:induction false} CollapseStem(stem: string, rest: string)
    requires Literal(stem)
    ensures Collapse(stem + rest) == stem + Collapse(rest)
  {
    if stem == "" {
      assert stem + rest == rest;
    } else {
      hide Collapse;
      assert stem + rest == [stem[0]] + (stem[1..] + rest);
      CollapseStem(stem[1..], rest);
      CollapseCons(stem[0], stem[1..] + rest);
      assert stem + Collapse(rest) == [stem[0]] + (stem[1..] + Collapse(rest));
    }
  }

  lemma CollapseLiteral(s: string)
    requires Literal(s)
    ensures Collapse(s) == s && Collapse(s + "**") == s + "*"
  {
    CollapseStem(s, "");
    CollapseStem(s, "**");
    assert s + "" == s && "**"[2..] == "";
  }

  lemma {:induction false} StarMatchesAll(p: string)
    ensures Match(p, "*")
  {
    if p == "" {
      assert Match(p, "*"[1..]);
    } else {
      StarMatchesAll(p[1..]);
    }
  }

  lemma {:induction false} MatchLiteral(p: string, s: string)
    requires Literal(s)
    ensures Match(p, s) <==> p == s
    ensures Match(p, s + "*") <==> s <= p
  {
    var g := s + "*";
    if s == "" {
      assert g == "*";
      StarMatchesAll(p);
    } else {
      assert g[0] == s[0] && g[1..] == s[1..] + "*";
      assert s == [s[0]] + s[1..];
      if p != "" {
        MatchLiteral(p[1..], s[1..]);
        assert p == [p[0]] + p[1..];
      }
    }
  }

  /** A literal glob matches itself only; one ending in `**` matches everything below its directory. */
  lemma GlobMeaning(p: string, s: string)
    requires Literal(s)
    ensures MatchGlob(p, s) <==> p == s
    ensures MatchGlob(p, s + "**") <==> s <= p
  {
    CollapseLiteral(s);
    MatchLiteral(p, s);
  }

  /** A star stands for any stretch of the path, slashes included. */
  lemma {:induction false} StarMeaning(p: string, g: string)
    ensures Match(p, "*" + g) <==> exists k :: 0 <= k <= |p| && Match(p[k..], g)
    decreases |p|
  {
    var h := "*" + g;
    assert h[0] == '*' && h[1..] == g && p[0..] == p;
    if p != "" {
      StarMeaning(p[1..], g);
      if k :| 0 <= k <= |p| && Match(p[k..], g) {
        if k > 0 { assert p[1..][k - 1..] == p[k..]; }
      }
      if k :| 0 <= k <= |p[1..]| && Match(p[1..][k..], g) { assert p[k + 1..] == p[1..][k..]; }
    }
  }

  /** Whatever follows it, a literal stem of a glob must be in the path. */
  lemma StemMatches(p: string, stem: string, rest: string)
    requires Literal(stem) && MatchGlob(p, stem + rest)
    ensures stem <= p
  {
    CollapseStem(stem, rest);
    MatchStem(p, stem, Collapse(rest));
  }

  lemma {:induction false} MatchStem(p: string, stem: string, rest: string)
    requires Literal(stem) && Match(p, stem + rest)
    ensures stem <= p
  {
    var g := stem + rest;
    if stem != "" {
      assert g[0] == stem[0] && g[1..] == stem[1..] + rest && stem == [stem[0]] + stem[1..];
      MatchStem(p[1..], stem[1..], rest);
    }
  }
}
