/** Lexical phase scopes: when a path or pattern counts as contained in a list of glob patterns, and what that
    promises about the paths themselves. */
module PhaseScope {

  // ---------- glob patterns ----------

  /** The index of the bracket that closes a class opened at index 0, if any: a `!` and then a `]` directly
      after the opening bracket belong to the class. */
  function ClassEnd(pat: string): (end: int)
    requires pat != ""
    ensures end == -1 || 2 <= end < |pat|
  {
    var j := if |pat| > 1 && pat[1] == '!' then 2 else 1;
    var k := if j < |pat| && pat[j] == ']' then j + 1 else j;
    var e := Find(pat, ']', k);
    if e < 2 then -1 else e
  }

  function Find(s: string, c: char, from: nat): (i: int)
    ensures i == -1 || (from <= i < |s| && s[i] == c)
    decreases |s| - from
  {
    if from >= |s| then -1 else if s[from] == c then from else Find(s, c, from + 1)
  }

  /** Members and ranges, read left to right; an empty range holds nothing. */
  predicate InRanges(members: string, c: char) {
    members != "" &&
    if |members| >= 3 && members[1] == '-' then members[0] <= c <= members[2] || InRanges(members[3..], c)
    else members[0] == c || InRanges(members[1..], c)
  }

  predicate InClass(members: string, c: char) {
    if members != "" && members[0] == '!' then !InRanges(members[1..], c) else InRanges(members, c)
  }

  /** Shell-style matching of a whole string; `*` also crosses slashes. */
  predicate Matches(pat: string, s: string)
    decreases |s|, |pat|
  {
    if pat == "" then s == ""
    else if pat[0] == '*' then Matches(pat[1..], s) || (s != "" && Matches(pat, s[1..]))
    else if pat[0] == '?' then s != "" && Matches(pat[1..], s[1..])
    else if pat[0] == '[' && ClassEnd(pat) != -1 then
      s != "" && InClass(pat[1..ClassEnd(pat)], s[0]) && Matches(pat[ClassEnd(pat) + 1..], s[1..])
    else s != "" && s[0] == pat[0] && Matches(pat[1..], s[1..])
  }

  predicate Literal(p: string) {
    forall i | 0 <= i < |p| :: p[i] != '*' && p[i] != '?' && p[i] != '['
  }

  predicate StartsWith(s: string, prefix: string) {
    |prefix| <= |s| && s[..|prefix|] == prefix
  }

  predicate EndsWith(s: string, suffix: string) {
    |suffix| <= |s| && s[|s| - |suffix|..] == suffix
  }

  // ---------- containment ----------

  function Components(path: string): seq<string> {
    var slash := Find(path, '/', 0);
    if slash == -1 then [path] else [path[..slash]] + Components(path[slash + 1..])
  }

  predicate Control(c: char) {
    c as int < 32 || c as int == 127
  }

  /** A bounded relative path without control characters, backslashes, or empty, `.` or `..` components. */
  predicate Valid(path: string) {
    && 1 <= |path| <= 1000
    && (forall i | 0 <= i < |path| :: path[i] != '\\' && !Control(path[i]))
    && (forall i | 0 <= i < |Components(path)| :: Components(path)[i] !in {"", ".", ".."})
  }

  predicate CoveredBy(candidate: string, scope: string) {
    Valid(scope)
    && (candidate == scope
        || (Literal(candidate) && Matches(scope, candidate))
        || (EndsWith(scope, "/**") && Literal(scope[..|scope| - 3]) && StartsWith(candidate, scope[..|scope| - 2])))
  }

  predicate Contained(candidate: string, scopes: seq<string>) {
    Valid(candidate) && exists i | 0 <= i < |scopes| :: CoveredBy(candidate, scopes[i])
  }

  // ---------- what matching means for literal text ----------

  /** Text without wildcards in front of a pattern must stand in front of every match. */
  lemma {:induction false} LiteralPrefix(prefix: string, rest: string, s: string)
    requires Literal(prefix)
    ensures Matches(prefix + rest, s) <==> StartsWith(s, prefix) && Matches(rest, s[|prefix|..])
  {
    if prefix == "" {
      assert prefix + rest == rest && s[0..] == s;
    } else {
      assert (prefix + rest)[0] == prefix[0] && (prefix + rest)[1..] == prefix[1..] + rest;
      if s != "" {
        LiteralPrefix(prefix[1..], rest, s[1..]);
        if s[0] == prefix[0] && StartsWith(s[1..], prefix[1..]) {
          assert s[..|prefix|] == [s[0]] + s[1..][..|prefix| - 1];
          assert s[|prefix|..] == s[1..][|prefix| - 1..];
        }
        if StartsWith(s, prefix) {
          assert s[1..][..|prefix| - 1] == s[..|prefix|][1..];
          assert s[|prefix|..] == s[1..][|prefix| - 1..];
        }
      }
    }
  }

  lemma LiteralMatchesItself(p: string, s: string)
    requires Literal(p)
    ensures Matches(p, s) <==> s == p
  {
    LiteralPrefix(p, "", s);
    assert p + "" == p;
    if s == p { assert s[..|p|] == p && s[|p|..] == ""; }
    if StartsWith(s, p) && s[|p|..] == "" { assert s == s[..|p|] + s[|p|..]; }
  }

  lemma {:induction false} StarMatchesAll(s: string)
    ensures Matches("*", s)
    decreases |s|
  {
    if s == "" {
      assert "*"[1..] == "";
      assert Matches("*"[1..], s);
    } else {
      StarMatchesAll(s[1..]);
    }
  }

  lemma TwoStarsMatchAll(s: string)
    ensures Matches("**", s)
  {
    StarMatchesAll(s);
    assert "**"[1..] == "*";
  }

  /** A scope that ends in slash, star, star matches exactly what starts with the text before the stars. */
  lemma TreeScope(scope: string, s: string)
    requires EndsWith(scope, "/**") && Literal(scope[..|scope| - 3])
    ensures Matches(scope, s) <==> StartsWith(s, scope[..|scope| - 2])
    ensures Literal(scope[..|scope| - 2])
  {
    var prefix := scope[..|scope| - 2];
    assert scope[|scope| - 3..] == "/**";
    assert scope[|scope| - 3] == '/' && scope[|scope| - 2..] == "**";
    assert Literal(prefix);
    assert scope == prefix + "**";
    LiteralPrefix(prefix, "**", s);
    if StartsWith(s, prefix) { TwoStarsMatchAll(s[|prefix|..]); }
  }

  // ---------- the promises ----------

  lemma CoverSound(candidate: string, scope: string, path: string)
    requires CoveredBy(candidate, scope) && Matches(candidate, path)
    ensures Matches(scope, path)
  {
    if candidate == scope {
    } else if Literal(candidate) && Matches(scope, candidate) {
      LiteralMatchesItself(candidate, path);
    } else {
      var prefix := scope[..|scope| - 2];
      TreeScope(scope, path);
      assert candidate == prefix + candidate[|prefix|..];
      LiteralPrefix(prefix, candidate[|prefix|..], path);
    }
  }

  /** Soundness: whatever a contained pattern matches is matched by some scope; in particular every literal path
      it matches is itself contained. */
  lemma ContainedSound(candidate: string, scopes: seq<string>, path: string)
    requires Contained(candidate, scopes) && Matches(candidate, path)
    ensures exists i | 0 <= i < |scopes| :: Valid(scopes[i]) && Matches(scopes[i], path)
    ensures Valid(path) && Literal(path) ==> Contained(path, scopes)
  {
    var i :| 0 <= i < |scopes| && CoveredBy(candidate, scopes[i]);
    CoverSound(candidate, scopes[i], path);
    if Valid(path) && Literal(path) { assert CoveredBy(path, scopes[i]); }
  }

  /** For paths without wildcards containment is exact: some valid scope matches. */
  lemma LiteralExact(path: string, scopes: seq<string>)
    requires Literal(path)
    ensures Contained(path, scopes) <==> Valid(path) && exists i | 0 <= i < |scopes| :: Valid(scopes[i]) && Matches(scopes[i], path)
  {
    if Contained(path, scopes) {
      LiteralMatchesItself(path, path);
      ContainedSound(path, scopes, path);
    } else if Valid(path) {
      forall i | 0 <= i < |scopes| && Valid(scopes[i]) ensures !Matches(scopes[i], path) {
        assert !CoveredBy(path, scopes[i]);
      }
    }
  }

  lemma CoverTransitive(c: string, s: string, t: string)
    requires CoveredBy(c, s) && CoveredBy(s, t)
    ensures CoveredBy(c, t)
  {
    if c == s || s == t {
    } else if Literal(c) && Matches(s, c) {
      CoverSound(s, t, c);
    } else {
      // c starts with the text before the stars of s, and s is covered by t.
      var p := s[..|s| - 2];
      assert s[|s| - 1] == "/**"[2];
      assert !Literal(s);
      var q := t[..|t| - 2];
      TreeScope(t, s);
      assert StartsWith(s, q);
      assert s[|s| - 3..][1] == '*' && s[|p|] == s[|s| - 3..][1];
      assert forall i | 0 <= i < |q| :: s[i] == s[..|q|][i] && s[i] != '*';
      assert c[..|q|] == c[..|p|][..|q|];
      assert s[..|q|] == s[..|p|][..|q|];
    }
  }

  /** Containment composes: what is contained in scopes that are themselves contained elsewhere is contained there. */
  lemma ContainedTransitive(candidate: string, middle: seq<string>, outer: seq<string>)
    requires Contained(candidate, middle)
    requires forall i | 0 <= i < |middle| && Valid(middle[i]) :: Contained(middle[i], outer)
    ensures Contained(candidate, outer)
  {
    var i :| 0 <= i < |middle| && CoveredBy(candidate, middle[i]);
    var j :| 0 <= j < |outer| && CoveredBy(middle[i], outer[j]);
    CoverTransitive(candidate, middle[i], outer[j]);
  }

  // ---------- patterns against trees ----------

  /** A scope of the form directory, slash, star, star. */
  predicate IsTree(scope: string) {
    EndsWith(scope, "/**") && Literal(scope[..|scope| - 3])
  }

  predicate Wild(c: char) {
    c == '*' || c == '?'
  }

  /** One of the paths a pattern without brackets matches: every wildcard stands for the same letter. */
  function Fill(pattern: string, letter: char): string {
    seq(|pattern|, i requires 0 <= i < |pattern| => if Wild(pattern[i]) then letter else pattern[i])
  }

  const LETTERS := 50_000

  /** Letters that mean nothing in a path or a pattern. */
  function Letter(k: nat): char
    requires k < LETTERS
  {
    (0x100 + k) as char
  }

  predicate NoBracket(pattern: string) {
    forall i | 0 <= i < |pattern| :: pattern[i] != '['
  }

  lemma {:induction false} FillMatches(pattern: string, letter: char)
    requires NoBracket(pattern)
    ensures Matches(pattern, Fill(pattern, letter))
    decreases |pattern|
  {
    if pattern != "" {
      FillMatches(pattern[1..], letter);
      assert Fill(pattern, letter)[1..] == Fill(pattern[1..], letter);
      if pattern[0] == '*' {
        assert Matches(pattern, Fill(pattern[1..], letter));
      }
    }
  }

  lemma {:induction false} FillFinds(pattern: string, letter: char, from: nat)
    requires letter != '/'
    ensures Find(Fill(pattern, letter), '/', from) == Find(pattern, '/', from)
    decreases |pattern| - from
  {
    if from < |pattern| && pattern[from] != '/' {
      FillFinds(pattern, letter, from + 1);
    }
  }

  function FillEach(names: seq<string>, letter: char): seq<string> {
    if names == [] then [] else [Fill(names[0], letter)] + FillEach(names[1..], letter)
  }

  lemma {:induction false} FillComponents(pattern: string, letter: char)
    requires letter != '/'
    ensures Components(Fill(pattern, letter)) == FillEach(Components(pattern), letter)
  {
    FillFinds(pattern, letter, 0);
    var slash := Find(pattern, '/', 0);
    if slash == -1 {
      assert [pattern][1..] == [];
    } else {
      var rest := pattern[slash + 1..];
      FillComponents(rest, letter);
      FillSlices(pattern, letter, slash);
      assert ([pattern[..slash]] + Components(rest))[1..] == Components(rest);
    }
  }

  lemma {:induction false} FilledNames(names: seq<string>, letter: char)
    requires letter != '.' && forall i | 0 <= i < |names| :: names[i] !in {"", ".", ".."}
    ensures forall i | 0 <= i < |FillEach(names, letter)| :: FillEach(names, letter)[i] !in {"", ".", ".."}
  {
    if names != [] {
      FillKeepsName(names[0], letter);
      FilledNames(names[1..], letter);
    }
  }

  lemma FillSlices(pattern: string, letter: char, slash: nat)
    requires slash < |pattern|
    ensures Fill(pattern, letter)[..slash] == Fill(pattern[..slash], letter)
    ensures Fill(pattern, letter)[slash + 1..] == Fill(pattern[slash + 1..], letter)
  {
  }

  /** A component stays what it was, as far as validity goes. */
  lemma FillKeepsName(name: string, letter: char)
    requires name !in {"", ".", ".."} && letter != '.'
    ensures Fill(name, letter) !in {"", ".", ".."}
  {
    var f := Fill(name, letter);
    if |name| == 1 {
      assert name == [name[0]];
      assert f[0] != '.';
    } else if |name| == 2 {
      assert name == [name[0], name[1]];
      assert f[0] != '.' || f[1] != '.';
    }
  }

  lemma FillIsValid(pattern: string, k: nat)
    requires Valid(pattern) && NoBracket(pattern) && k < LETTERS
    ensures Valid(Fill(pattern, Letter(k))) && Literal(Fill(pattern, Letter(k)))
  {
    FillComponents(pattern, Letter(k));
    FilledNames(Components(pattern), Letter(k));
  }

  /** Text in front of two different fillings stands in front of the pattern itself. */
  lemma FilledTwice(pattern: string, prefix: string, y: char, z: char)
    requires StartsWith(Fill(pattern, y), prefix) && StartsWith(Fill(pattern, z), prefix) && y != z
    ensures StartsWith(pattern, prefix)
  {
    forall i | 0 <= i < |prefix| ensures pattern[i] == prefix[i] {
      assert Fill(pattern, y)[..|prefix|][i] == prefix[i] && Fill(pattern, z)[..|prefix|][i] == prefix[i];
    }
    assert pattern[..|prefix|] == prefix;
  }

  predicate Catches(scope: string, pattern: string, k: nat)
    requires k < LETTERS
  {
    Valid(scope) && Matches(scope, Fill(pattern, Letter(k)))
  }

  /** A tree that does not contain the pattern catches at most one of its fillings. */
  lemma CatchesOnce(scope: string, pattern: string, k: nat, l: nat)
    requires IsTree(scope) && !CoveredBy(pattern, scope) && k < LETTERS && l < LETTERS && k != l
    ensures !(Catches(scope, pattern, k) && Catches(scope, pattern, l))
  {
    TreeScope(scope, Fill(pattern, Letter(k)));
    TreeScope(scope, Fill(pattern, Letter(l)));
    if Catches(scope, pattern, k) && StartsWith(Fill(pattern, Letter(l)), scope[..|scope| - 2]) {
      assert Letter(k) != Letter(l) by { assert Letter(k) as int == 0x100 + k && Letter(l) as int == 0x100 + l; }
      FilledTwice(pattern, scope[..|scope| - 2], Letter(k), Letter(l));
    }
  }

  /** Fewer trees than letters leave some filling uncaught. */
  lemma {:induction false} FreeLetter(pattern: string, scopes: seq<string>, ks: set<nat>) returns (k: nat)
    requires forall i | 0 <= i < |scopes| :: IsTree(scopes[i]) && !CoveredBy(pattern, scopes[i])
    requires |ks| > |scopes| && forall l | l in ks :: l < LETTERS
    ensures k in ks && forall i | 0 <= i < |scopes| :: !Catches(scopes[i], pattern, k)
  {
    if scopes == [] {
      k :| k in ks;
    } else {
      var front, last := scopes[..|scopes| - 1], scopes[|scopes| - 1];
      if c :| c in ks && Catches(last, pattern, c) {
        k := FreeLetter(pattern, front, ks - {c});
        CatchesOnce(last, pattern, c, k);
      } else {
        k := FreeLetter(pattern, front, ks);
      }
      assert forall i | 0 <= i < |front| :: front[i] == scopes[i];
    }
  }

  lemma {:induction false} Numbers(n: nat) returns (ks: set<nat>)
    ensures |ks| == n && forall k | k in ks :: k < n
  {
    if n == 0 {
      ks := {};
    } else {
      var front := Numbers(n - 1);
      ks := front + {n - 1};
    }
  }

  /** Against trees containment is exact for patterns without brackets too: a valid pattern is contained if and only if
      every valid plain path it matches is in scope, as long as there are fewer scopes than letters to tell them apart. */
  lemma TreesExactly(candidate: string, scopes: seq<string>)
    requires Valid(candidate) && NoBracket(candidate) && |scopes| < LETTERS
    requires forall i | 0 <= i < |scopes| :: IsTree(scopes[i])
    ensures Contained(candidate, scopes)
            <==> forall path | Valid(path) && Literal(path) && Matches(candidate, path) ::
                   exists i | 0 <= i < |scopes| :: Valid(scopes[i]) && Matches(scopes[i], path)
  {
    if Contained(candidate, scopes) {
      forall path | Valid(path) && Literal(path) && Matches(candidate, path)
        ensures exists i | 0 <= i < |scopes| :: Valid(scopes[i]) && Matches(scopes[i], path)
      {
        ContainedSound(candidate, scopes, path);
      }
    } else {
      var ks := Numbers(|scopes| + 1);
      assert forall i | 0 <= i < |scopes| :: !CoveredBy(candidate, scopes[i]);
      var k := FreeLetter(candidate, scopes, ks);
      var path := Fill(candidate, Letter(k));
      FillMatches(candidate, Letter(k));
      FillIsValid(candidate, k);
      assert forall i | 0 <= i < |scopes| && Valid(scopes[i]) :: Catches(scopes[i], candidate, k) || !Matches(scopes[i], path);
    }
  }

  /** For patterns the check is conservative: it may refuse a pattern all of whose matches are in scope. */
  lemma ConservativeForPatterns(path: string)
    requires Matches("a/b*", path)
    ensures Matches("a/*", path)
    ensures !Contained("a/b*", ["a/*"])
  {
    LiteralPrefix("a/b", "*", path);
    assert "a/b" + "*" == "a/b*";
    assert "a/" + "*" == "a/*";
    assert path[..3] == "a/b";
    assert path[..2] == path[..3][..2];
    LiteralPrefix("a/", "*", path);
    StarMatchesAll(path[2..]);
    assert "a/b*"[3] == '*';
    assert !Literal("a/b*");
    assert ["a/*"][0] == "a/*";
    assert "a/*"[|"a/*"| - 3..] == "a/*" && "a/*"[0] != "/**"[0];
  }
}
