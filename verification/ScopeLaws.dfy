/** What patterns and paths mean, without the recursion that reads them: a pattern matches what can be cut into one piece
    for each of its parts, a class holds its members and ranges, and a path is judged by what stands between its slashes. */
module ScopeLaws {
  import opened PhaseScope

  // ---------- patterns ----------

  datatype Part = Any | One | Class(members: string) | Exactly(c: char)

  function PartsOf(pat: string): seq<Part> {
    if pat == "" then []
    else if pat[0] == '*' then [Any] + PartsOf(pat[1..])
    else if pat[0] == '?' then [One] + PartsOf(pat[1..])
    else if pat[0] == '[' && ClassEnd(pat) != -1 then [Class(pat[1..ClassEnd(pat)])] + PartsOf(pat[ClassEnd(pat) + 1..])
    else [Exactly(pat[0])] + PartsOf(pat[1..])
  }

  predicate Fits(part: Part, piece: string) {
    match part
    case Any => true
    case One => |piece| == 1
    case Class(members) => |piece| == 1 && InClass(members, piece[0])
    case Exactly(c) => piece == [c]
  }

  function Concat(pieces: seq<string>): string {
    if pieces == [] then "" else pieces[0] + Concat(pieces[1..])
  }

  /** The text can be cut into one fitting piece for each part. */
  predicate CutsInto(parts: seq<Part>, pieces: seq<string>, s: string) {
    |pieces| == |parts| && Concat(pieces) == s && forall i | 0 <= i < |parts| :: Fits(parts[i], pieces[i])
  }

  ghost predicate Cuttable(parts: seq<Part>, s: string) {
    exists pieces :: CutsInto(parts, pieces, s)
  }

  lemma CutFront(part: Part, parts: seq<Part>, piece: string, pieces: seq<string>, s: string)
    requires Fits(part, piece) && CutsInto(parts, pieces, s)
    ensures CutsInto([part] + parts, [piece] + pieces, piece + s)
  {
    assert ([piece] + pieces)[1..] == pieces;
  }

  lemma CutRest(part: Part, parts: seq<Part>, pieces: seq<string>, s: string)
    requires CutsInto([part] + parts, pieces, s)
    ensures Fits(part, pieces[0]) && |pieces[0]| <= |s| && s[..|pieces[0]|] == pieces[0] && CutsInto(parts, pieces[1..], s[|pieces[0]|..])
  {
    assert Fits(([part] + parts)[0], pieces[0]);
    forall i | 0 <= i < |parts| ensures Fits(parts[i], pieces[1..][i]) {
      assert ([part] + parts)[i + 1] == parts[i];
    }
  }

  /** A pattern that matches cuts the text. */
  lemma {:induction false} MatchCuts(pat: string, s: string) returns (pieces: seq<string>)
    requires Matches(pat, s)
    ensures CutsInto(PartsOf(pat), pieces, s)
    decreases |s|, |pat|
  {
    if pat == "" {
      pieces := [];
    } else if pat[0] == '*' {
      if Matches(pat[1..], s) {
        var rest := MatchCuts(pat[1..], s);
        CutFront(Any, PartsOf(pat[1..]), "", rest, s);
        assert "" + s == s;
        pieces := [""] + rest;
      } else {
        var rest := MatchCuts(pat, s[1..]);
        CutRest(Any, PartsOf(pat[1..]), rest, s[1..]);
        CutFront(Any, PartsOf(pat[1..]), [s[0]] + rest[0], rest[1..], s[1..][|rest[0]|..]);
        assert [s[0]] + rest[0] + s[1..][|rest[0]|..] == s;
        pieces := [[s[0]] + rest[0]] + rest[1..];
      }
    } else {
      var part, width := PartsOf(pat)[0], if pat[0] == '[' && ClassEnd(pat) != -1 then ClassEnd(pat) + 1 else 1;
      assert PartsOf(pat) == [part] + PartsOf(pat[width..]);
      var rest := MatchCuts(pat[width..], s[1..]);
      CutFront(part, PartsOf(pat[width..]), [s[0]], rest, s[1..]);
      assert [s[0]] + s[1..] == s;
      pieces := [[s[0]]] + rest;
    }
  }

  /** And text that can be cut is matched. */
  lemma {:induction false} CutMatches(pat: string, s: string, pieces: seq<string>)
    requires CutsInto(PartsOf(pat), pieces, s)
    ensures Matches(pat, s)
    decreases |pat|, |s|
  {
    if pat != "" {
      var part, width := PartsOf(pat)[0], if pat[0] == '[' && ClassEnd(pat) != -1 then ClassEnd(pat) + 1 else 1;
      assert PartsOf(pat) == [part] + PartsOf(pat[width..]);
      CutRest(part, PartsOf(pat[width..]), pieces, s);
      CutMatches(pat[width..], s[|pieces[0]|..], pieces[1..]);
      if pat[0] == '*' { StarSkips(pat, s, |pieces[0]|); }
    }
  }

  lemma {:induction false} StarSkips(pat: string, s: string, n: nat)
    requires pat != "" && pat[0] == '*' && n <= |s| && Matches(pat[1..], s[n..])
    ensures Matches(pat, s)
    decreases n
  {
    if n > 0 {
      assert s[1..][n - 1..] == s[n..];
      StarSkips(pat, s[1..], n - 1);
    } else {
      assert s[0..] == s;
    }
  }

  /** A pattern matches a text if and only if the text can be cut into pieces, one for each part of the pattern: anything
      for a star, one character for a question mark, one of its characters for a class, and itself for any other. */
  lemma MatchesExactly(pat: string, s: string)
    ensures Matches(pat, s) <==> Cuttable(PartsOf(pat), s)
  {
    if Matches(pat, s) { var pieces := MatchCuts(pat, s); }
    if Cuttable(PartsOf(pat), s) {
      var pieces :| CutsInto(PartsOf(pat), pieces, s);
      CutMatches(pat, s, pieces);
    }
  }

  lemma {:induction false} FindExactly(s: string, c: char, from: nat)
    ensures var i := Find(s, c, from);
            if i == -1 then forall j | from <= j < |s| :: s[j] != c
            else from <= i < |s| && s[i] == c && forall j | from <= j < i :: s[j] != c
    decreases |s| - from
  {
    if from < |s| && s[from] != c { FindExactly(s, c, from + 1); }
  }

  /** A bracket opens a class that ends at the first closing bracket which is neither its first member nor the first after
      a leading exclamation mark; without one it stands for itself. */
  lemma ClassEndExactly(pat: string)
    requires pat != "" && pat[0] == '['
    ensures var first := if |pat| > 1 && pat[1] == '!' then 2 else 1;
            var e := ClassEnd(pat);
            if e == -1 then forall j | first < j < |pat| :: pat[j] != ']'
            else first < e < |pat| && pat[e] == ']' && forall j | first < j < e :: pat[j] != ']'
  {
    var first := if |pat| > 1 && pat[1] == '!' then 2 else 1;
    FindExactly(pat, ']', if first < |pat| && pat[first] == ']' then first + 1 else first);
  }

  predicate NoDash(members: string) {
    forall i | 0 <= i < |members| :: members[i] != '-'
  }

  /** Without a dash, or with one at the very end, a class holds its members; a leading exclamation mark turns it round. */
  lemma {:induction false} MembersExactly(members: string, c: char)
    requires NoDash(members)
    ensures InRanges(members, c) <==> c in members
    ensures InRanges(members + "-", c) <==> c in members + "-"
    ensures InClass("!" + members, c) <==> c !in members
    ensures members != "" && members[0] != '!' ==> (InClass(members, c) <==> c in members)
  {
    assert ("!" + members)[1..] == members;
    if members != "" {
      MembersExactly(members[1..], c);
      assert members == [members[0]] + members[1..];
      assert (members + "-")[1..] == members[1..] + "-";
      assert (members + "-")[0] == members[0];
    } else {
      assert members + "-" == "-" && "-"[1..] == "";
    }
  }

  /** A dash between two members holds what lies between them, both included, and nothing if they are the wrong way round. */
  lemma {:induction false} RangeExactly(before: string, from: char, to: char, after: string, c: char)
    requires NoDash(before) && NoDash(after) && from != '-'
    ensures InRanges(before + [from, '-', to] + after, c) <==> c in before || from <= c <= to || c in after
  {
    var all := before + [from, '-', to] + after;
    if before == "" {
      assert all == [from, '-', to] + after && all[3..] == after;
      MembersExactly(after, c);
    } else {
      RangeExactly(before[1..], from, to, after, c);
      assert all[1..] == before[1..] + [from, '-', to] + after;
      assert all[0] == before[0] && all[1] != '-';
      assert before == [before[0]] + before[1..];
    }
  }

  // ---------- paths ----------

  /** This text stands in the path at `i`, between two slashes or an end of the path, and has no slash of its own. */
  predicate NameAt(path: string, i: nat, name: string) {
    && i + |name| <= |path| && path[i..i + |name|] == name
    && (i == 0 || path[i - 1] == '/') && (i + |name| == |path| || path[i + |name|] == '/')
    && forall k | 0 <= k < |name| :: name[k] != '/'
  }

  ghost predicate HasName(path: string, name: string) {
    exists i: nat :: NameAt(path, i, name)
  }

  lemma {:induction false} ComponentsExactly(path: string, name: string)
    ensures name in Components(path) <==> HasName(path, name)
  {
    FindExactly(path, '/', 0);
    var slash := Find(path, '/', 0);
    if slash == -1 {
      WholeName(path, name);
    } else {
      ComponentsExactly(path[slash + 1..], name);
      FirstName(path, slash, name);
    }
  }

  lemma WholeName(path: string, name: string)
    requires forall j | 0 <= j < |path| :: path[j] != '/'
    ensures HasName(path, name) <==> name == path
  {
    if name == path { assert NameAt(path, 0, name); }
    if HasName(path, name) {
      var i: nat :| NameAt(path, i, name);
      assert i == 0 && |name| == |path|;
    }
  }

  lemma NameAfter(path: string, slash: nat, i: nat, name: string)
    requires slash < |path| && path[slash] == '/'
    ensures NameAt(path[slash + 1..], i, name) <==> NameAt(path, i + slash + 1, name)
  {
    var rest := path[slash + 1..];
    if i + |name| <= |rest| {
      assert path[i + slash + 1..i + slash + 1 + |name|] == rest[i..i + |name|];
      assert i > 0 ==> rest[i - 1] == path[i + slash];
      assert i + |name| < |rest| ==> rest[i + |name|] == path[i + slash + 1 + |name|];
    }
  }

  lemma FirstName(path: string, slash: nat, name: string)
    requires slash < |path| && path[slash] == '/' && forall j | 0 <= j < slash :: path[j] != '/'
    ensures HasName(path, name) <==> name == path[..slash] || HasName(path[slash + 1..], name)
  {
    if HasName(path, name) {
      var i: nat :| NameAt(path, i, name);
      if i > slash {
        NameAfter(path, slash, i - slash - 1, name);
      } else {
        assert i == 0;
        assert forall k | 0 <= k < |name| :: path[k] == name[k];
        assert |name| == slash;
      }
    }
    if name == path[..slash] { assert NameAt(path, 0, name); }
    if HasName(path[slash + 1..], name) {
      var i: nat :| NameAt(path[slash + 1..], i, name);
      NameAfter(path, slash, i, name);
    }
  }

  /** A path is valid if and only if it has one to a thousand characters, no control character and no backslash, and nothing
      empty, no dot and no two dots between slashes. */
  lemma ValidExactly(path: string)
    ensures Valid(path)
            <==> && 1 <= |path| <= 1000
                 && (forall i | 0 <= i < |path| :: path[i] != '\\' && path[i] >= ' ' && path[i] != '\U{7F}')
                 && !HasName(path, "") && !HasName(path, ".") && !HasName(path, "..")
  {
    ComponentsExactly(path, "");
    ComponentsExactly(path, ".");
    ComponentsExactly(path, "..");
    assert forall i | 0 <= i < |Components(path)| :: Components(path)[i] in Components(path);
  }

  predicate Plain(s: string) {
    forall c | c in s :: c != '*' && c != '?' && c != '['
  }

  lemma PlainReads(s: string)
    ensures Literal(s) <==> Plain(s)
  {
    assert forall i | 0 <= i < |s| :: s[i] in s;
  }

  /** The scope is a plain directory followed by slash, star, star, and the candidate begins with that directory. */
  ghost predicate Below(candidate: string, scope: string) {
    exists dir: string :: scope == dir + "/**" && Plain(dir) && |dir| < |candidate| && candidate[..|dir|] == dir && candidate[|dir|] == '/'
  }

  lemma BelowReads(candidate: string, scope: string)
    ensures (EndsWith(scope, "/**") && Literal(scope[..|scope| - 3]) && StartsWith(candidate, scope[..|scope| - 2])) <==> Below(candidate, scope)
  {
    if |scope| >= 3 {
      var dir := scope[..|scope| - 3];
      if EndsWith(scope, "/**") {
        assert scope == dir + "/**";
        assert scope[..|scope| - 2] == dir + "/";
        if |dir| < |candidate| { assert candidate[..|dir| + 1] == candidate[..|dir|] + [candidate[|dir|]]; }
        PlainReads(dir);
        assert StartsWith(candidate, dir + "/") ==> candidate[..|dir|] == (candidate[..|dir| + 1])[..|dir|];
      }
      forall d: string | scope == d + "/**" ensures d == dir && EndsWith(scope, "/**") {
        assert scope[|scope| - 3..] == "/**";
      }
    }
  }

  /** A valid candidate is contained in a valid scope that it is, or that it matches as plain text, or that it lies below. */
  lemma CoversExactly(candidate: string, scope: string)
    ensures CoveredBy(candidate, scope)
            <==> Valid(scope) && (candidate == scope || (Plain(candidate) && Matches(scope, candidate)) || Below(candidate, scope))
  {
    BelowReads(candidate, scope);
    PlainReads(candidate);
  }

  lemma ContainedExactly(candidate: string, scopes: seq<string>)
    ensures Contained(candidate, scopes)
            <==> Valid(candidate)
                 && exists scope | scope in scopes ::
                      Valid(scope) && (candidate == scope || (Plain(candidate) && Matches(scope, candidate)) || Below(candidate, scope))
  {
    forall scope | scope in scopes { CoversExactly(candidate, scope); }
    if Contained(candidate, scopes) {
      var i :| 0 <= i < |scopes| && CoveredBy(candidate, scopes[i]);
      assert scopes[i] in scopes;
    }
  }
}
