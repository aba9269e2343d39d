/**
  The path-pattern language of the webhook: seven regular expressions, given a standard
  semantics, against one recogniser that looks at the parts between slashes.
 */
module PathPatterns {
  import opened Text

  /** [a-zA-Z0-9._-], [a-zA-Z0-9], [a-z0-9-] and [a-z0-9]. */
  datatype Class = NameChar | AlnumChar | LowerDashChar | LowerChar

  predicate Lowercase(c: char) {
    'a' <= c <= 'z' || '0' <= c <= '9'
  }

  predicate InClass(k: Class, c: char) {
    match k
    case AlnumChar => Lowercase(c) || 'A' <= c <= 'Z'
    case NameChar => Lowercase(c) || 'A' <= c <= 'Z' || c == '.' || c == '_' || c == '-'
    case LowerDashChar => Lowercase(c) || c == '-'
    case LowerChar => Lowercase(c)
  }

  datatype Re = Eps | Lit(c: char) | Any(k: Class) | Cat(l: Re, r: Re) | Alt(l: Re, r: Re) | Star(r: Re)

  /** The whole string matches, as with ^ and $ around the expression. */
  predicate Matches(re: Re, s: string)
    decreases re, |s|
  {
    match re
    case Eps => s == ""
    case Lit(c) => s == [c]
    case Any(k) => |s| == 1 && InClass(k, s[0])
    case Alt(l, r) => Matches(l, s) || Matches(r, s)
    case Cat(l, r) => exists i :: 0 <= i <= |s| && Matches(l, s[..i]) && Matches(r, s[i..])
    case Star(r) => s == "" || exists i :: 0 < i <= |s| && Matches(r, s[..i]) && Matches(re, s[i..])
  }

  function Str(t: string): Re {
    if t == "" then Eps else Cat(Lit(t[0]), Str(t[1..]))
  }

  function Plus(k: Class): Re {
    Cat(Any(k), Star(Any(k)))
  }

  // ---- The expressions of GitDataSourceSpec.validate ----

  const NAME: Re := Plus(NameChar)
  const EXT: Re := Plus(AlnumChar)

  /** name(/name)* */
  const NAMES: Re := Cat(NAME, Star(Cat(Lit('/'), NAME)))

  const PAT_SIMPLE: Re := NAMES
  const GLOBSTAR_NAME: Re := Cat(Str("**/"), NAME)
  const NAME_STAR: Re := Cat(NAME, Str("/*"))
  const NAME_STAR_EXT: Re := Cat(NAME, Cat(Str("/*."), EXT))
  const STAR_EXT: Re := Cat(Str("*."), EXT)
  const PAT_STAR: Re := Alt(Lit('*'), Alt(GLOBSTAR_NAME, Alt(NAME_STAR, Alt(NAME_STAR_EXT, STAR_EXT))))
  const PAT_GLOBSTAR: Re := Cat(Str("**/"), NAMES)
  const PAT_GLOBSTAR_EXT: Re := Cat(Str("**/*."), EXT)
  const PAT_TRAILING_GLOBSTAR: Re := Cat(NAMES, Str("/**"))
  const OPTIONAL_NAME: Re := Alt(Cat(NAME, Str("/")), Eps)
  const PAT_MIDDLE_GLOBSTAR: Re := Cat(OPTIONAL_NAME, Cat(Str("**/"), NAMES))
  const PAT_PREFIX_GLOBSTAR_EXT: Re := Cat(NAMES, Cat(Str("/**/*."), EXT))

  /** isValidGitignorePattern */
  predicate IsValidGitignorePattern(p: string) {
    if p == "" then false
    else if Matches(PAT_SIMPLE, p) then true
    else if Matches(PAT_STAR, p) then true
    else if Matches(PAT_GLOBSTAR, p) then true
    else if Matches(PAT_GLOBSTAR_EXT, p) then true
    else if Matches(PAT_TRAILING_GLOBSTAR, p) then true
    else if Matches(PAT_MIDDLE_GLOBSTAR, p) then true
    else if Matches(PAT_PREFIX_GLOBSTAR_EXT, p) then true
    else false
  }

  // ---- The recogniser by parts ----

  predicate AllIn(k: Class, s: string) {
    forall i :: 0 <= i < |s| ==> InClass(k, s[i])
  }

  predicate IsName(part: string) {
    part != "" && AllIn(NameChar, part)
  }

  /** "*.ext" */
  predicate IsStarExt(part: string) {
    |part| > 2 && part[..2] == "*." && AllIn(AlnumChar, part[2..])
  }

  predicate AllNames(parts: seq<string>) {
    parts != [] && forall i :: 0 <= i < |parts| ==> IsName(parts[i])
  }

  /** The accepted shapes of the parts of a pattern. */
  predicate Shape(parts: seq<string>) {
    var n := |parts|;
    || AllNames(parts)
    || (n == 1 && (parts[0] == "*" || IsStarExt(parts[0])))
    || (n == 2 && IsName(parts[0]) && (parts[1] == "*" || IsStarExt(parts[1])))
    || (n == 2 && parts[0] == "**" && IsStarExt(parts[1]))
    || (n >= 2 && parts[0] == "**" && AllNames(parts[1..]))
    || (n >= 2 && parts[n - 1] == "**" && AllNames(parts[..n - 1]))
    || (n >= 3 && IsName(parts[0]) && parts[1] == "**" && AllNames(parts[2..]))
    || (n >= 3 && AllNames(parts[..n - 2]) && parts[n - 2] == "**" && IsStarExt(parts[n - 1]))
  }

  // ---- Matching the building blocks ----

  lemma {:induction false} MatchesStr(t: string, s: string)
    ensures Matches(Str(t), s) <==> s == t
  {
    if t != "" {
      if s != "" {
        MatchesStr(t[1..], s[1..]);
        assert s[..1] == [s[0]];
        assert t == [t[0]] + t[1..] && s == [s[0]] + s[1..];
      }
      if i :| 0 <= i <= |s| && Matches(Lit(t[0]), s[..i]) && Matches(Str(t[1..]), s[i..]) {
        assert i == 1;
      }
      if s == t {
        assert Matches(Lit(t[0]), s[..1]) && Matches(Str(t[1..]), s[1..]);
      }
    }
  }

  lemma {:induction false} MatchesStar(k: Class, s: string)
    ensures Matches(Star(Any(k)), s) <==> AllIn(k, s)
  {
    if s != "" {
      MatchesStar(k, s[1..]);
      assert s == [s[0]] + s[1..];
      if i :| 0 < i <= |s| && Matches(Any(k), s[..i]) && Matches(Star(Any(k)), s[i..]) {
        assert i == 1 && s[..1][0] == s[0];
        assert forall j :: 1 <= j < |s| ==> s[j] == s[1..][j - 1];
      }
      if AllIn(k, s) {
        assert Matches(Any(k), s[..1]);
      }
    }
  }

  lemma MatchesPlus(k: Class, s: string)
    ensures Matches(Plus(k), s) <==> s != "" && AllIn(k, s)
  {
    if s != "" {
      MatchesStar(k, s[1..]);
      assert s == [s[0]] + s[1..];
    }
    if i :| 0 <= i <= |s| && Matches(Any(k), s[..i]) && Matches(Star(Any(k)), s[i..]) {
      assert i == 1 && s[..1][0] == s[0];
      assert forall j :: 1 <= j < |s| ==> s[j] == s[1..][j - 1];
    }
    if s != "" && AllIn(k, s) {
      assert Matches(Any(k), s[..1]) && Matches(Star(Any(k)), s[1..]);
    }
  }

  /** A literal in front fixes the split point. */
  lemma MatchesAfterStr(t: string, re: Re, s: string)
    ensures Matches(Cat(Str(t), re), s) <==> t <= s && Matches(re, s[|t|..])
  {
    if i :| 0 <= i <= |s| && Matches(Str(t), s[..i]) && Matches(re, s[i..]) {
      MatchesStr(t, s[..i]);
    }
    if t <= s {
      MatchesStr(t, s[..|t|]);
    }
  }

  /** And so does a literal at the end. */
  lemma MatchesBeforeStr(re: Re, t: string, s: string)
    ensures Matches(Cat(re, Str(t)), s) <==> |t| <= |s| && s[|s| - |t|..] == t && Matches(re, s[..|s| - |t|])
  {
    if Matches(Cat(re, Str(t)), s) {
      SplitBeforeStr(re, t, s);
    }
    var k := |s| - |t|;
    if 0 <= k && s[k..] == t && Matches(re, s[..k]) {
      MatchesStr(t, s[k..]);
      assert Matches(re, s[..k]) && Matches(Str(t), s[k..]);
    }
  }

  lemma SplitBeforeStr(re: Re, t: string, s: string)
    requires Matches(Cat(re, Str(t)), s)
    ensures |t| <= |s| && s[|s| - |t|..] == t && Matches(re, s[..|s| - |t|])
  {
    var i :| 0 <= i <= |s| && Matches(re, s[..i]) && Matches(Str(t), s[i..]);
    MatchesStr(t, s[i..]);
    assert i == |s| - |t|;
  }

  lemma NameHasNoSlash(part: string)
    requires IsName(part)
    ensures Without(part, '/')
  {
  }

  lemma MatchesName(s: string)
    ensures Matches(NAME, s) <==> IsName(s)
  {
    MatchesPlus(NameChar, s);
  }

  // ---- Lists of names ----

  lemma SplitCons(part: string, rest: string)
    requires Without(part, '/')
    ensures Split(part + "/" + rest, '/') == [part] + Split(rest, '/')
  {
    SplitAfterHead(part, rest, '/');
    assert part + "/" + rest == part + ['/'] + rest;
  }

  /** The first round of (/name)*. */
  lemma FirstRound(t: string) returns (i: nat)
    requires t != "" && Matches(Star(Cat(Lit('/'), NAME)), t)
    ensures 1 <= i <= |t| && t[0] == '/' && IsName(t[1..i]) && Matches(Star(Cat(Lit('/'), NAME)), t[i..])
  {
    i :| 0 < i <= |t| && Matches(Cat(Lit('/'), NAME), t[..i]) && Matches(Star(Cat(Lit('/'), NAME)), t[i..]);
    var j :| 0 <= j <= i && Matches(Lit('/'), t[..i][..j]) && Matches(NAME, t[..i][j..]);
    assert j == 1 && t[..i][..j][0] == t[0];
    MatchesName(t[..i][1..]);
    assert t[..i][1..] == t[1..i];
  }

  /** (/name)* after a name means: every part is a name. */
  lemma {:induction false} TailIsNames(s: string, t: string)
    requires IsName(s) && Matches(Star(Cat(Lit('/'), NAME)), t)
    ensures AllNames(Split(s + t, '/'))
    decreases |t|
  {
    NameHasNoSlash(s);
    if t == "" {
      SplitOfPart(s, '/');
      assert s + t == s;
    } else {
      var i := FirstRound(t);
      TailIsNames(t[1..i], t[i..]);
      var rest := t[1..i] + t[i..];
      SplitCons(s, rest);
      assert s + t == s + "/" + rest;
      NamesCons(s, Split(rest, '/'));
    }
  }

  lemma NamesCons(part: string, parts: seq<string>)
    requires IsName(part) && AllNames(parts)
    ensures AllNames([part] + parts)
  {
  }

  lemma {:induction false} NamesAreTail(s: string, parts: seq<string>)
    requires IsName(s) && (parts == [] || AllNames(parts))
    ensures Matches(Star(Cat(Lit('/'), NAME)), Joined(parts))
    decreases |parts|
  {
    if parts != [] {
      var head := "/" + parts[0];
      NamesAreTail(s, parts[1..]);
      MatchesName(parts[0]);
      assert head[..1] == "/" && head[1..] == parts[0];
      assert Matches(Cat(Lit('/'), NAME), head);
      var t := Joined(parts);
      assert t[..|head|] == head && t[|head|..] == Joined(parts[1..]);
    }
  }

  /** Each part with a slash in front. */
  function Joined(parts: seq<string>): string {
    if parts == [] then "" else "/" + parts[0] + Joined(parts[1..])
  }

  lemma {:induction false} JoinIsJoined(parts: seq<string>)
    requires parts != []
    ensures Join(parts, '/') == parts[0] + Joined(parts[1..])
  {
    if |parts| > 1 {
      JoinIsJoined(parts[1..]);
    }
  }

  lemma MatchesNames(s: string)
    ensures Matches(NAMES, s) <==> AllNames(Split(s, '/'))
  {
    if i :| 0 <= i <= |s| && Matches(NAME, s[..i]) && Matches(Star(Cat(Lit('/'), NAME)), s[i..]) {
      MatchesName(s[..i]);
      TailIsNames(s[..i], s[i..]);
      assert s == s[..i] + s[i..];
    }
    var parts := Split(s, '/');
    if AllNames(parts) {
      JoinSplit(s, '/');
      JoinIsJoined(parts);
      MatchesName(parts[0]);
      NamesAreTail(parts[0], parts[1..]);
      var i := |parts[0]|;
      assert s[..i] == parts[0] && s[i..] == Joined(parts[1..]);
    }
  }

  // ---- Parts at the ends ----

  lemma HeadPart(s: string, x: string)
    requires Without(x, '/')
    ensures x + "/" <= s <==> |Split(s, '/')| >= 2 && Split(s, '/')[0] == x
    ensures x + "/" <= s ==> Split(s[|x| + 1..], '/') == Split(s, '/')[1..]
  {
    var parts := Split(s, '/');
    if x + "/" <= s {
      SplitCons(x, s[|x| + 1..]);
      assert s == x + "/" + s[|x| + 1..];
    }
    if |parts| >= 2 && parts[0] == x {
      JoinSplit(s, '/');
      assert s == x + "/" + Join(parts[1..], '/');
    }
  }

  lemma {:induction false} JoinLast(parts: seq<string>)
    requires |parts| >= 2
    ensures Join(parts, '/') == Join(parts[..|parts| - 1], '/') + "/" + parts[|parts| - 1]
  {
    if |parts| > 2 {
      JoinLast(parts[1..]);
      assert parts[1..][..|parts| - 2] == parts[..|parts| - 1][1..];
    }
  }

  lemma SplitOffLast(left: string, x: string)
    requires Without(x, '/')
    ensures Split(left + "/" + x, '/') == Split(left, '/') + [x]
  {
    SplitOfPart(x, '/');
    SplitConcat(left, x, '/');
    assert left + "/" + x == left + ['/'] + x;
  }

  lemma EndsWithLast(s: string)
    requires |Split(s, '/')| >= 2
    ensures var parts := Split(s, '/');
            s == Join(parts[..|parts| - 1], '/') + "/" + parts[|parts| - 1]
  {
    JoinSplit(s, '/');
    JoinLast(Split(s, '/'));
  }

  /** s ends in a slash and x. */
  predicate EndsIn(s: string, x: string) {
    |x| < |s| && s[|s| - |x| - 1..] == "/" + x
  }

  lemma LastEndsIn(s: string, x: string)
    requires |Split(s, '/')| >= 2 && Split(s, '/')[|Split(s, '/')| - 1] == x
    ensures EndsIn(s, x)
  {
    EndsWithLast(s);
    var left := Join(Split(s, '/')[..|Split(s, '/')| - 1], '/');
    assert s == left + ("/" + x);
    assert s[|left|..] == "/" + x;
  }

  lemma LastPart(s: string, x: string)
    requires Without(x, '/')
    ensures EndsIn(s, x) <==> |Split(s, '/')| >= 2 && Split(s, '/')[|Split(s, '/')| - 1] == x
    ensures EndsIn(s, x) ==> Split(s[..|s| - |x| - 1], '/') == Split(s, '/')[..|Split(s, '/')| - 1]
  {
    hide Split;
    if |Split(s, '/')| >= 2 && Split(s, '/')[|Split(s, '/')| - 1] == x {
      LastEndsIn(s, x);
    }
    if EndsIn(s, x) {
      var left := s[..|s| - |x| - 1];
      SplitOffLast(left, x);
      assert s == left + "/" + x;
    }
  }

  lemma MatchesStarExt(s: string)
    ensures Matches(STAR_EXT, s) <==> IsStarExt(s)
  {
    MatchesAfterStr("*.", EXT, s);
    if "*." <= s {
      MatchesPlus(AlnumChar, s[2..]);
    }
  }

  lemma StarExtHasNoSlash(part: string)
    requires IsStarExt(part)
    ensures Without(part, '/')
  {
    forall k | 0 <= k < |part| ensures part[k] != '/' {
      assert k < 2 ==> part[k] == part[..2][k];
      assert k >= 2 ==> part[k] == part[2..][k - 2];
    }
  }

  lemma OnePart(s: string)
    ensures Without(s, '/') <==> Split(s, '/') == [s]
    ensures |Split(s, '/')| == 1 ==> Split(s, '/') == [s]
  {
    if Without(s, '/') {
      SplitOfPart(s, '/');
    }
    JoinSplit(s, '/');
    SplitParts(s, '/');
  }

  // ---- Each expression by its parts ----

  lemma GlobstarByParts(s: string)
    ensures var parts := Split(s, '/');
            Matches(PAT_GLOBSTAR, s) <==> |parts| >= 2 && parts[0] == "**" && AllNames(parts[1..])
  {
    MatchesAfterStr("**/", NAMES, s);
    HeadPart(s, "**");
    if "**/" <= s {
      MatchesNames(s[3..]);
    }
  }

  lemma GlobstarExtByParts(s: string)
    ensures var parts := Split(s, '/');
            Matches(PAT_GLOBSTAR_EXT, s) <==> |parts| == 2 && parts[0] == "**" && IsStarExt(parts[1])
  {
    MatchesAfterStr("**/*.", EXT, s);
    HeadPart(s, "**");
    if "**/" <= s {
      var rest := s[3..];
      OnePart(rest);
      if IsStarExt(rest) {
        StarExtHasNoSlash(rest);
      }
      if "**/*." <= s {
        MatchesPlus(AlnumChar, s[5..]);
        assert rest[2..] == s[5..] && rest[..2] == "*.";
      }
      if IsStarExt(rest) {
        assert s[3..][..2] == "*.";
        assert s[..5] == s[..3] + rest[..2];
        MatchesPlus(AlnumChar, s[5..]);
      }
    }
  }

  lemma TrailingGlobstarByParts(s: string)
    ensures var parts := Split(s, '/');
            Matches(PAT_TRAILING_GLOBSTAR, s) <==>
            |parts| >= 2 && parts[|parts| - 1] == "**" && AllNames(parts[..|parts| - 1])
  {
    MatchesBeforeStr(NAMES, "/**", s);
    LastPart(s, "**");
    assert "/" + "**" == "/**";
    if 3 <= |s| && s[|s| - 3..] == "/**" {
      MatchesNames(s[..|s| - 3]);
    }
  }

  lemma MatchesOptionalName(t: string)
    ensures Matches(OPTIONAL_NAME, t) <==> t == "" || (|t| >= 2 && t[|t| - 1..] == "/" && IsName(t[..|t| - 1]))
  {
    MatchesBeforeStr(NAME, "/", t);
    if t != "" {
      MatchesName(t[..|t| - 1]);
    }
  }

  lemma MiddleGlobstarToParts(s: string, i: nat)
    requires i <= |s| && Matches(OPTIONAL_NAME, s[..i]) && Matches(PAT_GLOBSTAR, s[i..])
    ensures var parts := Split(s, '/');
            (|parts| >= 2 && parts[0] == "**" && AllNames(parts[1..])) ||
            (|parts| >= 3 && IsName(parts[0]) && parts[1] == "**" && AllNames(parts[2..]))
  {
    hide Matches, Split;
    GlobstarByParts(s[i..]);
    MatchesOptionalName(s[..i]);
    if i == 0 {
      assert s[i..] == s;
    } else {
      var name := s[..i][..i - 1];
      NameHasNoSlash(name);
      SplitCons(name, s[i..]);
      assert s == name + "/" + s[i..];
      assert ([name] + Split(s[i..], '/'))[2..] == Split(s[i..], '/')[1..];
    }
  }

  lemma MiddleGlobstarByParts(s: string)
    ensures var parts := Split(s, '/');
            Matches(PAT_MIDDLE_GLOBSTAR, s) <==>
            (|parts| >= 2 && parts[0] == "**" && AllNames(parts[1..])) ||
            (|parts| >= 3 && IsName(parts[0]) && parts[1] == "**" && AllNames(parts[2..]))
  {
    var parts := Split(s, '/');
    if i :| 0 <= i <= |s| && Matches(OPTIONAL_NAME, s[..i]) && Matches(PAT_GLOBSTAR, s[i..]) {
      MiddleGlobstarToParts(s, i);
    }
    if |parts| >= 2 && parts[0] == "**" && AllNames(parts[1..]) {
      GlobstarByParts(s);
      MatchesOptionalName("");
      assert s[..0] == "" && s[0..] == s;
    } else if |parts| >= 3 && IsName(parts[0]) && parts[1] == "**" && AllNames(parts[2..]) {
      NameWithSlash(s);
    }
  }

  lemma NameWithSlash(s: string)
    requires var parts := Split(s, '/');
             |parts| >= 3 && IsName(parts[0]) && parts[1] == "**" && AllNames(parts[2..])
    ensures Matches(PAT_MIDDLE_GLOBSTAR, s)
  {
    var parts := Split(s, '/');
    NameHasNoSlash(parts[0]);
    HeadPart(s, parts[0]);
    NameBeforeGlobstar(s, parts[0]);
    assert parts[1..][1..] == parts[2..];
    var i := |parts[0]| + 1;
    GlobstarByParts(s[i..]);
    hide Split, AllNames, IsName;
    assert Matches(OPTIONAL_NAME, s[..i]) && Matches(PAT_GLOBSTAR, s[i..]);
  }

  lemma NameBeforeGlobstar(s: string, name: string)
    requires IsName(name) && name + "/" <= s
    ensures Matches(OPTIONAL_NAME, s[..|name| + 1])
  {
    var t := s[..|name| + 1];
    assert t == name + "/" && t[..|t| - 1] == name;
    MatchesOptionalName(t);
  }

  /** The tail of patPrefixGlobstarExt. */
  lemma MatchesGlobstarTail(t: string)
    ensures Matches(Cat(Str("/**/*."), EXT), t) <==> "/**/" <= t && IsStarExt(t[4..])
  {
    MatchesAfterStr("/**/*.", EXT, t);
    if "/**/*." <= t {
      assert t[..4] == "/**/*."[..4];
    }
    if "/**/" <= t {
      var rest := t[4..];
      assert "/**/" + "*." == "/**/*.";
      if "/**/*." <= t {
        assert rest[..2] == "*." && rest[2..] == t[6..];
        MatchesPlus(AlnumChar, t[6..]);
      }
      if IsStarExt(rest) {
        assert t[..6] == t[..4] + rest[..2] && rest[2..] == t[6..];
        MatchesPlus(AlnumChar, t[6..]);
      }
    }
  }

  lemma PrefixGlobstarExtToParts(left: string, t: string)
    requires "/**/" <= t && IsStarExt(t[4..])
    ensures Split(left + t, '/') == Split(left, '/') + ["**", t[4..]]
  {
    StarExtHasNoSlash(t[4..]);
    SplitOffTwo(left, t[4..]);
    assert t == "/**/" + t[4..];
    assert left + t == left + "/**/" + t[4..];
  }

  lemma PrefixGlobstarExtFromParts(s: string)
    requires var parts := Split(s, '/'); var n := |parts|;
             n >= 3 && AllNames(parts[..n - 2]) && parts[n - 2] == "**" && IsStarExt(parts[n - 1])
    ensures Matches(PAT_PREFIX_GLOBSTAR_EXT, s)
  {
    var parts := Split(s, '/');
    var last := parts[|parts| - 1];
    var left := LastTwoParts(s);
    var i := |left|;
    assert s[..i] == left && s[i..] == "/**/" + last && s[i..][4..] == last;
    MatchesNames(left);
    MatchesGlobstarTail(s[i..]);
  }

  lemma PrefixGlobstarExtByParts(s: string)
    ensures var parts := Split(s, '/'); var n := |parts|;
            Matches(PAT_PREFIX_GLOBSTAR_EXT, s) <==>
            n >= 3 && AllNames(parts[..n - 2]) && parts[n - 2] == "**" && IsStarExt(parts[n - 1])
  {
    hide Split, AllNames, IsStarExt;
    var parts := Split(s, '/');
    var n := |parts|;
    if i :| 0 <= i <= |s| && Matches(NAMES, s[..i]) && Matches(Cat(Str("/**/*."), EXT), s[i..]) {
      MatchesNames(s[..i]);
      MatchesGlobstarTail(s[i..]);
      PrefixGlobstarExtToParts(s[..i], s[i..]);
      assert s == s[..i] + s[i..];
      assert parts[..n - 2] == Split(s[..i], '/');
    }
    if n >= 3 && AllNames(parts[..n - 2]) && parts[n - 2] == "**" && IsStarExt(parts[n - 1]) {
      PrefixGlobstarExtFromParts(s);
    }
  }

  lemma SplitOffTwo(left: string, x: string)
    requires Without(x, '/')
    ensures Split(left + "/**/" + x, '/') == Split(left, '/') + ["**", x]
  {
    SplitOffLast(left, "**");
    SplitOffLast(left + "/" + "**", x);
    assert left + "/**/" + x == left + "/" + "**" + "/" + x;
    assert Split(left, '/') + ["**"] + [x] == Split(left, '/') + ["**", x];
  }

  lemma LastTwoParts(s: string) returns (left: string)
    requires |Split(s, '/')| >= 3 && Split(s, '/')[|Split(s, '/')| - 2] == "**"
    ensures s == left + "/**/" + Split(s, '/')[|Split(s, '/')| - 1]
    ensures Split(left, '/') == Split(s, '/')[..|Split(s, '/')| - 2]
  {
    var parts := Split(s, '/');
    var n := |parts|;
    SplitParts(s, '/');
    EndsWithLast(s);
    JoinLast(parts[..n - 1]);
    assert parts[..n - 1][..n - 2] == parts[..n - 2];
    left := Join(parts[..n - 2], '/');
    SplitJoin(parts[..n - 2], '/');
    assert s == left + "/" + "**" + "/" + parts[n - 1];
  }

  // ---- The five alternatives of patStar ----

  predicate StarShape(parts: seq<string>) {
    || (|parts| == 1 && (parts[0] == "*" || IsStarExt(parts[0])))
    || (|parts| == 2 && parts[0] == "**" && IsName(parts[1]))
    || (|parts| == 2 && IsName(parts[0]) && (parts[1] == "*" || IsStarExt(parts[1])))
  }

  lemma GlobstarNameByParts(s: string)
    ensures Matches(GLOBSTAR_NAME, s) <==>
            var parts := Split(s, '/'); |parts| == 2 && parts[0] == "**" && IsName(parts[1])
  {
    MatchesAfterStr("**/", NAME, s);
    HeadPart(s, "**");
    if "**/" <= s {
      MatchesName(s[3..]);
      OnePart(s[3..]);
    }
  }

  lemma NameStarByParts(s: string)
    ensures Matches(NAME_STAR, s) <==>
            var parts := Split(s, '/'); |parts| == 2 && IsName(parts[0]) && parts[1] == "*"
  {
    MatchesBeforeStr(NAME, "/*", s);
    LastPart(s, "*");
    assert "/" + "*" == "/*";
    if EndsIn(s, "*") {
      MatchesName(s[..|s| - 2]);
      OnePart(s[..|s| - 2]);
    }
  }

  lemma NameStarExtToParts(s: string, i: nat)
    requires i <= |s| && IsName(s[..i]) && "/" <= s[i..] && IsStarExt(s[i..][1..])
    ensures Split(s, '/') == [s[..i], s[i..][1..]]
  {
    var x := s[i..][1..];
    StarExtHasNoSlash(x);
    NameHasNoSlash(s[..i]);
    SplitOffLast(s[..i], x);
    SplitOfPart(s[..i], '/');
    assert s == s[..i] + "/" + x;
  }

  lemma NameStarExtByParts(s: string)
    ensures Matches(NAME_STAR_EXT, s) <==>
            var parts := Split(s, '/'); |parts| == 2 && IsName(parts[0]) && IsStarExt(parts[1])
  {
    var parts := Split(s, '/');
    if i :| 0 <= i <= |s| && Matches(NAME, s[..i]) && Matches(Cat(Str("/*."), EXT), s[i..]) {
      MatchesName(s[..i]);
      MatchesSlashStarExt(s[i..]);
      NameStarExtToParts(s, i);
    }
    if |parts| == 2 && IsName(parts[0]) && IsStarExt(parts[1]) {
      JoinSplit(s, '/');
      var i := |parts[0]|;
      assert s == parts[0] + "/" + parts[1];
      assert s[..i] == parts[0] && s[i..] == "/" + parts[1] && s[i..][1..] == parts[1];
      MatchesName(parts[0]);
      MatchesSlashStarExt(s[i..]);
    }
  }

  lemma MatchesSlashStarExt(t: string)
    ensures Matches(Cat(Str("/*."), EXT), t) <==> "/" <= t && IsStarExt(t[1..])
  {
    MatchesAfterStr("/*.", EXT, t);
    if "/*." <= t {
      assert t[..1] == "/*."[..1];
    }
    if "/" <= t {
      var rest := t[1..];
      if "/*." <= t {
        assert rest[..2] == "*." && rest[2..] == t[3..];
        MatchesPlus(AlnumChar, t[3..]);
      }
      if IsStarExt(rest) {
        assert t[..3] == t[..1] + rest[..2] && rest[2..] == t[3..];
        MatchesPlus(AlnumChar, t[3..]);
      }
    }
  }

  lemma MatchesAlt(l: Re, r: Re, s: string)
    ensures Matches(Alt(l, r), s) <==> Matches(l, s) || Matches(r, s)
  {
  }

  lemma StarAlternatives(s: string)
    ensures Matches(PAT_STAR, s) <==>
            s == "*" || Matches(GLOBSTAR_NAME, s) || Matches(NAME_STAR, s) || Matches(NAME_STAR_EXT, s)
                || Matches(STAR_EXT, s)
  {
    MatchesAlt(Lit('*'), Alt(GLOBSTAR_NAME, Alt(NAME_STAR, Alt(NAME_STAR_EXT, STAR_EXT))), s);
    MatchesAlt(GLOBSTAR_NAME, Alt(NAME_STAR, Alt(NAME_STAR_EXT, STAR_EXT)), s);
    MatchesAlt(NAME_STAR, Alt(NAME_STAR_EXT, STAR_EXT), s);
    MatchesAlt(NAME_STAR_EXT, STAR_EXT, s);
  }

  lemma StarByParts(s: string)
    ensures Matches(PAT_STAR, s) <==> StarShape(Split(s, '/'))
  {
    StarAlternatives(s);
    GlobstarNameByParts(s);
    NameStarByParts(s);
    NameStarExtByParts(s);
    MatchesStarExt(s);
    hide Matches, Split;
    OnePart(s);
    if IsStarExt(s) {
      StarExtHasNoSlash(s);
    }
  }

  lemma EmptyPattern()
    ensures !Shape(Split("", '/'))
  {
    var parts := Split("", '/');
    assert parts == [""];
    assert parts[0] == "" && !IsName(parts[0]) && !IsStarExt(parts[0]);
  }

  lemma SingleName(parts: seq<string>)
    ensures |parts| == 2 && IsName(parts[1]) ==> AllNames(parts[1..])
  {
  }

  // ---- Main results ----

  /** The seven expressions accept exactly the strings whose parts have one of the shapes. */
  lemma AcceptedByParts(p: string)
    ensures IsValidGitignorePattern(p) <==> Shape(Split(p, '/'))
  {
    MatchesNames(p);
    StarByParts(p);
    GlobstarByParts(p);
    GlobstarExtByParts(p);
    TrailingGlobstarByParts(p);
    MiddleGlobstarByParts(p);
    PrefixGlobstarExtByParts(p);
    EmptyPattern();
    SingleName(Split(p, '/'));
  }

  /** patGlobstar accepts nothing that patMiddleGlobstar does not. */
  lemma GlobstarIsRedundant(p: string)
    ensures Matches(PAT_GLOBSTAR, p) ==> Matches(PAT_MIDDLE_GLOBSTAR, p)
  {
    GlobstarByParts(p);
    MiddleGlobstarByParts(p);
  }

  /** Accepted patterns have no empty part, at most one "**", and "**" never alone. */
  lemma AcceptedParts(p: string)
    requires IsValidGitignorePattern(p)
    ensures var parts := Split(p, '/');
            && (forall k :: 0 <= k < |parts| ==> parts[k] != "")
            && (forall j, k :: 0 <= j < |parts| && 0 <= k < |parts| && parts[j] == "**" && parts[k] == "**" ==> j == k)
            && parts != ["**"]
  {
    AcceptedByParts(p);
    ShapeFacts(Split(p, '/'));
  }

  lemma NamesFrom(parts: seq<string>, from: nat, to: nat)
    requires from < to <= |parts| && AllNames(parts[from..to])
    ensures forall k :: from <= k < to ==> IsName(parts[k]) && parts[k] != "**"
  {
    forall k | from <= k < to ensures IsName(parts[k]) && parts[k] != "**" {
      assert parts[k] == parts[from..to][k - from];
      NotGlobstar(parts[k]);
    }
  }

  lemma NotGlobstar(part: string)
    requires IsName(part) || IsStarExt(part) || part == "*"
    ensures part != "**" && part != ""
  {
    if IsName(part) {
      assert InClass(NameChar, part[0]);
    }
  }

  lemma ShapeFacts(parts: seq<string>)
    requires Shape(parts)
    ensures forall k :: 0 <= k < |parts| ==> parts[k] != ""
    ensures forall j, k :: 0 <= j < |parts| && 0 <= k < |parts| && parts[j] == "**" && parts[k] == "**" ==> j == k
    ensures parts != ["**"]
  {
    var n := |parts|;
    if AllNames(parts) {
      assert parts[0..n] == parts;
      NamesFrom(parts, 0, n);
    } else if n >= 2 && parts[0] == "**" && AllNames(parts[1..]) {
      assert parts[1..n] == parts[1..];
      NamesFrom(parts, 1, n);
    } else if n >= 2 && parts[n - 1] == "**" && AllNames(parts[..n - 1]) {
      assert parts[0..n - 1] == parts[..n - 1];
      NamesFrom(parts, 0, n - 1);
    } else if n >= 3 && IsName(parts[0]) && parts[1] == "**" && AllNames(parts[2..]) {
      assert parts[2..n] == parts[2..];
      NamesFrom(parts, 2, n);
      NotGlobstar(parts[0]);
    } else if n >= 3 && AllNames(parts[..n - 2]) && parts[n - 2] == "**" && IsStarExt(parts[n - 1]) {
      assert parts[0..n - 2] == parts[..n - 2];
      NamesFrom(parts, 0, n - 2);
      NotGlobstar(parts[n - 1]);
    } else {
      forall k | 0 <= k < n && parts[k] != "**" ensures parts[k] != "" {
        NotGlobstar(parts[k]);
      }
    }
  }

  // ---- The language by its characters and by examples ----

  /** The character classes, letter by letter. */
  lemma ClassCharacters(c: char)
    ensures InClass(LowerChar, c) <==> c in SMALL + DIGITS
    ensures InClass(LowerDashChar, c) <==> c in SMALL + DIGITS + "-"
    ensures InClass(AlnumChar, c) <==> c in SMALL + CAPITAL + DIGITS
    ensures InClass(NameChar, c) <==> c in SMALL + CAPITAL + DIGITS + "._-"
  {
    SmallLetters(c);
    CapitalLetters(c);
    DecimalDigits(c);
  }

  lemma Split2(a: string, b: string)
    requires Without(a, '/') && Without(b, '/')
    ensures Split(a + "/" + b, '/') == [a, b]
  {
    hide Split;
    SplitOfPart(b, '/');
    SplitAfterHead(a, b, '/');
  }

  lemma Split3(a: string, b: string, c: string)
    requires Without(a, '/') && Without(b, '/') && Without(c, '/')
    ensures Split(a + "/" + (b + "/" + c), '/') == [a, b, c]
  {
    hide Split;
    Split2(b, c);
    SplitAfterHead(a, b + "/" + c, '/');
  }

  lemma Split4(a: string, b: string, c: string, d: string)
    requires Without(a, '/') && Without(b, '/') && Without(c, '/') && Without(d, '/')
    ensures Split(a + "/" + (b + "/" + (c + "/" + d)), '/') == [a, b, c, d]
  {
    hide Split;
    Split3(b, c, d);
    SplitAfterHead(a, b + "/" + (c + "/" + d), '/');
  }

  predicate IsExt(ext: string) {
    ext != "" && AllIn(AlnumChar, ext)
  }

  /** "*" and "**" are no names and no "*.ext". */
  lemma StarParts()
    ensures !IsName("*") && !IsName("**") && !IsStarExt("*") && !IsStarExt("**") && !IsName("") && !IsStarExt("")
    ensures Without("*", '/') && Without("**", '/') && Without("", '/')
  {
    assert "*"[0] == '*' && "**"[0] == '*' && "**"[1] == '*';
    assert !InClass(NameChar, "*"[0]) && !InClass(NameChar, "**"[0]);
    assert |"*"| == 1 && |"**"| == 2;
  }

  /** "*.ext" is no name and neither of them. */
  lemma StarExtPart(ext: string)
    requires IsExt(ext)
    ensures IsStarExt("*." + ext) && !IsName("*." + ext) && Without("*." + ext, '/')
    ensures "*." + ext != "*" && "*." + ext != "**"
  {
    var part := "*." + ext;
    assert part[..2] == "*." && part[2..] == ext;
    assert !InClass(NameChar, part[0]);
    forall k | 0 <= k < |part| ensures part[k] != '/' {
      assert k >= 2 ==> InClass(AlnumChar, ext[k - 2]) && part[k] == ext[k - 2];
    }
    assert |part| >= 3 && |"*"| == 1 && |"**"| == 2;
  }

  lemma NamePart(name: string)
    requires IsName(name)
    ensures Without(name, '/') && name != "*" && name != "**" && name != "" && !IsStarExt(name)
  {
    assert InClass(NameChar, name[0]);
    NameHasNoSlash(name);
  }

  lemma OneTwoNames(a: string, b: string)
    requires IsName(a) && IsName(b)
    ensures AllNames([a]) && AllNames([a, b])
  {
  }

  /** The forms the validation promises in its comment, for all names and extensions: one part. */
  lemma OnePartForms(a: string, ext: string)
    requires IsName(a) && IsExt(ext)
    ensures IsValidGitignorePattern(a) && IsValidGitignorePattern("*") && IsValidGitignorePattern("*." + ext)
    ensures !IsValidGitignorePattern("") && !IsValidGitignorePattern("**")
  {
    hide IsValidGitignorePattern, Split, IsName, IsStarExt;
    NamePart(a);
    StarParts();
    StarExtPart(ext);
    SplitOfPart(a, '/');
    SplitOfPart("*", '/');
    SplitOfPart("*." + ext, '/');
    SplitOfPart("", '/');
    SplitOfPart("**", '/');
    AcceptedByParts(a);
    AcceptedByParts("*");
    AcceptedByParts("*." + ext);
    AcceptedByParts("");
    AcceptedByParts("**");
    assert [""][0] == "" && ["**"][0] == "**" && "**" != "*" && "" != "*";
  }

  /** Two parts: everything but an empty part, two stars in a row as both parts, or a name after a star. */
  lemma TwoPartForms(a: string, b: string, ext: string)
    requires IsName(a) && IsName(b) && IsExt(ext)
    ensures IsValidGitignorePattern(a + "/" + b) && IsValidGitignorePattern("**" + "/" + b)
    ensures IsValidGitignorePattern(a + "/" + "*") && IsValidGitignorePattern(a + "/" + "**")
    ensures IsValidGitignorePattern(a + "/" + ("*." + ext)) && IsValidGitignorePattern("**" + "/" + ("*." + ext))
    ensures !IsValidGitignorePattern("" + "/" + b) && !IsValidGitignorePattern(a + "/" + "")
    ensures !IsValidGitignorePattern("**" + "/" + "**") && !IsValidGitignorePattern("*" + "/" + b)
    ensures !IsValidGitignorePattern("**" + "/" + "*") && !IsValidGitignorePattern(("*." + ext) + "/" + b)
  {
    hide IsValidGitignorePattern, Split, IsName, IsStarExt;
    NamePart(a);
    NamePart(b);
    StarParts();
    StarExtPart(ext);
    OneTwoNames(a, b);
    TwoPartPattern(a, b);
    TwoPartPattern("**", b);
    TwoPartPattern(a, "*");
    TwoPartPattern(a, "**");
    TwoPartPattern(a, "*." + ext);
    TwoPartPattern("**", "*." + ext);
    TwoPartPattern("", b);
    TwoPartPattern(a, "");
    TwoPartPattern("**", "**");
    TwoPartPattern("*", b);
    TwoPartPattern("**", "*");
    TwoPartPattern("*." + ext, b);
  }

  lemma TwoPartPattern(x: string, y: string)
    requires Without(x, '/') && Without(y, '/')
    ensures IsValidGitignorePattern(x + "/" + y) <==>
            || (IsName(x) && (IsName(y) || y == "*" || y == "**" || IsStarExt(y)))
            || (x == "**" && (IsName(y) || IsStarExt(y)))
  {
    hide IsValidGitignorePattern, Split, IsStarExt;
    Split2(x, y);
    AcceptedByParts(x + "/" + y);
    StarParts();
    assert [x, y][1..] == [y] && [x, y][..1] == [x];
  }

  lemma ThreePartPattern(x: string, y: string, z: string)
    requires Without(x, '/') && Without(y, '/') && Without(z, '/')
    ensures IsValidGitignorePattern(x + "/" + (y + "/" + z)) <==>
            || (IsName(x) && IsName(y) && (IsName(z) || z == "**"))
            || (x == "**" && IsName(y) && IsName(z))
            || (IsName(x) && y == "**" && (IsName(z) || IsStarExt(z)))
  {
    hide IsValidGitignorePattern, Split, IsStarExt;
    Split3(x, y, z);
    AcceptedByParts(x + "/" + (y + "/" + z));
    var parts := [x, y, z];
    StarParts();
    assert parts[1..] == [y, z] && parts[..2] == [x, y] && parts[2..] == [z] && parts[..1] == [x];
  }

  /** Three and four parts: a globstar may stand between one name and names, before names, after names, and before
      a last "*.ext" after any names; a star or "*.ext" after two names, and a globstar between two names
      and a name, are refused. */
  lemma MorePartForms(a: string, b: string, c: string, ext: string)
    requires IsName(a) && IsName(b) && IsName(c) && IsExt(ext)
    ensures IsValidGitignorePattern(a + "/" + (b + "/" + c)) && IsValidGitignorePattern("**" + "/" + (a + "/" + b))
    ensures IsValidGitignorePattern(a + "/" + ("**" + "/" + b)) && IsValidGitignorePattern(a + "/" + (b + "/" + "**"))
    ensures IsValidGitignorePattern(a + "/" + ("**" + "/" + ("*." + ext)))
    ensures !IsValidGitignorePattern(a + "/" + (b + "/" + "*"))
    ensures !IsValidGitignorePattern(a + "/" + (b + "/" + ("*." + ext)))
    ensures !IsValidGitignorePattern(a + "/" + ("" + "/" + b))
    ensures IsValidGitignorePattern(a + "/" + (b + "/" + ("**" + "/" + ("*." + ext))))
    ensures !IsValidGitignorePattern(a + "/" + (b + "/" + ("**" + "/" + c)))
  {
    hide IsValidGitignorePattern, Split, IsName, IsStarExt;
    NamePart(a);
    NamePart(b);
    NamePart(c);
    StarParts();
    StarExtPart(ext);
    ThreePartPattern(a, b, c);
    ThreePartPattern("**", a, b);
    ThreePartPattern(a, "**", b);
    ThreePartPattern(a, b, "**");
    ThreePartPattern(a, "**", "*." + ext);
    ThreePartPattern(a, b, "*");
    ThreePartPattern(a, b, "*." + ext);
    ThreePartPattern(a, "", b);
    FourPartForms(a, b, c, "*." + ext);
  }

  lemma FourPartForms(a: string, b: string, c: string, star: string)
    requires IsName(a) && IsName(b) && IsName(c) && IsStarExt(star) && Without(star, '/')
    ensures IsValidGitignorePattern(a + "/" + (b + "/" + ("**" + "/" + star)))
    ensures !IsValidGitignorePattern(a + "/" + (b + "/" + ("**" + "/" + c)))
  {
    hide IsValidGitignorePattern, Split, IsStarExt;
    NamePart(a);
    NamePart(b);
    NamePart(c);
    StarParts();
    Split4(a, b, "**", star);
    Split4(a, b, "**", c);
    AcceptedByParts(a + "/" + (b + "/" + ("**" + "/" + star)));
    AcceptedByParts(a + "/" + (b + "/" + ("**" + "/" + c)));
    assert [a, b, "**", star][..2] == [a, b];
    assert [a, b, "**", c][..3] == [a, b, "**"] && [a, b, "**", c][..3][2] == "**";
    assert [a, b, "**", c][2] == "**";
  }

  // ---- Index names ----

  /** The webhook's ^[a-z0-9]([a-z0-9\-]*[a-z0-9])?$ */
  const INDEX_NAME: Re :=
    Cat(Any(LowerChar), Alt(Cat(Star(Any(LowerDashChar)), Any(LowerChar)), Eps))

  /** The CRD's ^[a-z0-9][a-z0-9\-]*[a-z0-9]$ */
  const CRD_INDEX_NAME: Re :=
    Cat(Any(LowerChar), Cat(Star(Any(LowerDashChar)), Any(LowerChar)))

  predicate IsIndexName(s: string) {
    s != "" && AllIn(LowerDashChar, s) && s[0] != '-' && s[|s| - 1] != '-'
  }

  lemma MatchesDashedTail(t: string)
    ensures Matches(Cat(Star(Any(LowerDashChar)), Any(LowerChar)), t) <==>
            t != "" && AllIn(LowerDashChar, t) && t[|t| - 1] != '-'
  {
    if i :| 0 <= i <= |t| && Matches(Star(Any(LowerDashChar)), t[..i]) && Matches(Any(LowerChar), t[i..]) {
      MatchesStar(LowerDashChar, t[..i]);
      assert i == |t| - 1 && t[i..][0] == t[i];
      assert forall j :: 0 <= j < i ==> t[j] == t[..i][j];
    }
    if t != "" && AllIn(LowerDashChar, t) && t[|t| - 1] != '-' {
      MatchesStar(LowerDashChar, t[..|t| - 1]);
      assert t[|t| - 1..] == [t[|t| - 1]];
    }
  }

  lemma MatchesFirst(re: Re, s: string)
    ensures Matches(Cat(Any(LowerChar), re), s) <==> s != "" && InClass(LowerChar, s[0]) && Matches(re, s[1..])
  {
    if i :| 0 <= i <= |s| && Matches(Any(LowerChar), s[..i]) && Matches(re, s[i..]) {
      assert i == 1 && s[..1][0] == s[0];
    }
    if s != "" && InClass(LowerChar, s[0]) && Matches(re, s[1..]) {
      assert Matches(Any(LowerChar), s[..1]);
    }
  }

  /** The webhook accepts exactly the nonempty names over [a-z0-9-] with no dash at either end; the CRD
      pattern accepts those of at least two characters. */
  lemma IndexNames(s: string)
    ensures Matches(INDEX_NAME, s) <==> IsIndexName(s)
    ensures Matches(CRD_INDEX_NAME, s) <==> IsIndexName(s) && |s| >= 2
  {
    MatchesFirst(Alt(Cat(Star(Any(LowerDashChar)), Any(LowerChar)), Eps), s);
    MatchesFirst(Cat(Star(Any(LowerDashChar)), Any(LowerChar)), s);
    if s != "" {
      MatchesDashedTail(s[1..]);
      assert s == [s[0]] + s[1..];
      assert AllIn(LowerDashChar, s) <==> InClass(LowerDashChar, s[0]) && AllIn(LowerDashChar, s[1..]) by {
        assert forall j :: 1 <= j < |s| ==> s[j] == s[1..][j - 1];
      }
    }
  }
}
