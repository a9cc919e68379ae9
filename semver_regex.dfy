/**
 * The language of the VERSION regular expression shared by every ParseVersionFile:
 *   ^v?(?:0|[1-9][0-9]*)\.(?:0|[1-9][0-9]*)\.(?:0|[1-9][0-9]*)
 *    (?:-[\da-z\-]+(?:\.[\da-z\-]+)*)?(?:\+[\da-z\-]+(?:\.[\da-z\-]+)*)?$
 * Go's `$` without the m flag matches only at the end of the text, and `\d` is ASCII, so
 * the expression accepts exactly the renderings of the well-formed Version values below.
 * It is close to, but not the same as, Semantic Versioning 2.0.0: it also accepts a "v"
 * prefix and leading zeros in numeric pre-release identifiers, and it refuses uppercase
 * letters in identifiers.
 */
module SemverRegex {
  import opened Wrappers

  predicate IsDigit(c: char) {
    '0' <= c <= '9'
  }

  /** [\da-z\-] */
  predicate IsIdentChar(c: char) {
    IsDigit(c) || 'a' <= c <= 'z' || c == '-'
  }

  /** (?:0|[1-9][0-9]*) */
  predicate IsNumber(s: string) {
    s == "0" || (|s| >= 1 && '1' <= s[0] <= '9' && forall i :: 1 <= i < |s| ==> IsDigit(s[i]))
  }

  /** [\da-z\-]+ */
  predicate IsIdent(s: string) {
    |s| >= 1 && forall i :: 0 <= i < |s| ==> IsIdentChar(s[i])
  }

  predicate AllIdents(parts: seq<string>) {
    forall i :: 0 <= i < |parts| ==> IsIdent(parts[i])
  }

  /** A string the expression accepts, taken apart: numbers as their digits, identifiers as text. */
  datatype Version = Version(
    prefixV: bool,
    major: string,
    minor: string,
    patch: string,
    pre: seq<string>,
    build: seq<string>)

  predicate WellFormed(v: Version) {
    IsNumber(v.major) && IsNumber(v.minor) && IsNumber(v.patch) && AllIdents(v.pre) && AllIdents(v.build)
  }

  /** Parts separated by dots. */
  function Join(parts: seq<string>): string {
    if parts == [] then ""
    else if |parts| == 1 then parts[0]
    else parts[0] + "." + Join(parts[1..])
  }

  /** An optional group: nothing, or the leading character and the dotted parts. */
  function Group(lead: char, parts: seq<string>): string {
    if parts == [] then "" else [lead] + Join(parts)
  }

  /** Three numbers separated by dots, then the tail. */
  function Core(major: string, minor: string, patch: string, tail: string): string {
    major + ("." + (minor + ("." + (patch + tail))))
  }

  /** The text a Version stands for. */
  function Render(v: Version): string {
    (if v.prefixV then "v" else "") + Core(v.major, v.minor, v.patch, Group('-', v.pre) + Group('+', v.build))
  }

  /** What regexp.MatchString with the VERSION expression says of s. */
  ghost predicate InLanguage(s: string) {
    exists v :: WellFormed(v) && Render(v) == s
  }

  /** The longest prefix of digits. */
  function DigitSpan(s: string): (d: string)
    ensures |d| <= |s| && d == s[..|d|]
    ensures forall i :: 0 <= i < |d| ==> IsDigit(d[i])
    ensures |d| < |s| ==> !IsDigit(s[|d|])
  {
    if s != [] && IsDigit(s[0]) then [s[0]] + DigitSpan(s[1..]) else ""
  }

  /** Position of the first c in s, or |s|. */
  function IndexOf(s: string, c: char): (i: nat)
    ensures i <= |s| && c !in s[..i]
    ensures i < |s| ==> s[i] == c
  {
    if s == [] then 0
    else if s[0] == c then 0
    else
      assert s[..1 + IndexOf(s[1..], c)] == [s[0]] + s[1..][..IndexOf(s[1..], c)];
      1 + IndexOf(s[1..], c)
  }

  /** The dot-separated identifiers of a `[\da-z\-]+(?:\.[\da-z\-]+)*` group: the pieces between dots; never empty. */
  function Split(s: string): (parts: seq<string>)
    ensures |parts| >= 1
    ensures forall i :: 0 <= i < |parts| ==> '.' !in parts[i]
    ensures Join(parts) == s
    decreases |s|
  {
    var i := IndexOf(s, '.');
    if i == |s| then
      assert s[..i] == s;
      [s]
    else
      var rest := Split(s[i + 1..]);
      assert s == s[..i] + "." + s[i + 1..];
      [s[..i]] + rest
  }

  /** [\da-z\-]+(?:\.[\da-z\-]+)* */
  function ParseIdents(s: string): (r: Option<seq<string>>)
    ensures r.Some? ==> |r.value| >= 1 && AllIdents(r.value) && Join(r.value) == s
  {
    var parts := Split(s);
    if AllIdents(parts) then Some(parts) else None
  }

  /** The optional build group, which must make up all of t. */
  function ParseBuild(t: string): (r: Option<seq<string>>)
    ensures r.Some? ==> AllIdents(r.value) && Group('+', r.value) == t
  {
    if t == [] then Some([])
    else if t[0] == '+' then
      match ParseIdents(t[1..])
      case None => None
      case Some(build) =>
        assert t == "+" + t[1..];
        Some(build)
    else None
  }

  /** The optional pre-release and build groups, which must make up all of t. */
  function ParseTail(t: string): (r: Option<(seq<string>, seq<string>)>)
    ensures r.Some? ==> AllIdents(r.value.0) && AllIdents(r.value.1)
    ensures r.Some? ==> Group('-', r.value.0) + Group('+', r.value.1) == t
  {
    if t != [] && t[0] == '-' then
      var k := IndexOf(t, '+');
      match ParseIdents(t[1..k])
      case None => None
      case Some(pre) =>
        match ParseBuild(t[k..])
        case None => None
        case Some(build) =>
          assert t == "-" + t[1..k] + t[k..];
          Some((pre, build))
    else
      match ParseBuild(t)
      case None => None
      case Some(build) => Some(([], build))
  }

  /** A number followed by a dot, at the start of t. */
  function ParseNumberDot(t: string): (r: Option<(string, string)>)
    ensures r.Some? ==> IsNumber(r.value.0) && t == r.value.0 + ("." + r.value.1)
  {
    var n := DigitSpan(t);
    var rest := t[|n|..];
    if IsNumber(n) && rest != [] && rest[0] == '.' then
      assert t == n + ("." + rest[1..]);
      Some((n, rest[1..]))
    else None
  }

  /** The three numbers at the start of t, and what follows them. */
  function ParseCore(t: string): (r: Option<(string, string, string, string)>)
    ensures r.Some? ==> IsNumber(r.value.0) && IsNumber(r.value.1) && IsNumber(r.value.2)
    ensures r.Some? ==> t == Core(r.value.0, r.value.1, r.value.2, r.value.3)
  {
    match ParseNumberDot(t)
    case None => None
    case Some((major, t1)) =>
      match ParseNumberDot(t1)
      case None => None
      case Some((minor, t2)) =>
        var patch := DigitSpan(t2);
        if !IsNumber(patch) then None
        else
          assert t2 == patch + t2[|patch|..];
          Some((major, minor, patch, t2[|patch|..]))
  }

  /** The recogniser: the parts of s when the expression matches it. */
  function Parse(s: string): (r: Option<Version>)
    ensures r.Some? ==> WellFormed(r.value) && Render(r.value) == s
  {
    var prefixV := s != [] && s[0] == 'v';
    var t := if prefixV then s[1..] else s;
    match ParseCore(t)
    case None => None
    case Some((major, minor, patch, rest)) =>
      match ParseTail(rest)
      case None => None
      case Some((pre, build)) =>
        var v := Version(prefixV, major, minor, patch, pre, build);
        RenderOf(v, t, s);
        Some(v)
  }

  /** A version renders to the input when its core and groups render to what follows the prefix. */
  lemma RenderOf(v: Version, t: string, s: string)
    requires t == Core(v.major, v.minor, v.patch, Group('-', v.pre) + Group('+', v.build))
    requires v.prefixV <==> s != [] && s[0] == 'v'
    requires t == if v.prefixV then s[1..] else s
    ensures Render(v) == s
  {
    if v.prefixV {
      assert s == "v" + s[1..];
    }
  }

  /** regexp.MatchString with the VERSION expression. */
  function Matches(s: string): (m: bool)
    ensures m <==> InLanguage(s)
  {
    if Parse(s).Some? then true
    else
      assert !InLanguage(s) by {
        if v :| WellFormed(v) && Render(v) == s {
          ParseRender(v);
        }
      }
      false
  }

  lemma {:induction false} DigitSpanOf(d: string, rest: string)
    requires forall i :: 0 <= i < |d| ==> IsDigit(d[i])
    requires rest != [] ==> !IsDigit(rest[0])
    ensures DigitSpan(d + rest) == d
  {
    if d == [] {
      assert d + rest == rest;
    } else {
      assert (d + rest)[0] == d[0] && (d + rest)[1..] == d[1..] + rest;
      DigitSpanOf(d[1..], rest);
      assert d == [d[0]] + d[1..];
    }
  }

  lemma {:induction false} IndexOfAfter(a: string, c: char, b: string)
    requires c !in a
    ensures IndexOf(a + [c] + b, c) == |a|
  {
    if a != [] {
      assert (a + [c] + b)[1..] == a[1..] + [c] + b;
      IndexOfAfter(a[1..], c, b);
    }
  }

  lemma {:induction false} IndexOfAbsent(s: string, c: char)
    requires c !in s
    ensures IndexOf(s, c) == |s|
  {
    if s != [] {
      IndexOfAbsent(s[1..], c);
    }
  }

  /** A character in no part, other than the dot, is not in the joined text. */
  lemma {:induction false} JoinAvoids(parts: seq<string>, c: char)
    requires c != '.'
    requires forall i :: 0 <= i < |parts| ==> c !in parts[i]
    ensures c !in Join(parts)
  {
    if |parts| > 1 {
      JoinAvoids(parts[1..], c);
    }
  }

  /** Identifiers hold neither a dot nor a plus sign. */
  lemma IdentAvoids(parts: seq<string>)
    requires AllIdents(parts)
    ensures forall i :: 0 <= i < |parts| ==> '.' !in parts[i] && '+' !in parts[i]
  {
    forall i | 0 <= i < |parts| ensures '.' !in parts[i] && '+' !in parts[i] {
      assert IsIdent(parts[i]);
    }
  }

  lemma {:induction false} SplitJoin(parts: seq<string>)
    requires |parts| >= 1
    requires forall i :: 0 <= i < |parts| ==> '.' !in parts[i]
    ensures Split(Join(parts)) == parts
  {
    var s := Join(parts);
    if |parts| == 1 {
      IndexOfAbsent(parts[0], '.');
    } else {
      assert s == parts[0] + "." + Join(parts[1..]);
      IndexOfAfter(parts[0], '.', Join(parts[1..]));
      assert s[IndexOf(s, '.') + 1..] == Join(parts[1..]);
      assert s[..IndexOf(s, '.')] == parts[0];
      SplitJoin(parts[1..]);
    }
  }

  lemma ParseIdentsJoin(parts: seq<string>)
    requires |parts| >= 1 && AllIdents(parts)
    ensures ParseIdents(Join(parts)) == Some(parts)
  {
    IdentAvoids(parts);
    SplitJoin(parts);
  }

  lemma ParseBuildGroup(build: seq<string>)
    requires AllIdents(build)
    ensures ParseBuild(Group('+', build)) == Some(build)
  {
    if build != [] {
      var t := Group('+', build);
      assert t[0] == '+' && t[1..] == Join(build);
      ParseIdentsJoin(build);
    }
  }

  lemma ParseTailGroups(pre: seq<string>, build: seq<string>)
    requires AllIdents(pre) && AllIdents(build)
    ensures ParseTail(Group('-', pre) + Group('+', build)) == Some((pre, build))
  {
    var b := Group('+', build);
    var t := Group('-', pre) + b;
    ParseBuildGroup(build);
    if pre != [] {
      IdentAvoids(pre);
      JoinAvoids(pre, '+');
      ParseIdentsJoin(pre);
      assert t == ['-'] + Join(pre) + b;
      var k := IndexOf(t, '+');
      if build == [] {
        assert '+' !in t;
        IndexOfAbsent(t, '+');
      } else {
        assert b == ['+'] + Join(build);
        assert t == ['-'] + Join(pre) + ['+'] + Join(build);
        IndexOfAfter(['-'] + Join(pre), '+', Join(build));
      }
      assert k == 1 + |Join(pre)|;
      assert t[1..k] == Join(pre);
      assert t[k..] == b;
    } else {
      assert t == b;
      assert b != [] ==> b[0] == '+';
    }
  }

  /** A number then a dot is read back as that number and the rest. */
  lemma ParseNumberDotOf(n: string, rest: string)
    requires IsNumber(n)
    ensures ParseNumberDot(n + ("." + rest)) == Some((n, rest))
  {
    assert forall i :: 0 <= i < |n| ==> IsDigit(n[i]);
    DigitSpanOf(n, "." + rest);
    assert (n + ("." + rest))[|n|..] == "." + rest;
  }

  lemma ParseCoreOf(major: string, minor: string, patch: string, tail: string)
    requires IsNumber(major) && IsNumber(minor) && IsNumber(patch)
    requires tail != [] ==> !IsDigit(tail[0])
    ensures ParseCore(Core(major, minor, patch, tail)) == Some((major, minor, patch, tail))
  {
    var t2 := patch + tail;
    var t1 := minor + ("." + t2);
    ParseNumberDotOf(major, t1);
    ParseNumberDotOf(minor, t2);
    assert forall i :: 0 <= i < |patch| ==> IsDigit(patch[i]);
    DigitSpanOf(patch, tail);
    assert t2[|patch|..] == tail;
  }

  /** Every rendering is read back as the Version it came from. */
  lemma ParseRender(v: Version)
    requires WellFormed(v)
    ensures Parse(Render(v)) == Some(v)
  {
    var s := Render(v);
    var tail := Group('-', v.pre) + Group('+', v.build);
    var t := Core(v.major, v.minor, v.patch, tail);
    assert t[0] == v.major[0];
    PrefixV(v.prefixV, t);
    assert tail != [] ==> tail[0] == '-' || tail[0] == '+';
    ParseCoreOf(v.major, v.minor, v.patch, tail);
    ParseTailGroups(v.pre, v.build);
  }

  /** The optional "v" is seen exactly when it is there, and the rest follows it. */
  lemma PrefixV(prefixV: bool, t: string)
    requires t != [] && t[0] != 'v'
    ensures var s := (if prefixV then "v" else "") + t;
      (s != [] && s[0] == 'v') == prefixV && (if prefixV then s[1..] else s) == t
  {
  }

  /** The expression is unambiguous: a matching string has exactly one reading. */
  lemma RenderInjective(v1: Version, v2: Version)
    requires WellFormed(v1) && WellFormed(v2)
    ensures Render(v1) == Render(v2) <==> v1 == v2
  {
    if Render(v1) == Render(v2) {
      ParseRender(v1);
      ParseRender(v2);
    }
  }

  /** Dotted identifiers end in an identifier character. */
  lemma {:induction false} JoinLast(parts: seq<string>)
    requires |parts| >= 1 && AllIdents(parts)
    ensures var j := Join(parts); j != [] && IsIdentChar(j[|j| - 1])
  {
    if |parts| > 1 {
      assert AllIdents(parts[1..]) by {
        forall i | 0 <= i < |parts[1..]| ensures IsIdent(parts[1..][i]) {
          assert parts[1..][i] == parts[i + 1];
        }
      }
      JoinLast(parts[1..]);
      var j := Join(parts);
      var r := Join(parts[1..]);
      assert j == parts[0] + "." + r;
      assert j[|j| - 1] == r[|r| - 1];
    } else {
      assert IsIdent(parts[0]);
    }
  }

  /** The three numbers and a tail start with the major number and end as the tail, or the patch. */
  lemma CoreEnds(major: string, minor: string, patch: string, tail: string)
    requires IsNumber(major) && IsNumber(minor) && IsNumber(patch)
    ensures var t := Core(major, minor, patch, tail);
      t != [] && t[0] == major[0] && IsDigit(t[0])
      && t[|t| - 1] == (if tail == [] then patch[|patch| - 1] else tail[|tail| - 1])
  {
    var t := Core(major, minor, patch, tail);
    assert t[0] == major[0];
    assert t[|t| - 1] == (patch + tail)[|patch + tail| - 1];
  }

  /** A non-empty pair of groups ends in an identifier character. */
  lemma TailLast(pre: seq<string>, build: seq<string>)
    requires AllIdents(pre) && AllIdents(build)
    ensures var tail := Group('-', pre) + Group('+', build); tail != [] ==> IsIdentChar(tail[|tail| - 1])
  {
    var tail := Group('-', pre) + Group('+', build);
    if build != [] {
      JoinLast(build);
      var b := Join(build);
      assert tail == Group('-', pre) + (['+'] + b);
      assert tail[|tail| - 1] == b[|b| - 1];
    } else if pre != [] {
      JoinLast(pre);
      var p := Join(pre);
      assert tail == ['-'] + p;
      assert tail[|tail| - 1] == p[|p| - 1];
    }
  }

  /** A rendering starts with "v" or a digit and ends with an identifier character. */
  lemma RenderEnds(v: Version)
    requires WellFormed(v)
    ensures var s := Render(v); s != [] && (s[0] == 'v' || IsDigit(s[0])) && IsIdentChar(s[|s| - 1])
  {
    var tail := Group('-', v.pre) + Group('+', v.build);
    var t := Core(v.major, v.minor, v.patch, tail);
    CoreEnds(v.major, v.minor, v.patch, tail);
    TailLast(v.pre, v.build);
    assert IsIdentChar(t[|t| - 1]);
    PrefixEnds(v.prefixV, t);
  }

  /** The optional "v" comes first and leaves the last character alone. */
  lemma PrefixEnds(prefixV: bool, t: string)
    requires t != []
    ensures var s := (if prefixV then "v" else "") + t;
      s[0] == (if prefixV then 'v' else t[0]) && s[|s| - 1] == t[|t| - 1]
  {
  }

  /** A well-formed Version's rendering matches. */
  lemma RenderMatches(v: Version)
    requires WellFormed(v)
    ensures Matches(Render(v))
  {
  }

  /** The renderings the examples below are about. */
  lemma RenderPlain()
    ensures Render(Version(false, "1", "0", "0", [], [])) == "1.0.0"
  {
  }

  lemma RenderPrefixed()
    ensures Render(Version(true, "2", "3", "4", [], [])) == "v2.3.4"
  {
  }

  lemma RenderPrerelease()
    ensures Render(Version(false, "1", "0", "0", ["beta", "1"], [])) == "1.0.0-beta.1"
  {
  }

  lemma RenderPrereleaseAndBuild()
    ensures Render(Version(false, "1", "0", "0", ["rc", "1"], ["sha", "5114f85"])) == "1.0.0-rc.1+sha.5114f85"
  {
  }

  lemma RenderLeadingZeroPrerelease()
    ensures Render(Version(false, "1", "0", "0", ["01"], [])) == "1.0.0-01"
  {
  }

  /** "1.0.0" and "v2.3.4", as parser_test.go expects. */
  lemma AcceptsPlainAndPrefixed()
    ensures Matches("1.0.0") && Matches("v2.3.4")
  {
    RenderPlain();
    RenderPrefixed();
    RenderMatches(Version(false, "1", "0", "0", [], []));
    RenderMatches(Version(true, "2", "3", "4", [], []));
  }

  /** "1.0.0-beta.1", as parser_test.go expects. */
  lemma AcceptsPrerelease()
    ensures Matches("1.0.0-beta.1")
  {
    RenderPrerelease();
    RenderMatches(Version(false, "1", "0", "0", ["beta", "1"], []));
  }

  /** Both optional groups together. */
  lemma AcceptsPrereleaseAndBuild()
    ensures Matches("1.0.0-rc.1+sha.5114f85")
  {
    RenderPrereleaseAndBuild();
    assert IsIdent("5114f85");
    RenderMatches(Version(false, "1", "0", "0", ["rc", "1"], ["sha", "5114f85"]));
  }

  /**
   * Where the expression departs from Semantic Versioning 2.0.0, which forbids the
   * leading zero in a numeric pre-release identifier.
   */
  lemma AcceptsLeadingZeroPrerelease()
    ensures Matches("1.0.0-01")
  {
    RenderLeadingZeroPrerelease();
    RenderMatches(Version(false, "1", "0", "0", ["01"], []));
  }

  /** A well-formed core followed by a tail that is not a pair of groups does not match. */
  lemma RejectTail(major: string, minor: string, patch: string, tail: string)
    requires IsNumber(major) && IsNumber(minor) && IsNumber(patch)
    requires tail != [] ==> !IsDigit(tail[0])
    requires ParseTail(tail) == None
    ensures !Matches(Core(major, minor, patch, tail))
  {
    var t := Core(major, minor, patch, tail);
    assert t[0] == major[0];
    PrefixV(false, t);
    ParseCoreOf(major, minor, patch, tail);
  }

  /** A pre-release group of one piece that is not an identifier is refused. */
  lemma BadPrerelease(p: string)
    requires '+' !in p && '.' !in p && !IsIdent(p)
    ensures ParseTail("-" + p) == None
  {
    var t := "-" + p;
    assert '+' !in t;
    IndexOfAbsent(t, '+');
    assert t[1..|t|] == p;
    IndexOfAbsent(p, '.');
    assert p[..|p|] == p;
    assert Split(p) == [p];
  }

  /** Where the expression departs from Semantic Versioning 2.0.0, which allows uppercase. */
  lemma RejectsUppercaseIdentifier()
    ensures !Matches("1.0.0-Beta")
  {
    var p := "Beta";
    assert !IsIdentChar(p[0]);
    BadPrerelease(p);
    assert Core("1", "0", "0", "-" + p) == "1.0.0-Beta";
    RejectTail("1", "0", "0", "-" + p);
  }

  /** An empty pre-release identifier is refused. */
  lemma RejectsEmptyIdentifier()
    ensures !Matches("1.0.0-")
  {
    assert Core("1", "0", "0", "-") == "1.0.0-";
    assert IndexOf("-", '+') == 1;
    assert "-"[1..1] == "";
    assert Split("") == [""];
    assert ParseTail("-") == None;
    RejectTail("1", "0", "0", "-");
  }

  /** `$` without the m flag: a trailing newline is refused. */
  lemma RejectsTrailingNewline()
    ensures !Matches("1.0.0\n")
  {
    assert Core("1", "0", "0", "\n") == "1.0.0\n";
    assert ParseTail("\n") == None;
    RejectTail("1", "0", "0", "\n");
  }

  /** A string that starts with neither "v" nor a digit does not match. */
  lemma RejectsNonDigitStart(s: string)
    requires s != [] && s[0] != 'v' && !IsDigit(s[0])
    ensures !Matches(s)
  {
    assert DigitSpan(s) == "";
    assert ParseNumberDot(s) == None;
  }

  /** The refused inputs of parser_test.go: "not-a-version" and the empty string. */
  lemma RejectsWord()
    ensures !Matches("not-a-version")
  {
    RejectsNonDigitStart("not-a-version");
  }

  lemma RejectsEmpty()
    ensures !Matches("")
  {
    assert DigitSpan("") == "";
    assert ParseNumberDot("") == None;
  }

  /** A leading zero in a number is refused. */
  lemma RejectsLeadingZero()
    ensures !Matches("01.0.0")
  {
    var s := "01.0.0";
    assert s == "01" + ".0.0";
    DigitSpanOf("01", ".0.0");
    assert !IsNumber("01");
    assert ParseNumberDot(s) == None;
  }

  /** A missing patch number is refused. */
  lemma RejectsMissingPatch()
    ensures !Matches("1.0")
  {
    DigitSpanOf("1", ".0");
    assert "1.0" == "1" + ".0";
    DigitSpanOf("0", "");
    assert "0" + "" == "0";
  }
}
