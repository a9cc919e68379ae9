/**
 * ParseVersionFile of pkg/version: the contents of the VERSION file, with surrounding
 * whitespace removed, must match the VERSION expression and are returned unchanged.
 */
module VersionParser {
  import opened Wrappers
  import opened Text
  import opened SemverRegex

  /** Why a VERSION file was refused. */
  datatype VersionError =
    | ReadFailed(cause: string)
    | NotAVersion(version: string)
    | NotAVersionNumber

  /** A matching string starts and ends with a character no trim ever removes. */
  lemma MatchedEnds(s: string)
    requires InLanguage(s)
    ensures s != [] && !IsSpace(s[0]) && !IsSpace(s[|s| - 1])
  {
    var v :| WellFormed(v) && Render(v) == s;
    RenderEnds(v);
    VersionCharNotSpace(s[0]);
    VersionCharNotSpace(s[|s| - 1]);
  }

  lemma VersionCharNotSpace(c: char)
    requires c == 'v' || IsIdentChar(c)
    ensures !IsSpace(c)
  {
  }

  /**
   * ParseVersionFile, given what os.ReadFile produced: the read failure, or the contents
   * with leading and trailing white space removed when they form a version, or the refusal
   * naming the trimmed text.
   */
  function ParseVersionFile(dat: Result<string, string>): (r: Result<string, VersionError>)
    ensures dat.Failure? ==> r == Failure(ReadFailed(dat.error))
    ensures dat.Success? ==> (r.Success? <==> InLanguage(TrimSpace(dat.value)))
    ensures r.Success? ==> InLanguage(r.value) && Surrounds(dat.value, r.value, IsSpace)
    ensures r.Success? ==> !IsSpace(r.value[0]) && !IsSpace(r.value[|r.value| - 1])
    ensures dat.Success? && r.Failure? ==> r.error == NotAVersion(TrimSpace(dat.value))
  {
    match dat
    case Failure(e) => Failure(ReadFailed(e))
    case Success(contents) =>
      var version := TrimSpace(contents);
      if Matches(version) then
        MatchedEnds(version);
        Success(version)
      else Failure(NotAVersion(version))
  }

  /** Every version, padded with any white space, is accepted and returned bare. */
  lemma AcceptsPadded(pad1: string, v: Version, pad2: string)
    requires WellFormed(v)
    requires forall i :: 0 <= i < |pad1| ==> IsSpace(pad1[i])
    requires forall i :: 0 <= i < |pad2| ==> IsSpace(pad2[i])
    ensures ParseVersionFile(Success(pad1 + Render(v) + pad2)) == Success(Render(v))
  {
    MatchedEnds(Render(v));
    TrimPadded(pad1, Render(v), pad2, IsSpace);
  }

  /** A version the parser returns is accepted again as itself. */
  lemma Idempotent(dat: Result<string, string>)
    requires ParseVersionFile(dat).Success?
    ensures ParseVersionFile(Success(ParseVersionFile(dat).value)) == ParseVersionFile(dat)
  {
    var v := ParseVersionFile(dat).value;
    TrimSpaceFixed(v);
  }

  /** A version on a line of its own, as VERSION files are written, is accepted. */
  lemma AcceptsLine(v: Version, file: string)
    requires WellFormed(v) && file == Render(v) + "\n"
    ensures ParseVersionFile(Success(file)) == Success(Render(v))
  {
    RenderMatches(v);
    AcceptsTextLine(Render(v), file);
  }

  /** A matching text followed by one newline is accepted. */
  lemma AcceptsTextLine(t: string, file: string)
    requires InLanguage(t) && file == t + "\n"
    ensures ParseVersionFile(Success(file)) == Success(t)
  {
    MatchedEnds(t);
    assert file == [] + t + "\n";
    assert forall i :: 0 <= i < |"\n"| ==> IsSpace("\n"[i]);
    TrimPadded([], t, "\n", IsSpace);
  }

  /** The accepted files of parser_test.go: "1.0.0\n", "v2.3.4\n" and "1.0.0-beta.1\n". */
  lemma AcceptsPlainFile(file: string)
    requires file == "1.0.0\n"
    ensures ParseVersionFile(Success(file)) == Success("1.0.0")
  {
    RenderPlain();
    AcceptsLine(Version(false, "1", "0", "0", [], []), file);
  }

  lemma AcceptsPrefixedFile(file: string)
    requires file == "v2.3.4\n"
    ensures ParseVersionFile(Success(file)) == Success("v2.3.4")
  {
    RenderPrefixed();
    AcceptsLine(Version(true, "2", "3", "4", [], []), file);
  }

  lemma AcceptsPrereleaseFile(file: string)
    requires file == "1.0.0-beta.1\n"
    ensures ParseVersionFile(Success(file)) == Success("1.0.0-beta.1")
  {
    RenderPrerelease();
    AcceptsLine(Version(false, "1", "0", "0", ["beta", "1"], []), file);
  }

  /** A leading tab is white space and is trimmed. */
  lemma AcceptsLeadingTab(file: string)
    requires file == "\t1.0.0"
    ensures ParseVersionFile(Success(file)) == Success("1.0.0")
  {
    RenderPlain();
    var v := Version(false, "1", "0", "0", [], []);
    assert file == "\t" + Render(v) + "";
    AcceptsPadded("\t", v, "");
  }

  /** The refused files of parser_test.go: "not-a-version\n" and an empty line; and a missing file. */
  lemma RefusedFiles(cause: string)
    ensures ParseVersionFile(Success("not-a-version\n")) == Failure(NotAVersion("not-a-version"))
    ensures ParseVersionFile(Success("\n")) == Failure(NotAVersion(""))
    ensures ParseVersionFile(Failure(cause)) == Failure(ReadFailed(cause))
  {
    TrimPadded("", "not-a-version", "\n", IsSpace);
    assert "" + "not-a-version" + "\n" == "not-a-version\n";
    RejectsWord();
    RejectsEmpty();
    TrimAllCut("\n", IsSpace);
  }
}
