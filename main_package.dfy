/**
 * The root package's helpers: its own ParseVersionFile (util.go, and the copy in
 * helpers.go), which trims only newlines and then only spaces, and CreateMockDatabase.
 */
module MainPackage {
  import opened Wrappers
  import opened Models
  import opened Text
  import opened SemverRegex
  import opened VersionParser
  import MockDb
  import UserStore

  /**
   * ParseVersionFile of the root package: the read failure, or the contents with runs of
   * "\n" and then runs of " " taken off both ends when that forms a version, or a refusal
   * that does not name the text.
   */
  function ParseVersionFile(dat: Result<string, string>): (r: Result<string, VersionError>)
    ensures dat.Failure? ==> r == Failure(ReadFailed(dat.error))
    ensures dat.Success? ==> (r.Success? <==> InLanguage(Trim(Trim(dat.value, IsNewline), IsBlank)))
    ensures r.Success? ==> InLanguage(r.value)
    ensures r.Success? ==> exists m :: Surrounds(dat.value, m, IsNewline) && Surrounds(m, r.value, IsBlank)
    ensures dat.Success? && r.Failure? ==> r.error == NotAVersionNumber
  {
    match dat
    case Failure(e) => Failure(ReadFailed(e))
    case Success(contents) =>
      var lines := Trim(contents, IsNewline);
      var version := Trim(lines, IsBlank);
      if Matches(version) then
        Success(version)
      else Failure(NotAVersionNumber)
  }

  /** Once the two trims have left a version, it is returned. */
  lemma TrimmedToVersion(s: string, t: string)
    requires Trim(Trim(s, IsNewline), IsBlank) == t && InLanguage(t)
    ensures ParseVersionFile(Success(s)) == Success(t)
  {
  }

  /** Once the two trims have left anything else, the file is refused. */
  lemma TrimmedToOther(s: string, t: string)
    requires Trim(Trim(s, IsNewline), IsBlank) == t && !Matches(t)
    ensures ParseVersionFile(Success(s)) == Failure(NotAVersionNumber)
  {
  }

  /** A string no trim touches. */
  lemma Untrimmed(v: string)
    requires v != [] && !IsSpace(v[0]) && !IsSpace(v[|v| - 1])
    ensures Trim(v, IsNewline) == v && Trim(v, IsBlank) == v
  {
    assert !IsNewline(v[0]) && !IsNewline(v[|v| - 1]);
    TrimFixed(v, IsNewline);
    assert !IsBlank(v[0]) && !IsBlank(v[|v| - 1]);
    TrimFixed(v, IsBlank);
  }

  /** Spaces around a text that starts and ends with neither a space nor a newline. */
  lemma BlankPadded(sp1: string, t: string, sp2: string)
    requires t != [] && !IsSpace(t[0]) && !IsSpace(t[|t| - 1])
    requires forall i :: 0 <= i < |sp1| ==> IsBlank(sp1[i])
    requires forall i :: 0 <= i < |sp2| ==> IsBlank(sp2[i])
    ensures var line := sp1 + t + sp2; !IsNewline(line[0]) && !IsNewline(line[|line| - 1])
    ensures Trim(sp1 + t + sp2, IsBlank) == t
  {
    var line := sp1 + t + sp2;
    assert line[0] == (if sp1 != [] then sp1[0] else t[0]);
    assert line[|line| - 1] == (if sp2 != [] then sp2[|sp2| - 1] else t[|t| - 1]);
    TrimPadded(sp1, t, sp2, IsBlank);
  }

  /** Newlines around a line that starts and ends with something else. */
  lemma NewlinePadded(nl1: string, line: string, nl2: string)
    requires line != [] && !IsNewline(line[0]) && !IsNewline(line[|line| - 1])
    requires forall i :: 0 <= i < |nl1| ==> IsNewline(nl1[i])
    requires forall i :: 0 <= i < |nl2| ==> IsNewline(nl2[i])
    ensures Trim(nl1 + line + nl2, IsNewline) == line
  {
    TrimPadded(nl1, line, nl2, IsNewline);
  }

  /** Every version, inside spaces inside newlines, is accepted and returned bare. */
  lemma AcceptsPadded(nl1: string, sp1: string, t: string, sp2: string, nl2: string)
    requires InLanguage(t)
    requires forall i :: 0 <= i < |nl1| ==> IsNewline(nl1[i])
    requires forall i :: 0 <= i < |sp1| ==> IsBlank(sp1[i])
    requires forall i :: 0 <= i < |sp2| ==> IsBlank(sp2[i])
    requires forall i :: 0 <= i < |nl2| ==> IsNewline(nl2[i])
    ensures ParseVersionFile(Success(nl1 + (sp1 + t + sp2) + nl2)) == Success(t)
  {
    var line := sp1 + t + sp2;
    var file := nl1 + line + nl2;
    MatchedEnds(t);
    BlankPadded(sp1, t, sp2);
    NewlinePadded(nl1, line, nl2);
    TrimmedToVersion(file, t);
  }

  /** A version the parser returns is accepted again as itself. */
  lemma Idempotent(dat: Result<string, string>)
    requires ParseVersionFile(dat).Success?
    ensures ParseVersionFile(Success(ParseVersionFile(dat).value)) == ParseVersionFile(dat)
  {
    var v := ParseVersionFile(dat).value;
    MatchedEnds(v);
    Untrimmed(v);
    TrimmedToVersion(v, v);
  }

  /**
   * The root package's trimming is narrower than TrimSpace: whatever it accepts, the
   * pkg/version parser accepts too, with the same result.
   */
  lemma AcceptedByBoth(dat: Result<string, string>)
    requires ParseVersionFile(dat).Success?
    ensures VersionParser.ParseVersionFile(dat) == ParseVersionFile(dat)
  {
    var s := dat.value;
    var v := ParseVersionFile(dat).value;
    var pad1, pad2 := SpacePadding(s, v);
    MatchedEnds(v);
    TrimPadded(pad1, v, pad2, IsSpace);
    VersionParser.AcceptsPadded(pad1, Parse(v).value, pad2);
  }

  /** What the two trims take off is white space. */
  lemma SpacePadding(s: string, v: string) returns (pad1: string, pad2: string)
    requires exists m :: Surrounds(s, m, IsNewline) && Surrounds(m, v, IsBlank)
    ensures s == pad1 + v + pad2
    ensures forall k :: 0 <= k < |pad1| ==> IsSpace(pad1[k])
    ensures forall k :: 0 <= k < |pad2| ==> IsSpace(pad2[k])
  {
    var m :| Surrounds(s, m, IsNewline) && Surrounds(m, v, IsBlank);
    var n1, n2 := Peel(s, m, IsNewline);
    var b1, b2 := Peel(m, v, IsBlank);
    pad1, pad2 := n1 + b1, b2 + n2;
    assert s == pad1 + v + pad2;
    forall k | 0 <= k < |pad1| ensures IsSpace(pad1[k]) {
      if k < |n1| {
        assert IsNewline(n1[k]);
      } else {
        assert IsBlank(b1[k - |n1|]);
      }
    }
    forall k | 0 <= k < |pad2| ensures IsSpace(pad2[k]) {
      if k < |b2| {
        assert IsBlank(b2[k]);
      } else {
        assert IsNewline(n2[k - |b2|]);
      }
    }
  }

  /** The line a VERSION file holds is accepted. */
  lemma AcceptsLine(v: Version, file: string)
    requires WellFormed(v) && file == Render(v) + "\n"
    ensures ParseVersionFile(Success(file)) == Success(Render(v))
  {
    RenderMatches(v);
    AcceptsTextLine(Render(v), file);
  }

  /** A matching text followed by one newline is accepted. */
  lemma AcceptsTextLine(t: string, file: string)
    requires InLanguage(t) && file == t + "\n"
    ensures ParseVersionFile(Success(file)) == Success(t)
  {
    MatchedEnds(t);
    LineTrimmed(t, file);
    Untrimmed(t);
    TrimmedToVersion(file, t);
  }

  /** Taking the newlines off a line leaves the line. */
  lemma LineTrimmed(t: string, file: string)
    requires t != [] && !IsSpace(t[0]) && !IsSpace(t[|t| - 1])
    requires file == t + "\n"
    ensures Trim(file, IsNewline) == t
  {
    assert file == "" + t + "\n";
    assert !IsNewline(t[0]) && !IsNewline(t[|t| - 1]);
    TrimPadded("", t, "\n", IsNewline);
  }

  lemma AcceptsPlainFile(file: string)
    requires file == "1.0.0\n"
    ensures ParseVersionFile(Success(file)) == Success("1.0.0")
  {
    RenderPlain();
    AcceptsLine(Version(false, "1", "0", "0", [], []), file);
  }

  /** A file that starts with something other than "v" or a digit is refused. */
  lemma RefusesUntrimmedStart(file: string)
    requires file != [] && !IsNewline(file[0]) && !IsBlank(file[0])
    requires !IsNewline(file[|file| - 1]) && !IsBlank(file[|file| - 1])
    requires file[0] != 'v' && !IsDigit(file[0])
    ensures ParseVersionFile(Success(file)) == Failure(NotAVersionNumber)
  {
    TrimFixed(file, IsNewline);
    TrimFixed(file, IsBlank);
    RejectsNonDigitStart(file);
    TrimmedToOther(file, file);
  }

  /**
   * Only newlines and spaces are trimmed: a leading tab is kept, so the root package refuses
   * "\t1.0.0" where pkg/version accepts it.
   */
  lemma RefusesLeadingTab(file: string)
    requires file == "\t1.0.0"
    ensures ParseVersionFile(Success(file)) == Failure(NotAVersionNumber)
    ensures VersionParser.ParseVersionFile(Success(file)) == Success("1.0.0")
  {
    RefusesUntrimmedStart(file);
    VersionParser.AcceptsLeadingTab(file);
  }

  /**
   * The two trims run in one order: a space before a newline shields the newline, so
   * " \n1.0.0" is refused.
   */
  lemma RefusesSpaceBeforeNewline(file: string)
    requires file == " \n1.0.0"
    ensures ParseVersionFile(Success(file)) == Failure(NotAVersionNumber)
  {
    TrimFixed(file, IsNewline);
    var rest := file[1..];
    assert file == " " + rest + "";
    TrimPadded(" ", rest, "", IsBlank);
    RejectsNonDigitStart(rest);
    TrimmedToOther(file, rest);
  }

  /** CreateMockDatabase: users 0 and 1, each under its own id, and the counter at 1. */
  method CreateMockDatabase() returns (db: MockDb.MockDB)
    ensures fresh(db) && db.Valid()
    ensures db.userList == map[0 := UserStore.JohnDoe, 1 := UserStore.JaneDoe] && db.maxUserId == 1
    ensures (db.userList, db.maxUserId) == UserStore.CreateMockDataSet()
  {
    var list := map[];
    list := list[0 := User(0, "John", "Doe", Time("1985-12-31T00:00:00Z"), "London")];
    list := list[1 := User(1, "Jane", "Doe", Time("1992-01-01T00:00:00Z"), "Milton Keynes")];
    db := new MockDb.MockDB(list, 1);
  }

  /**
   * The user service's seed (CreateMockDataSet) is John Doe and Jane Doe under ids 0 and 1
   * with the counter at 1: the data CreateMockDatabase stores.
   */
  lemma SameSeed()
    ensures UserStore.CreateMockDataSet() == (map[0 := UserStore.JohnDoe, 1 := UserStore.JaneDoe], 1)
  {
  }
}
