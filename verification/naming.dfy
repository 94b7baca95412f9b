/**
 * Where reports and PR records are written: the repository directory name,
 * the month directory and date stamps, the report language in the file
 * name, and the collision-free choice of a numeric suffix
 * (`save_analysis_report` and `save_pr_info` in pipeline/, the timestamped
 * names of scripts/, `generate_output_path` and the multilingual report
 * path). The clock is a `Date` parameter; directory listings are parameters.
 * A path is the sequence of its components.
 */
module OutputNaming {
  import opened Wrappers
  import opened Text
  import opened PrData
  import LanguageMarkers

  // ---------------------------------------------------------------------------
  // Dates
  // ---------------------------------------------------------------------------

  datatype DateTime = DateTime(year: nat, month: nat, day: nat, hour: nat, minute: nat, second: nat)

  /** A clock reading with a four-digit year. */
  type Date = d: DateTime | 1000 <= d.year <= 9999 && 1 <= d.month <= 12 && 1 <= d.day <= 31 && d.hour < 24 && d.minute < 60 && d.second < 60
    witness DateTime(2000, 1, 1, 0, 0, 0)

  function Pow10(k: nat): nat {
    if k == 0 then 1 else 10 * Pow10(k - 1)
  }

  lemma {:induction false} NumeralLength(n: nat, k: nat)
    requires 0 < k && n < Pow10(k)
    ensures |NatToString(n)| <= k
  {
    if n >= 10 {
      assert k > 1;
      NumeralLength(n / 10, k - 1);
    }
  }

  function Zeros(k: nat): (r: string)
    ensures |r| == k && AllDigits(r)
  {
    if k == 0 then "" else "0" + Zeros(k - 1)
  }

  /** `%0<w>d`: the numeral of `n`, left-padded with zeros to `w` digits. */
  function Pad(n: nat, w: nat): (r: string)
    ensures AllDigits(r)
    ensures EndsWith(r, NatToString(n))
    ensures 0 < w && n < Pow10(w) ==> |r| == w
  {
    var t := NatToString(n);
    assert 0 < w && n < Pow10(w) ==> |t| <= w by {
      if 0 < w && n < Pow10(w) { NumeralLength(n, w); }
    }
    var z := Zeros(if |t| < w then w - |t| else 0);
    ConcatEnds(z, t);
    z + t
  }

  /** `%Y-%m` */
  function MonthDir(d: Date): (r: string)
    ensures |r| == 7 && r[4] == '-'
  {
    assert Pow10(4) == 10000 && Pow10(2) == 100;
    Pad(d.year, 4) + "-" + Pad(d.month, 2)
  }

  /** `%Y%m%d` */
  function DayStamp(d: Date): (r: string)
    ensures |r| == 8 && AllDigits(r)
  {
    assert Pow10(4) == 10000 && Pow10(2) == 100;
    Pad(d.year, 4) + Pad(d.month, 2) + Pad(d.day, 2)
  }

  /** `%Y%m%d_%H%M%S` */
  function TimeStamp(d: Date): (r: string)
    ensures |r| == 15 && StartsWith(r, DayStamp(d)) && r[8] == '_'
  {
    assert Pow10(2) == 100;
    ConcatEnds(DayStamp(d), "_" + Pad(d.hour, 2) + Pad(d.minute, 2) + Pad(d.second, 2));
    DayStamp(d) + "_" + Pad(d.hour, 2) + Pad(d.minute, 2) + Pad(d.second, 2)
  }

  /** The day stamp in a file name starts with the digits of its month directory. */
  lemma DayStampInMonth(d: Date)
    ensures DayStamp(d)[..6] == MonthDir(d)[..4] + MonthDir(d)[5..]
  {
    assert Pow10(4) == 10000 && Pow10(2) == 100;
    var y, m := Pad(d.year, 4), Pad(d.month, 2);
    assert DayStamp(d) == y + m + Pad(d.day, 2);
    assert MonthDir(d) == y + "-" + m;
    assert MonthDir(d)[..4] == y && MonthDir(d)[5..] == m;
    assert DayStamp(d)[..6] == y + m;
  }

  // ---------------------------------------------------------------------------
  // Names
  // ---------------------------------------------------------------------------

  /** `repo.split('/')[-1]`: the text after the last '/'. */
  function RepoName(repo: string): (r: string)
    ensures !Contains(r, "/")
    ensures EndsWith(repo, r)
  {
    SplitOnLastNoSep(repo, "/");
    SplitOnLastSuffix(repo, "/");
    Last(SplitOn(repo, "/"))
  }

  /** A one-character pattern occurs exactly where that character is. */
  lemma ContainsSlash(s: string)
    ensures Contains(s, "/") <==> '/' in s
  {
    if '/' in s {
      var i :| 0 <= i < |s| && s[i] == '/';
      assert s[i..][..1] == "/";
      assert OccursAt(s, "/", i);
    }
    if Contains(s, "/") {
      var j :| 0 <= j <= |s| && OccursAt(s, "/", j);
      assert s[j..][0] == '/';
    }
  }

  /** The name of "owner/name" is "name". */
  lemma RepoNameOwnerRepo(owner: string, name: string)
    requires '/' !in owner && '/' !in name
    ensures RepoName(owner + "/" + name) == name
  {
    var s := owner + "/" + name;
    var i := IndexOf(s, "/");
    assert OccursAt(s, "/", |owner|) by { assert s[|owner|..][..1] == "/"; }
    assert i.Some?;
    assert s[i.value..][0] == '/';
    assert forall j :: 0 <= j < |owner| ==> s[j] == owner[j];
    assert i.value == |owner|;
    assert s[..|owner|] == owner && s[|owner| + 1..] == name;
    ContainsSlash(name);
    IndexOfContains(name, "/");
    assert SplitOn(s, "/") == [owner] + SplitOn(name, "/");
  }

  /** `pr_data.get('repository', 'unknown')`, which must be a string to be split. */
  function RepositoryText(repository: Field<string>): Result<string> {
    match repository
    case Absent => Ok("unknown")
    case Null => Err(AttributeError("'NoneType' object has no attribute 'split'"))
    case Present(s) => Ok(s)
  }

  /** `pr_data.get('number', 'unknown')` as an f-string shows it. */
  function NumberText(number: Field<int>): string {
    match number
    case Absent => "unknown"
    case Null => "None"
    case Present(n) => IntToString(n)
  }

  /** The language in a report name: a code outside the marker registry becomes "en". */
  function ReportLanguage(code: string): (r: string)
    ensures LanguageMarkers.IsMarkedLanguage(r)
    ensures LanguageMarkers.IsMarkedLanguage(code) ==> r == code
    ensures !LanguageMarkers.IsMarkedLanguage(code) ==> r == "en"
  {
    if LanguageMarkers.IsMarkedLanguage(code) then code else "en"
  }

  // ---------------------------------------------------------------------------
  // The collision-free suffix
  // ---------------------------------------------------------------------------

  function Suffixed(base: string, k: nat, ext: string): string {
    base + "_" + NatToString(k) + ext
  }

  /** Distinct suffix numbers give distinct names. */
  lemma SuffixedInjective(base: string, j: nat, k: nat, ext: string)
    requires Suffixed(base, j, ext) == Suffixed(base, k, ext)
    ensures j == k
  {
    var a, b := Suffixed(base, j, ext), Suffixed(base, k, ext);
    var p := |base| + 1;
    assert a[p..|a| - |ext|] == NatToString(j);
    assert b[p..|b| - |ext|] == NatToString(k);
    NatToStringInjective(j, k);
  }

  /** The glob `<base>*<ext>` matches `x`. */
  predicate Globbed(x: string, base: string, ext: string) {
    |base| + |ext| <= |x| && StartsWith(x, base) && EndsWith(x, ext)
  }

  /** The names the directory glob matches. */
  function Matching(existing: set<string>, base: string, ext: string): set<string> {
    set x | x in existing && Globbed(x, base, ext)
  }

  /** The suffixed names tried before `k`. */
  function Tried(base: string, ext: string, k: nat): set<string> {
    set j | 1 <= j < k :: Suffixed(base, j, ext)
  }

  lemma TriedStep(base: string, ext: string, k: nat)
    requires k >= 1
    ensures Tried(base, ext, k + 1) == Tried(base, ext, k) + {Suffixed(base, k, ext)}
    ensures Suffixed(base, k, ext) !in Tried(base, ext, k)
  {
    if Suffixed(base, k, ext) in Tried(base, ext, k) {
      var j :| 1 <= j < k && Suffixed(base, j, ext) == Suffixed(base, k, ext);
      SuffixedInjective(base, j, k, ext);
    }
  }

  /** Trying a matched name takes it out of the untried matches. */
  lemma UntriedShrinks(matching: set<string>, base: string, ext: string, k: nat)
    requires k >= 1 && Suffixed(base, k, ext) in matching
    ensures matching - Tried(base, ext, k + 1) == (matching - Tried(base, ext, k)) - {Suffixed(base, k, ext)}
    ensures |matching - Tried(base, ext, k + 1)| < |matching - Tried(base, ext, k)|
  {
    TriedStep(base, ext, k);
  }

  /** Every suffixed name matches the glob, so for those names "matched" means "exists". */
  lemma SuffixedMatches(base: string, k: nat, ext: string, existing: set<string>)
    ensures Globbed(Suffixed(base, k, ext), base, ext)
    ensures Suffixed(base, k, ext) in Matching(existing, base, ext) <==> Suffixed(base, k, ext) in existing
  {
    ConcatEnds(base, "_" + NatToString(k) + ext);
    ConcatEnds(base + "_" + NatToString(k), ext);
  }

  /**
   * The name choice of `save_analysis_report` and `save_pr_info`: the plain
   * name when nothing matches the glob, otherwise the first `_k` (k >= 1)
   * that is not among the matches.
   */
  method ChooseFileName(base: string, ext: string, existing: set<string>) returns (name: string, ghost k: nat)
    ensures name !in existing
    ensures StartsWith(name, base) && EndsWith(name, ext)
    ensures Matching(existing, base, ext) == {} ==> name == base + ext && k == 0
    ensures Matching(existing, base, ext) != {} ==>
      k >= 1 && name == Suffixed(base, k, ext) &&
      forall j :: 1 <= j < k ==> Suffixed(base, j, ext) in existing
  {
    var matching := Matching(existing, base, ext);
    if matching == {} {
      name, k := base + ext, 0;
      ConcatEnds(base, ext);
      assert name !in matching;
      return;
    }
    var next := 1;
    name := Suffixed(base, next, ext);
    ghost var remaining := matching;
    SuffixedMatches(base, next, ext, existing);
    while name in matching
      invariant next >= 1 && name == Suffixed(base, next, ext)
      invariant name in matching <==> name in existing
      invariant Globbed(name, base, ext)
      invariant Tried(base, ext, next) <= existing
      invariant remaining == matching - Tried(base, ext, next)
      decreases |remaining|
    {
      TriedStep(base, ext, next);
      UntriedShrinks(matching, base, ext, next);
      remaining := remaining - {name};
      next := next + 1;
      name := Suffixed(base, next, ext);
      SuffixedMatches(base, next, ext, existing);
    }
    k := next;
    forall j | 1 <= j < k ensures Suffixed(base, j, ext) in existing {
      assert Suffixed(base, j, ext) in Tried(base, ext, k);
    }
  }

  // ---------------------------------------------------------------------------
  // The paths
  // ---------------------------------------------------------------------------

  /** `pr_<number>_<language>_<YYYYmmdd>` */
  function ReportBase(number: Field<int>, language: string, d: Date): string {
    "pr_" + NumberText(number) + "_" + ReportLanguage(language) + "_" + DayStamp(d)
  }

  /**
   * `save_analysis_report` of pipeline/analyze_pr.py: the directory
   * `<output>/<repo name>/<YYYY-mm>` and a name not among `existing`, the
   * names already in that directory.
   */
  method ReportPath(outputDir: seq<string>, repository: Field<string>, number: Field<int>, language: string, d: Date, existing: set<string>)
    returns (r: Result<seq<string>>)
    ensures RepositoryText(repository).Err? <==> r.Err?
    ensures r.Ok? ==>
      |r.value| == |outputDir| + 3 && r.value[..|outputDir|] == outputDir &&
      r.value[|outputDir|] == RepoName(RepositoryText(repository).value) &&
      r.value[|outputDir| + 1] == MonthDir(d) &&
      r.value[|outputDir| + 2] !in existing &&
      StartsWith(r.value[|outputDir| + 2], ReportBase(number, language, d))
  {
    var repo := RepositoryText(repository);
    if repo.Err? {
      return Err(repo.error);
    }
    var base := ReportBase(number, language, d);
    var name, _ := ChooseFileName(base, ".md", existing);
    r := Ok(outputDir + [RepoName(repo.value), MonthDir(d), name]);
  }

  /** `pr_<number>_<YYYYmmdd>`, the base of `save_pr_info` in pipeline/fetch_pr_info.py. */
  function PrInfoBase(number: string, d: Date): (r: string)
    ensures StartsWith(r, "pr_" + number + "_") && EndsWith(r, DayStamp(d))
  {
    ConcatEnds("pr_" + number + "_", DayStamp(d));
    "pr_" + number + "_" + DayStamp(d)
  }

  /**
   * The name `save_pr_info` of pipeline/fetch_pr_info.py gives the JSON
   * record: `pr_<number>_<YYYYmmdd>.json`, or the first free `_k` suffix.
   */
  method PrInfoFileName(number: string, d: Date, existing: set<string>) returns (name: string)
    ensures name !in existing
    ensures StartsWith(name, PrInfoBase(number, d)) && EndsWith(name, ".json")
    ensures Matching(existing, PrInfoBase(number, d), ".json") == {} ==> name == PrInfoBase(number, d) + ".json"
    ensures Matching(existing, PrInfoBase(number, d), ".json") != {} ==>
      exists k: nat :: k >= 1 && name == Suffixed(PrInfoBase(number, d), k, ".json") &&
        forall j :: 1 <= j < k ==> Suffixed(PrInfoBase(number, d), j, ".json") in existing
  {
    ghost var k;
    name, k := ChooseFileName(PrInfoBase(number, d), ".json", existing);
  }

  /**
   * `generate_output_path`: `<output>/<repo name>/<YYYY-mm>/pr_<n>[_<lang>]_<YYYYmmdd>.<ext>`.
   * Nothing depends on the files already there, so the same inputs on the
   * same day name the same file.
   */
  function OutputPath(outputDir: seq<string>, repo: string, number: string, extension: string, language: Option<string>, d: Date): (r: seq<string>)
    ensures |r| == |outputDir| + 3 && r[..|outputDir|] == outputDir
    ensures r[|outputDir|] == RepoName(repo) && r[|outputDir| + 1] == MonthDir(d)
    ensures language.Some? && language.value != "" ==> r[|outputDir| + 2] == "pr_" + number + "_" + language.value + "_" + DayStamp(d) + "." + extension
    ensures language.None? || language.value == "" ==> r[|outputDir| + 2] == "pr_" + number + "_" + DayStamp(d) + "." + extension
  {
    var filename :=
      if language.Some? && language.value != "" then "pr_" + number + "_" + language.value + "_" + DayStamp(d) + "." + extension
      else "pr_" + number + "_" + DayStamp(d) + "." + extension;
    outputDir + [RepoName(repo), MonthDir(d), filename]
  }

  /** The date in a generated file name lies in the month directory it is put in. */
  lemma OutputPathMonth(outputDir: seq<string>, repo: string, number: string, extension: string, d: Date)
    ensures var r := OutputPath(outputDir, repo, number, extension, None, d);
      var name := r[|outputDir| + 2];
      var dir := r[|outputDir| + 1];
      name[|number| + 4..|number| + 10] == dir[..4] + dir[5..]
  {
    var name := "pr_" + number + "_" + DayStamp(d) + "." + extension;
    assert name[|number| + 4..|number| + 12] == DayStamp(d);
    assert name[|number| + 4..|number| + 10] == DayStamp(d)[..6];
    DayStampInMonth(d);
  }

  /**
   * scripts/fetch_pr_info.py: the directory `<root>/output/<repo name>`.
   * `pathlib` drops an empty or "." name (a repository ending in '/', say),
   * which leaves `<root>/output`.
   */
  function ScriptsOutputDir(projectRoot: seq<string>, repo: string): (r: seq<string>)
    ensures |r| == |projectRoot| + 1 || |r| == |projectRoot| + 2
    ensures r[..|projectRoot|] == projectRoot && r[|projectRoot|] == "output"
    ensures |r| == |projectRoot| + 2 <==> RepoName(repo) != "" && RepoName(repo) != "."
    ensures |r| == |projectRoot| + 2 ==>
      var name := r[|projectRoot| + 1];
      name != "" && !Contains(name, "/") && EndsWith(repo, name)
  {
    var name := RepoName(repo);
    projectRoot + ["output"] + (if name == "" || name == "." then [] else [name])
  }

  /** "owner/name" gets the directory `<root>/output/name`. */
  lemma ScriptsOutputDirOwnerRepo(projectRoot: seq<string>, owner: string, name: string)
    requires '/' !in owner && '/' !in name && name != "" && name != "."
    ensures ScriptsOutputDir(projectRoot, owner + "/" + name) == projectRoot + ["output", name]
  {
    RepoNameOwnerRepo(owner, name);
  }

  /** scripts/fetch_pr_info.py: `pr_<n>_<YYYYmmdd_HHMMSS>.json`. */
  function ScriptsPrInfoName(number: string, d: Date): (r: string)
    ensures StartsWith(r, "pr_" + number + "_" + DayStamp(d)) && EndsWith(r, ".json")
    ensures |r| == |number| + 24
  {
    var r := "pr_" + number + "_" + TimeStamp(d) + ".json";
    assert r == ("pr_" + number + "_" + DayStamp(d)) + (TimeStamp(d)[8..] + ".json") by {
      assert TimeStamp(d) == DayStamp(d) + TimeStamp(d)[8..];
    }
    ConcatEnds("pr_" + number + "_" + DayStamp(d), TimeStamp(d)[8..] + ".json");
    ConcatEnds("pr_" + number + "_" + TimeStamp(d), ".json");
    r
  }

  /** scripts/analyze_pr.py: `<output>/<repo name>/<YYYY-mm>/pr_<n>_<lang>_<YYYYmmdd_HHMMSS>.md`, the language as given. */
  function ScriptsReportPath(outputDir: seq<string>, repository: Field<string>, number: Field<int>, language: string, d: Date): (r: Result<seq<string>>)
    ensures RepositoryText(repository).Err? <==> r.Err?
    ensures r.Ok? ==>
      |r.value| == |outputDir| + 3 && r.value[..|outputDir|] == outputDir &&
      r.value[|outputDir|] == RepoName(RepositoryText(repository).value) &&
      r.value[|outputDir| + 1] == MonthDir(d)
    ensures r.Ok? ==>
      var name := r.value[|outputDir| + 2];
      StartsWith(name, "pr_" + NumberText(number) + "_" + language + "_" + DayStamp(d)) &&
      EndsWith(name, ".md") && |name| == |NumberText(number)| + |language| + 23
  {
    match RepositoryText(repository)
    case Err(e) => Err(e)
    case Ok(repo) =>
      var prefix := "pr_" + NumberText(number) + "_" + language + "_";
      var name := prefix + TimeStamp(d) + ".md";
      assert name == (prefix + DayStamp(d)) + (TimeStamp(d)[8..] + ".md") by {
        assert TimeStamp(d) == DayStamp(d) + TimeStamp(d)[8..];
      }
      ConcatEnds(prefix + DayStamp(d), TimeStamp(d)[8..] + ".md");
      ConcatEnds(prefix + TimeStamp(d), ".md");
      Ok(outputDir + [RepoName(repo), MonthDir(d), name])
  }

  // ---------------------------------------------------------------------------
  // The multilingual report path
  // ---------------------------------------------------------------------------

  /** `sorted(names)[-1]`: the greatest name. */
  function Greatest(names: seq<string>): (r: string)
    requires names != []
    ensures r in names
    ensures forall i :: 0 <= i < |names| ==> StrLe(names[i], r)
  {
    if |names| == 1 then
      StrLeRefl(names[0]);
      names[0]
    else
      var m := Greatest(names[..|names| - 1]);
      var x := names[|names| - 1];
      StrLeTotal(m, x);
      if StrLe(m, x) then
        StrLeRefl(x);
        forall i | 0 <= i < |names| - 1 ensures StrLe(names[i], x) {
          assert names[i] == names[..|names| - 1][i];
          StrLeTrans(names[i], m, x);
        }
        x
      else
        assert forall i :: 0 <= i < |names| - 1 ==> names[i] == names[..|names| - 1][i];
        m
  }

  lemma {:induction false} StrLeRefl(a: string)
    ensures StrLe(a, a)
    decreases |a|
  {
    if a != [] {
      StrLeRefl(a[1..]);
    }
  }

  /**
   * `_generate_multilingual_path`: the latest month directory of the
   * repository (`monthDirs`, the sub-directories found there) and
   * `pr_<n>_multilingual.md`; with no month directory, FileNotFoundError.
   */
  function MultilingualPath(outputDir: seq<string>, repo: string, number: string, monthDirs: seq<string>): (r: Result<seq<string>>)
    ensures monthDirs == [] <==> r.Err?
    ensures r.Err? ==> r.error.FileNotFoundError?
    ensures r.Ok? ==>
      |r.value| == |outputDir| + 3 && r.value[|outputDir| + 1] in monthDirs &&
      (forall i :: 0 <= i < |monthDirs| ==> StrLe(monthDirs[i], r.value[|outputDir| + 1])) &&
      r.value[|outputDir| + 2] == "pr_" + number + "_multilingual.md"
  {
    if monthDirs == [] then Err(FileNotFoundError("No month directories found for " + repo))
    else Ok(outputDir + [RepoName(repo), Greatest(monthDirs), "pr_" + number + "_multilingual.md"])
  }
}
