/**
 * The prompt sections rendered from a pull-request record by
 * pipeline/analyze_pr.py (and its older copy scripts/analyze_pr.py, whose
 * renderers are the same code): the top-five file summary, the per-module
 * counts, the impact matrix with its risk classifier, the learning points and
 * the language instruction.
 */
module PromptSections {
  import opened Wrappers
  import opened Text
  import opened Sorting
  import opened Dicts
  import opened PrData
  import opened PathGroups
  import LanguageMarkers

  // ---------------------------------------------------------------------------
  // File-changes summary
  // ---------------------------------------------------------------------------

  const NoFileChangesLine := "- No file changes found in the PR data"

  /** The files the summaries and the impact matrix look at: the five largest by `key`, largest first. */
  function TopFiles(files: seq<FileChange>, key: FileChange -> int): (r: seq<FileChange>)
    ensures |r| <= 5 && |r| == if |files| < 5 then |files| else 5
    ensures SortedDesc(r, key)
  {
    TopK(files, key, 5);
    Take(SortDesc(files, key), 5)
  }

  /** One bullet `` - `name` (+A/-D) `` of the summary. */
  function SummaryLine(f: FileChange): string {
    "- `" + DisplayName(f) + "` (+" + NatToString(f.additions) + "/-" + NatToString(f.deletions) + ")"
  }

  function SummaryLines(fs: seq<FileChange>): (r: seq<string>)
    ensures |r| == |fs|
    ensures forall i :: 0 <= i < |fs| ==> r[i] == SummaryLine(fs[i])
  {
    if fs == [] then [] else [SummaryLine(fs[0])] + SummaryLines(fs[1..])
  }

  /**
   * `prepare_file_changes_summary`, and with `key` the `changes`-else-size
   * key also `PromptBuilder._prepare_file_changes_summary`: one bullet for
   * each of the five largest files, largest first, or a single fallback line.
   */
  function FileChangesSummary(files: seq<FileChange>, key: FileChange -> int): (r: string)
    ensures files == [] ==> r == NoFileChangesLine
    ensures files != [] ==> r == Join(SummaryLines(TopFiles(files, key)), "\n")
  {
    if files == [] then NoFileChangesLine
    else Join(SummaryLines(TopFiles(files, key)), "\n")
  }

  /**
   * The files of the summary are a largest-first selection: each one changes
   * at least as many lines as any file left out, and files of equal size
   * keep their input order.
   */
  lemma SummaryFilesAreLargest(files: seq<FileChange>, key: FileChange -> int, i: nat, j: nat)
    requires i < |TopFiles(files, key)| && j < |SortDesc(files, key)| && j >= 5
    ensures key(TopFiles(files, key)[i]) >= key(SortDesc(files, key)[j])
    ensures multiset(SortDesc(files, key)) == multiset(files)
  {
    TopK(files, key, 5);
    SortDescPermutes(files, key);
  }

  // ---------------------------------------------------------------------------
  // Architecture context
  // ---------------------------------------------------------------------------

  /** Two literals, so that the verifier can read the sentence's first character. */
  const NoModuleStructure := "No " + "clear module structure identified from the PR changes."

  /** One bullet `- **module**: N files modified` of the context. */
  function ModuleLine(m: (string, seq<string>)): string {
    "- **" + m.0 + "**: " + NatToString(|m.1|) + " files modified"
  }

  function ModuleLines(g: Dict<seq<string>>): (r: seq<string>)
    ensures |r| == |g|
    ensures forall i :: 0 <= i < |g| ==> r[i] == ModuleLine(g[i])
  {
    if g == [] then [] else [ModuleLine(g[0])] + ModuleLines(g[1..])
  }

  /** `generate_architecture_context` over the paths of the changed files. */
  function ArchitectureContext(files: seq<FileChange>): string {
    var g := Groups(Paths(files));
    if g == [] then NoModuleStructure
    else "The PR affects the following modules:\n" + Join(ModuleLines(g), "\n")
  }

  /**
   * The bullets of the architecture context: bullet `i` names a distinct
   * module whose count is the number of changed paths under it, and the
   * fallback sentence is used exactly when no path lies under a directory.
   */
  lemma ArchitectureCounts(files: seq<FileChange>)
    ensures var g := Groups(Paths(files));
      Distinct(Keys(g)) &&
      (forall i :: 0 <= i < |g| ==> g[i].1 == PathsUnder(Paths(files), g[i].0) && g[i].1 != []) &&
      (g == [] <==> forall p :: p in Paths(files) ==> TopDir(p).None?) &&
      (ArchitectureContext(files) == NoModuleStructure <==> g == [])
  {
    var ps := Paths(files);
    var g := Groups(ps);
    GroupsDistinct(ps);
    forall i | 0 <= i < |g| ensures g[i].1 == PathsUnder(ps, g[i].0) && g[i].1 != [] {
      GetAt(g, i);
      GroupsContents(ps, g[i].0);
    }
    if g == [] {
      forall p | p in ps ensures TopDir(p).None? {
        if TopDir(p).Some? {
          PathUnderItsModule(ps, p);
          GroupsContents(ps, TopDir(p).value);
        }
      }
    } else {
      GroupsContents(ps, g[0].0);
      GetAt(g, 0);
      assert PathsUnder(ps, g[0].0) != [];
      var p := PathsUnderWitness(ps, g[0].0);
    }
    if g != [] {
      var s := "The PR affects the following modules:\n" + Join(ModuleLines(g), "\n");
      assert s[0] == 'T';
      assert NoModuleStructure[0] == 'N';
    }
  }

  lemma {:induction false} PathUnderItsModule(ps: seq<string>, p: string)
    requires p in ps && TopDir(p).Some?
    ensures p in PathsUnder(ps, TopDir(p).value)
  {
    var last := ps[|ps| - 1];
    if p != last {
      assert p in ps[..|ps| - 1] by { var k :| 0 <= k < |ps| && ps[k] == p; assert k < |ps| - 1; assert ps[..|ps| - 1][k] == p; }
      PathUnderItsModule(ps[..|ps| - 1], p);
    }
  }

  /** Every path listed under a module is one of the input paths and lies in that module. */
  lemma {:induction false} PathsUnderWitness(ps: seq<string>, m: string) returns (p: string)
    requires PathsUnder(ps, m) != []
    ensures p in ps && TopDir(p) == Some(m)
  {
    var last := ps[|ps| - 1];
    if TopDir(last) == Some(m) {
      p := last;
    } else {
      p := PathsUnderWitness(ps[..|ps| - 1], m);
      assert p in ps[..|ps| - 1];
    }
  }

  /** A path has a module exactly when it contains a '/', and the module is the text before the first one. */
  lemma TopDirSlash(p: string)
    ensures TopDir(p).Some? <==> Contains(p, "/")
    ensures TopDir(p).Some? ==> IndexOf(p, "/").Some? && TopDir(p).value == p[..IndexOf(p, "/").value]
  {
    IndexOfContains(p, "/");
  }

  // ---------------------------------------------------------------------------
  // Impact matrix
  // ---------------------------------------------------------------------------

  datatype Risk = Low | Medium | High

  function RiskText(r: Risk): string {
    match r
    case Low => "Low"
    case Medium => "Medium"
    case High => "High"
  }

  /** The ordering Low < Medium < High. */
  function RiskRank(r: Risk): nat {
    match r
    case Low => 0
    case Medium => 1
    case High => 2
  }

  predicate EndsWithAny(s: string, suffixes: seq<string>) {
    exists i :: 0 <= i < |suffixes| && EndsWith(s, suffixes[i])
  }

  /** The `functionality` column of `analyze_file_impact`, chosen by extension. */
  function Functionality(name: string): string {
    if EndsWith(name, ".py") then "Python Logic"
    else if EndsWith(name, ".js") || EndsWith(name, ".ts") then "Frontend Logic"
    else if EndsWith(name, ".html") || EndsWith(name, ".css") then "UI/Presentation"
    else if EndsWith(name, ".md") || EndsWith(name, ".txt") then "Documentation"
    else if EndsWith(name, ".json") || EndsWith(name, ".yaml") || EndsWith(name, ".yml") then "Configuration"
    else if EndsWith(name, ".sql") then "Database"
    else if EndsWith(name, ".sh") then "Build/Deployment"
    else "Unknown"
  }

  const KnownExtensions := [".py", ".js", ".ts", ".html", ".css", ".md", ".txt", ".json", ".yaml", ".yml", ".sql", ".sh"]

  /** The functionality is "Unknown" exactly for a name with none of the recognised extensions. */
  lemma FunctionalityUnknown(name: string)
    ensures Functionality(name) == "Unknown" <==> !EndsWithAny(name, KnownExtensions)
  {
    var e := KnownExtensions;
    assert e[0] == ".py" && e[1] == ".js" && e[2] == ".ts" && e[3] == ".html" && e[4] == ".css" && e[5] == ".md";
    assert e[6] == ".txt" && e[7] == ".json" && e[8] == ".yaml" && e[9] == ".yml" && e[10] == ".sql" && e[11] == ".sh";
    if EndsWithAny(name, e) {
      var i :| 0 <= i < |e| && EndsWith(name, e[i]);
      assert Functionality(name) != "Unknown";
    } else {
      assert forall i :: 0 <= i < |e| ==> !EndsWith(name, e[i]);
    }
  }

  /** The `modules` column: the text before the first '/', or "Unknown" for a name without one. */
  function ModuleOf(name: string): (r: string)
    ensures r == if TopDir(name).Some? then TopDir(name).value else "Unknown"
  {
    var parts := SplitOn(name, "/");
    if |parts| > 1 then parts[0] else "Unknown"
  }

  /** The size part of the risk: more than 100 changed lines is High, more than 30 Medium. */
  function SizeRisk(total: int): Risk {
    if total > 100 then High else if total > 30 then Medium else Low
  }

  /** The `risk` column of `analyze_file_impact`: the size risk, overridden by the name. */
  function FileRisk(name: string, total: int): Risk {
    var lower := Lower(name);
    if Contains(lower, "test") then Low
    else if Contains(lower, "core") || Contains(lower, "main") then High
    else SizeRisk(total)
  }

  /**
   * The risk of a test file is Low whatever its size or other words; the risk
   * of another core/main file is High; any other file is classified by size,
   * and that classification never falls as the size grows.
   */
  lemma RiskRules(name: string, t1: int, t2: int)
    requires t1 <= t2
    ensures Contains(Lower(name), "test") ==> FileRisk(name, t1) == Low && FileRisk(name, t2) == Low
    ensures !Contains(Lower(name), "test") && (Contains(Lower(name), "core") || Contains(Lower(name), "main")) ==>
      FileRisk(name, t1) == High
    ensures RiskRank(FileRisk(name, t1)) <= RiskRank(FileRisk(name, t2))
    ensures !Contains(Lower(name), "test") && !Contains(Lower(name), "core") && !Contains(Lower(name), "main") ==>
      (FileRisk(name, t1) == High <==> t1 > 100) && (FileRisk(name, t1) == Low <==> t1 <= 30)
  {
  }

  function ImpactRow(f: FileChange): string {
    var name := DisplayName(f);
    "| `" + name + "` | +" + NatToString(f.additions) + "/-" + NatToString(f.deletions) + " | "
      + Functionality(name) + " | " + ModuleOf(name) + " | " + RiskText(FileRisk(name, LineDelta(f))) + " |"
  }

  function ImpactRows(fs: seq<FileChange>): (r: seq<string>)
    ensures |r| == |fs|
    ensures forall i :: 0 <= i < |fs| ==> r[i] == ImpactRow(fs[i])
  {
    if fs == [] then [] else [ImpactRow(fs[0])] + ImpactRows(fs[1..])
  }

  const NoFilesChangedRow := "| No files changed | - | - | - | - |"

  /** `generate_impact_matrix`: one table row for each of the five largest files. */
  function ImpactMatrix(files: seq<FileChange>): (r: string)
    ensures files == [] ==> r == NoFilesChangedRow
    ensures files != [] ==> r == Join(ImpactRows(TopFiles(files, LineDelta)), "\n")
  {
    if files == [] then NoFilesChangedRow
    else Join(ImpactRows(TopFiles(files, LineDelta)), "\n")
  }

  // ---------------------------------------------------------------------------
  // Learning points
  // ---------------------------------------------------------------------------

  /** `file.get('filename', '')`: the pattern checks ignore `path`. */
  function FilenameOrEmpty(f: FileChange): string {
    if f.filename.Some? then f.filename.value else ""
  }

  predicate SomeFileEndsWith(files: seq<FileChange>, suffixes: seq<string>) {
    exists i :: 0 <= i < |files| && EndsWithAny(FilenameOrEmpty(files[i]), suffixes)
  }

  const CodeSuffixes := [".py", ".js", ".ts", ".java", ".c", ".cpp"]
  const TestSuffixes := ["test.py", "test.js", "Test.java", "_test.go"]
  const DocSuffixes := [".md", ".txt", ".rst", ".adoc"]

  /** The technical concepts named by `identify_learning_points`. */
  function Patterns(files: seq<FileChange>): (r: seq<string>)
    ensures 1 <= |r| <= 3
    ensures "Testing strategies" in r <==> SomeFileEndsWith(files, TestSuffixes)
    ensures "Documentation practices" in r <==> SomeFileEndsWith(files, DocSuffixes)
    ensures "Implementation techniques" in r <==>
      SomeFileEndsWith(files, CodeSuffixes) || !(SomeFileEndsWith(files, TestSuffixes) || SomeFileEndsWith(files, DocSuffixes))
    ensures forall i, j :: 0 <= i < j < |r| ==> r[i] != r[j]
  {
    var p := (if SomeFileEndsWith(files, CodeSuffixes) then ["Implementation techniques"] else [])
      + (if SomeFileEndsWith(files, TestSuffixes) then ["Testing strategies"] else [])
      + (if SomeFileEndsWith(files, DocSuffixes) then ["Documentation practices"] else []);
    if p == [] then ["Implementation techniques"] else p
  }

  /** The most significant file: the first file of the largest-first order. */
  function MainFile(files: seq<FileChange>): FileChange
    requires files != []
  {
    SortDesc(files, LineDelta)[0]
  }

  /** The main file is the first of the input files with the largest change count. */
  lemma MainFileIsFirstLargest(files: seq<FileChange>) returns (i: nat)
    requires files != []
    ensures i < |files| && files[i] == MainFile(files)
    ensures forall j :: 0 <= j < |files| ==> LineDelta(files[j]) <= LineDelta(files[i])
    ensures forall j :: 0 <= j < i ==> LineDelta(files[j]) < LineDelta(files[i])
  {
    SortDescHead(files, LineDelta);
    i :| 0 <= i < |files| && files[i] == MainFile(files) &&
      (forall j :: 0 <= j < i ==> LineDelta(files[j]) < LineDelta(files[i]));
  }

  const NoLearningPoints := "No files changed, no learning points identified."

  const LastStep := "3. Look for related test files to understand validation approach"

  /** `identify_learning_points`: the most changed file first, the fixed closing step last. */
  function LearningPoints(files: seq<FileChange>): (r: string)
    ensures files == [] ==> r == NoLearningPoints
    ensures files != [] ==>
      StartsWith(r, "## Key Learning Points\n\n- **Main File**: `" + DisplayName(MainFile(files)) + "`") &&
      EndsWith(r, "\n" + LastStep)
  {
    if files == [] then NoLearningPoints
    else
      var main := MainFile(files);
      var name := DisplayName(main);
      var patterns := Patterns(files);
      var first := "1. Start by understanding the purpose of `" + name + "`";
      var second := "2. Examine the changes to identify the " + patterns[0] + " used";
      var lead := "## Key Learning Points\n\n- **Main File**: `" + name + "`";
      var middle := " (+" + NatToString(main.additions) + "/-" + NatToString(main.deletions)
        + ")\n- **Technical Concepts**: " + Join(patterns, ", ") + "\n"
        + "\n## Suggested Learning Path\n\n" + first + "\n" + second;
      assert Join([first, second, LastStep], "\n") == first + "\n" + (second + "\n" + LastStep) by {
        JoinCons(first, [second, LastStep], "\n");
        JoinCons(second, [LastStep], "\n");
      }
      Framed(lead, middle, "\n" + LastStep);
      lead + middle + ("\n" + LastStep)
  }

  // ---------------------------------------------------------------------------
  // Language instruction
  // ---------------------------------------------------------------------------

  const MultilingualNotice :=
    "\nMultilingual mode is now handled by making separate API calls for each language.\n"
    + "This instruction is for backward compatibility and should not be used directly.\n"

  /** The closing rule of every single-language instruction. */
  const NoCodeTranslation := "Never translate code snippets, variable names, function names, or code comments\n"

  const EnglishRules :=
    "2. For the \"Description Translation\" section, simply include the original PR description verbatim"
    + " without adding any notes like \"(Original English description preserved per instructions)\"\n3. "

  const TranslationRules :=
    "2. Keep widely recognized technical terms in English\n"
    + "3. For other terms, provide translation with English in parentheses\n"
    + "4. For complex concepts, explain in both languages for clarity\n5. "

  lemma Framed(a: string, b: string, c: string)
    ensures StartsWith(a + b + c, a) && EndsWith(a + b + c, c)
  {
    assert a + b + c == a + (b + c);
    assert (a + b + c)[|a + b|..] == c;
  }

  /** `prepare_language_instruction`: the rules for writing the report in one language. */
  function LanguageInstruction(lang: string): (r: string)
    ensures lang == "multilingual" ==> r == MultilingualNotice
    ensures lang != "multilingual" ==>
      StartsWith(r, "\nGenerate your analysis in " + LanguageMarkers.DisplayName(lang) + ".\n1. Use "
        + LanguageMarkers.DisplayName(lang) + " for all content except code and technical terms\n")
    ensures lang != "multilingual" ==> EndsWith(r, NoCodeTranslation)
  {
    if lang == "multilingual" then MultilingualNotice
    else
      var name := LanguageMarkers.DisplayName(lang);
      var head := "\nGenerate your analysis in " + name + ".\n1. Use " + name + " for all content except code and technical terms\n";
      var rules := if lang == "en" then EnglishRules else TranslationRules;
      Framed(head, rules, NoCodeTranslation);
      head + rules + NoCodeTranslation
  }
}
