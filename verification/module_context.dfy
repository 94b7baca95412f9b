/**
 * The module context of pipeline/fetch_pr_info.py: the changed files
 * grouped by their first directory (`fetch_module_context`), the names
 * found in a module's key files (`analyze_module_structure`), the text
 * given to the prompt (`format_module_context`, also in
 * pipeline/analyze_pr.py) and the contents of the changed files
 * (`fetch_modified_file_contents`). Which key files a module has, and what
 * reading a changed file gives, are inputs.
 */
module ModuleContext {
  import opened Wrappers
  import opened Text
  import opened Dicts
  import opened PrData
  import opened PathGroups
  import opened PromptSections

  // ---------------------------------------------------------------------------
  // Names in a key file
  // ---------------------------------------------------------------------------

  /**
   * One of the three patterns of `analyze_module_structure`, read in
   * MULTILINE mode: at the start of a line one of `keywords`, then at least
   * one whitespace character, then the captured name, a run of characters
   * that are neither whitespace nor in `stops`.
   */
  datatype Pattern = Pattern(keywords: seq<string>, stops: seq<char>)

  /** `^(?:import|from)\s+([^\s;]+)` */
  const ImportPattern := Pattern(["import", "from"], [';'])
  /** `^class\s+([^\s(:]+)` */
  const ClassPattern := Pattern(["class"], ['(', ':'])
  /** `^def\s+([^\s(]+)` */
  const DefPattern := Pattern(["def"], ['('])

  predicate NameChar(c: char, pat: Pattern) {
    !IsSpace(c) && c !in pat.stops
  }

  /** The length of the run of name characters that starts `t`. */
  function NameLength(t: string, pat: Pattern): (n: nat)
    ensures n <= |t|
    ensures forall i :: 0 <= i < n ==> NameChar(t[i], pat)
    ensures n < |t| ==> !NameChar(t[n], pat)
  {
    if t != [] && NameChar(t[0], pat) then
      var m := NameLength(t[1..], pat);
      assert forall i :: 1 <= i < 1 + m ==> t[i] == t[1..][i - 1];
      1 + m
    else 0
  }

  /** `^` in MULTILINE mode: the start of the text or just after a '\n'. */
  predicate LineStart(s: string, p: int) {
    p == 0 || (0 < p <= |s| && s[p - 1] == '\n')
  }

  /** The name captured when keyword `k` occurs at `p`, and where the match ends. */
  function MatchKeyword(s: string, p: nat, k: string, pat: Pattern): (r: Option<(string, nat)>)
    requires p <= |s|
    ensures r.Some? ==> p < r.value.1 <= |s| && r.value.0 != []
    ensures r.Some? ==> forall i :: 0 <= i < |r.value.0| ==> NameChar(r.value.0[i], pat)
    ensures r.Some? ==> k <= s[p..]
  {
    if k != [] && k <= s[p..] then
      var q := p + |k|;
      var w := LeadingSpaces(s[q..]);
      var n := NameLength(s[q + w..], pat);
      if w > 0 && n > 0 then
        assert s[q + w..q + w + n] == s[q + w..][..n];
        Some((s[q + w..q + w + n], q + w + n))
      else None
    else None
  }

  /** The alternatives tried in order. */
  function MatchAt(s: string, p: nat, pat: Pattern, ks: seq<string>): (r: Option<(string, nat)>)
    requires p <= |s|
    ensures r.Some? ==> p < r.value.1 <= |s| && r.value.0 != []
    ensures r.Some? ==> forall i :: 0 <= i < |r.value.0| ==> NameChar(r.value.0[i], pat)
    ensures r.Some? ==> exists k :: k in ks && k <= s[p..]
  {
    if ks == [] then None
    else
      var m := MatchKeyword(s, p, ks[0], pat);
      if m.Some? then assert ks[0] in ks; m
      else
        var r := MatchAt(s, p, pat, ks[1..]);
        assert r.Some? ==> exists k :: k in ks && k <= s[p..] by {
          if r.Some? {
            var k :| k in ks[1..] && k <= s[p..];
            assert k in ks;
          }
        }
        r
  }

  /** `re.findall(pattern, s, re.MULTILINE)` from position `p`: the names, left to right, matches not overlapping. */
  function Findall(s: string, p: nat, pat: Pattern): seq<string>
    requires p <= |s|
    decreases |s| - p
  {
    if p == |s| then []
    else
      var m := if LineStart(s, p) then MatchAt(s, p, pat, pat.keywords) else None;
      if m.Some? then [m.value.0] + Findall(s, m.value.1, pat)
      else Findall(s, p + 1, pat)
  }

  /** Every name found is non-empty and made of name characters. */
  lemma {:induction false} FindallNames(s: string, p: nat, pat: Pattern)
    requires p <= |s|
    ensures forall c :: c in Findall(s, p, pat) ==> c != [] && forall i :: 0 <= i < |c| ==> NameChar(c[i], pat)
    decreases |s| - p
  {
    if p < |s| {
      var m := if LineStart(s, p) then MatchAt(s, p, pat, pat.keywords) else None;
      if m.Some? {
        FindallNames(s, m.value.1, pat);
      } else {
        FindallNames(s, p + 1, pat);
      }
    }
  }

  /**
   * Only lines that begin with a keyword are read: when no line from `p`
   * on starts with one (an indented `def` does not), nothing is found.
   */
  lemma {:induction false} FindallAnchored(s: string, p: nat, pat: Pattern)
    requires p <= |s|
    requires forall q, k :: p <= q <= |s| && LineStart(s, q) && k in pat.keywords ==> !(k <= s[q..])
    ensures Findall(s, p, pat) == []
    decreases |s| - p
  {
    if p < |s| {
      FindallAnchored(s, p + 1, pat);
    }
  }

  /** The names found by `pat` in each key file, in the order of the files. */
  function Found(files: Dict<string>, pat: Pattern): seq<string> {
    if files == [] then []
    else Found(files[..|files| - 1], pat) + Findall(files[|files| - 1].1, 0, pat)
  }

  /** The list without its repetitions, each kept where it first occurs. */
  function Dedupe(xs: seq<string>): (r: seq<string>)
    ensures Distinct(r)
    ensures forall x :: x in r <==> x in xs
  {
    if xs == [] then []
    else
      var init := Dedupe(xs[..|xs| - 1]);
      assert forall x :: x in xs <==> x in xs[..|xs| - 1] || x == xs[|xs| - 1];
      if xs[|xs| - 1] in init then init else init + [xs[|xs| - 1]]
  }

  /**
   * `list(set(xs))[:10]`: at most ten of the names, none twice, all of them
   * when there are at most ten different ones.
   */
  function Limited(xs: seq<string>): (r: seq<string>)
    ensures |r| <= 10 && Distinct(r)
    ensures forall x :: x in r ==> x in xs
    ensures |Dedupe(xs)| <= 10 ==> forall x :: x in xs ==> x in r
  {
    var d := Dedupe(xs);
    if |d| <= 10 then d else d[..10]
  }

  /** The `structure` of a module. */
  datatype Structure = Structure(imports: seq<string>, classes: seq<string>, functions: seq<string>)

  /** `analyze_module_structure`: the names in the key files, each list without repetitions and cut to ten. */
  method AnalyzeModuleStructure(keyFiles: Dict<string>) returns (s: Structure)
    ensures s == Structure(Limited(Found(keyFiles, ImportPattern)), Limited(Found(keyFiles, ClassPattern)), Limited(Found(keyFiles, DefPattern)))
  {
    var imports: seq<string> := [];
    var classes: seq<string> := [];
    var functions: seq<string> := [];
    var i := 0;
    while i < |keyFiles|
      invariant 0 <= i <= |keyFiles|
      invariant imports == Found(keyFiles[..i], ImportPattern)
      invariant classes == Found(keyFiles[..i], ClassPattern)
      invariant functions == Found(keyFiles[..i], DefPattern)
    {
      assert keyFiles[..i + 1][..i] == keyFiles[..i];
      var content := keyFiles[i].1;
      imports := imports + Findall(content, 0, ImportPattern);
      classes := classes + Findall(content, 0, ClassPattern);
      functions := functions + Findall(content, 0, DefPattern);
      i := i + 1;
    }
    assert keyFiles[..i] == keyFiles;
    s := Structure(Limited(imports), Limited(classes), Limited(functions));
  }

  /** A method indented inside a class is not listed as a function. */
  lemma IndentedDefSkipped()
    ensures Findall("class A:\n  def f", 0, DefPattern) == []
  {
    var s := "class A:\n  def f";
    forall q, k | 0 <= q <= |s| && LineStart(s, q) && k in DefPattern.keywords
      ensures !(k <= s[q..])
    {
      assert q == 0 || q == 9;
      assert k == "def";
      assert s[q..][0] == s[q] != 'd';
    }
    FindallAnchored(s, 0, DefPattern);
  }

  /** A class at the start of a line is listed by its name, without the colon. */
  lemma ClassNameCaptured()
    ensures Findall("class A:", 0, ClassPattern) == ["A"]
  {
    var s := "class A:";
    assert s[0..] == s && "class" <= s;
    assert LeadingSpaces(s[5..]) == 1;
    assert NameLength(s[6..], ClassPattern) == 1;
    assert s[6..7] == ['A'];
    assert MatchKeyword(s, 0, "class", ClassPattern) == Some((['A'], 7));
    assert MatchAt(s, 0, ClassPattern, ClassPattern.keywords) == Some((['A'], 7));
    assert Findall(s, 7, ClassPattern) == Findall(s, 8, ClassPattern) == [];
  }

  // ---------------------------------------------------------------------------
  // Grouping
  // ---------------------------------------------------------------------------

  /** `module.lower() in ['docs', 'tests', 'test', 'examples', '.github']` */
  predicate Denied(m: string) {
    Lower(m) in ["docs", "tests", "test", "examples", ".github"]
  }

  /** What is stored for one module. */
  datatype ModuleInfo = ModuleInfo(modifiedFiles: seq<string>, keyFiles: Dict<string>, structure: Structure)

  datatype Context = Context(modules: Dict<ModuleInfo>, summary: string)

  const NoStructure := "No clear module structure identified"

  function StructureOf(keyFiles: Dict<string>): Structure {
    Structure(Limited(Found(keyFiles, ImportPattern)), Limited(Found(keyFiles, ClassPattern)), Limited(Found(keyFiles, DefPattern)))
  }

  /** The modules that are kept, in the order of `groups`, with what is stored for each. */
  function Kept(groups: Dict<seq<string>>, keyFilesFor: string -> Dict<string>): Dict<ModuleInfo> {
    if groups == [] then []
    else
      var g := groups[|groups| - 1];
      Kept(groups[..|groups| - 1], keyFilesFor)
        + (if Denied(g.0) then [] else [(g.0, ModuleInfo(g.1, keyFilesFor(g.0), StructureOf(keyFilesFor(g.0))))])
  }

  /** The modules kept are those of `groups` outside the denylist. */
  lemma {:induction false} KeptKeys(groups: Dict<seq<string>>, keyFilesFor: string -> Dict<string>)
    ensures forall k :: k in Keys(Kept(groups, keyFilesFor)) <==> k in Keys(groups) && !Denied(k)
  {
    if groups != [] {
      var n := |groups| - 1;
      var g := groups[n];
      KeptKeys(groups[..n], keyFilesFor);
      KeysAppend(Kept(groups[..n], keyFilesFor), if Denied(g.0) then [] else [(g.0, ModuleInfo(g.1, keyFilesFor(g.0), StructureOf(keyFilesFor(g.0))))]);
      assert groups == groups[..n] + [g];
      KeysAppend(groups[..n], [g]);
    }
  }

  /** Each kept module is stored with its group's files and its key files. */
  lemma {:induction false} KeptValues(groups: Dict<seq<string>>, keyFilesFor: string -> Dict<string>)
    ensures forall e :: e in Kept(groups, keyFilesFor) ==> (e.0, e.1.modifiedFiles) in groups && !Denied(e.0) && e.1.keyFiles == keyFilesFor(e.0)
  {
    if groups != [] {
      var n := |groups| - 1;
      KeptValues(groups[..n], keyFilesFor);
      assert forall e :: e in groups[..n] ==> e in groups;
    }
  }

  function Summary(modules: Dict<ModuleInfo>): string {
    "Fetched context for " + NatToString(|modules|) + " modules: " + Join(Keys(modules), ", ")
  }

  /**
   * `fetch_module_context`: the changed files grouped by module; the modules
   * on the denylist dropped; for each other module its files, its key files
   * and their structure; and a summary naming the modules kept.
   */
  method FetchModuleContext(files: seq<FileChange>, keyFilesFor: string -> Dict<string>) returns (ctx: Context)
    ensures Groups(Paths(files)) == [] ==> ctx == Context([], NoStructure)
    ensures Groups(Paths(files)) != [] ==> ctx == Context(Kept(Groups(Paths(files)), keyFilesFor), Summary(ctx.modules))
    ensures ctx.modules == Kept(Groups(Paths(files)), keyFilesFor)
  {
    var paths := Paths(files);
    var modules := GroupPaths(paths);
    if modules == [] {
      return Context([], NoStructure);
    }
    var kept: Dict<ModuleInfo> := [];
    var i := 0;
    while i < |modules|
      invariant 0 <= i <= |modules|
      invariant kept == Kept(modules[..i], keyFilesFor)
    {
      assert modules[i].0 !in Keys(modules[..i]) by {
        GroupsDistinct(paths);
        assert forall j :: 0 <= j < i ==> Keys(modules)[j] != Keys(modules)[i];
      }
      KeptStep(modules, i, keyFilesFor);
      var name := modules[i].0;
      if !Denied(name) {
        var keyFiles := keyFilesFor(name);
        var structure := AnalyzeModuleStructure(keyFiles);
        kept := Put(kept, name, ModuleInfo(modules[i].1, keyFiles, structure));
      }
      i := i + 1;
    }
    assert modules[..i] == modules;
    ctx := Context(kept, Summary(kept));
  }

  /** One pass of the module loop: a module outside the denylist is a new key, stored after the earlier ones. */
  lemma KeptStep(modules: Dict<seq<string>>, i: nat, keyFilesFor: string -> Dict<string>)
    requires i < |modules| && modules[i].0 !in Keys(modules[..i])
    ensures var kept := Kept(modules[..i], keyFilesFor);
      var name := modules[i].0;
      var info := ModuleInfo(modules[i].1, keyFilesFor(name), StructureOf(keyFilesFor(name)));
      Kept(modules[..i + 1], keyFilesFor) == if Denied(name) then kept else Put(kept, name, info)
  {
    var prefix := modules[..i + 1];
    assert prefix[..|prefix| - 1] == modules[..i] && prefix[|prefix| - 1] == modules[i];
    var name := modules[i].0;
    var info := ModuleInfo(modules[i].1, keyFilesFor(name), StructureOf(keyFilesFor(name)));
    assert Kept(prefix, keyFilesFor) == Kept(modules[..i], keyFilesFor) + (if Denied(name) then [] else [(name, info)]);
    if !Denied(name) {
      KeptKeys(modules[..i], keyFilesFor);
      PutNew(Kept(modules[..i], keyFilesFor), name, info);
    }
  }

  /**
   * The modules of the context are exactly the grouped modules outside the
   * denylist; each lists the changed files under it, in input order.
   */
  lemma ContextModules(files: seq<FileChange>, keyFilesFor: string -> Dict<string>)
    ensures forall k :: k in Keys(Kept(Groups(Paths(files)), keyFilesFor)) <==> k in Keys(Groups(Paths(files))) && !Denied(k)
    ensures forall e :: e in Kept(Groups(Paths(files)), keyFilesFor) ==>
      !Denied(e.0) && e.1.modifiedFiles == PathsUnder(Paths(files), e.0) && e.1.modifiedFiles != []
  {
    var g := Groups(Paths(files));
    KeptKeys(g, keyFilesFor);
    KeptValues(g, keyFilesFor);
    GroupsDistinct(Paths(files));
    forall e | e in Kept(g, keyFilesFor)
      ensures !Denied(e.0) && e.1.modifiedFiles == PathsUnder(Paths(files), e.0) && e.1.modifiedFiles != []
    {
      assert e.0 in Keys(Kept(g, keyFilesFor));
      var j :| 0 <= j < |g| && g[j] == (e.0, e.1.modifiedFiles);
      GetAt(g, j);
      GroupsContents(Paths(files), e.0);
    }
  }

  /** No directory on the denylist, in any letter case, is ever a module of the context. */
  lemma DeniedNeverKept(files: seq<FileChange>, keyFilesFor: string -> Dict<string>)
    ensures forall k :: k in Keys(Kept(Groups(Paths(files)), keyFilesFor)) ==> Lower(k) !in ["docs", "tests", "test", "examples", ".github"]
  {
    KeptKeys(Groups(Paths(files)), keyFilesFor);
  }

  // ---------------------------------------------------------------------------
  // The prompt text
  // ---------------------------------------------------------------------------

  const NoModuleContext := "No module context available."

  /** A key file's content, cut to 500 characters with a notice. */
  function Snippet(content: string): (r: string)
    ensures |content| <= 500 ==> r == content
    ensures |content| > 500 ==> r == content[..500] + "...\n[content truncated]"
  {
    if |content| > 500 then content[..500] + "...\n[content truncated]" else content
  }

  function KeyFileLines(keyFiles: Dict<string>): (r: seq<string>)
    ensures |r| == |keyFiles|
    ensures forall l :: l in r ==> |l| > 1 && l[..2] == "\n`"
  {
    if keyFiles == [] then []
    else ["\n`" + keyFiles[0].0 + "`:\n```\n" + Snippet(keyFiles[0].1) + "\n```"] + KeyFileLines(keyFiles[1..])
  }

  /** The heading and the lists of names of a module's section. */
  function HeadLines(name: string, s: Structure): (r: seq<string>)
    ensures 1 <= |r| <= 4 && r[0] == "### Module: " + name
    ensures forall l :: l in r ==> l != [] && l[0] != '\n'
  {
    ["### Module: " + name]
      + (if s.classes != [] then ["**Classes**: " + Join(s.classes, ", ")] else [])
      + (if s.functions != [] then ["**Functions**: " + Join(s.functions, ", ")] else [])
      + (if s.imports != [] then ["**Dependencies**: " + Join(s.imports, ", ")] else [])
  }

  /** The first two key files, under their own heading, when there are any. */
  function KeyFilesPart(keyFiles: Dict<string>): (r: seq<string>)
    ensures |r| <= 3
  {
    if keyFiles == [] then []
    else ["\n**Key Files:**"] + KeyFileLines(keyFiles[..if |keyFiles| < 2 then |keyFiles| else 2])
  }

  /** The lines of one module's section. */
  function SectionLines(name: string, info: ModuleInfo): seq<string> {
    HeadLines(name, info.structure) + KeyFilesPart(info.keyFiles)
  }

  function ModuleSections(modules: Dict<ModuleInfo>): (r: seq<string>)
    ensures |r| == |modules|
    ensures forall i :: 0 <= i < |modules| ==> r[i] == Join(SectionLines(modules[i].0, modules[i].1), "\n")
  {
    if modules == [] then [] else [Join(SectionLines(modules[0].0, modules[0].1), "\n")] + ModuleSections(modules[1..])
  }

  /**
   * `format_module_context`: the fixed sentence when there are no modules,
   * otherwise the sections separated by blank lines, the first module's
   * heading first.
   */
  function FormatModuleContext(modules: Dict<ModuleInfo>): (r: string)
    ensures modules == [] ==> r == NoModuleContext
    ensures modules != [] ==> StartsWith(r, "### Module: " + modules[0].0)
  {
    if modules == [] then NoModuleContext
    else
      var sections := ModuleSections(modules);
      var lines := SectionLines(modules[0].0, modules[0].1);
      JoinStartsWith(lines, "\n");
      JoinStartsWith(sections, "\n\n");
      Join(sections, "\n\n")
  }

  /**
   * Each module gets one section, headed by its name; at most two key files
   * are shown, each at most 500 characters of content plus the notice.
   */
  lemma ModuleSectionShape(name: string, info: ModuleInfo)
    ensures var lines := SectionLines(name, info);
      lines[0] == "### Module: " + name &&
      |lines| <= 7 &&
      (info.keyFiles == [] <==> "\n**Key Files:**" !in lines)
  {
    var h := HeadLines(name, info.structure);
    var k := KeyFilesPart(info.keyFiles);
    if info.keyFiles != [] {
      assert (h + k)[|h|] == "\n**Key Files:**";
    } else {
      assert h + k == h;
    }
  }

  lemma SnippetBound(content: string)
    ensures |Snippet(content)| <= 500 + |"...\n[content truncated]"|
    ensures content <= Snippet(content) || Snippet(content)[..500] == content[..500]
  {
  }

  /**
   * The context fetched for a change renders as the fixed sentence exactly
   * when no changed module survives the denylist: every changed file lies
   * at the top level or under a denied directory.
   */
  lemma NoKeptModuleText(files: seq<FileChange>, keyFilesFor: string -> Dict<string>)
    ensures FormatModuleContext(Kept(Groups(Paths(files)), keyFilesFor)) == NoModuleContext
      <==> forall k :: k in Keys(Groups(Paths(files))) ==> Denied(k)
  {
    var g := Groups(Paths(files));
    var kept := Kept(g, keyFilesFor);
    KeptKeys(g, keyFilesFor);
    if kept != [] {
      assert kept[0].0 in Keys(kept);
      var r := FormatModuleContext(kept);
      assert r[0] == '#' && NoModuleContext[0] == 'N';
    }
  }

  // ---------------------------------------------------------------------------
  // Contents of the changed files
  // ---------------------------------------------------------------------------

  /**
   * What looking a changed file up in the clone gives: nothing, or a file
   * of `size` bytes whose reading gives its text or raises.
   */
  datatype FileRead = NotFound | Found(size: nat, content: Result<string>)

  /** Files larger than 100 KB are not read. */
  const MaxFileSize := 100 * 1024

  /** The extensions of files never read. */
  const BinaryExtensions := [".png", ".jpg", ".jpeg", ".gif", ".svg", ".ico", ".woff", ".ttf", ".eot", ".bin", ".exe", ".dll", ".so", ".dylib"]

  /** The text stored for a file. */
  function ContentText(r: FileRead): string {
    match r
    case NotFound => "File not found in repository"
    case Found(size, content) =>
      if size > MaxFileSize then "File too large to include in context"
      else
        match content
        case Ok(text) => text
        case Err(e) => "Error reading file: " + e.message
  }

  predicate Included(path: string) {
    path != "" && !EndsWithAny(path, BinaryExtensions)
  }

  /** The dictionary after the loop has seen `paths`. */
  function ContentsOf(paths: seq<string>, read: string -> FileRead): Dict<string> {
    if paths == [] then []
    else
      var p := paths[|paths| - 1];
      var d := ContentsOf(paths[..|paths| - 1], read);
      if Included(p) then Put(d, p, ContentText(read(p))) else d
  }

  /** One pass of the file loop: an included path is stored, any other is skipped. */
  lemma ContentsStep(paths: seq<string>, i: nat, read: string -> FileRead)
    requires i < |paths|
    ensures ContentsOf(paths[..i + 1], read) ==
      if Included(paths[i]) then Put(ContentsOf(paths[..i], read), paths[i], ContentText(read(paths[i]))) else ContentsOf(paths[..i], read)
  {
    var prefix := paths[..i + 1];
    assert prefix[..|prefix| - 1] == paths[..i] && prefix[|prefix| - 1] == paths[i];
  }

  /** `fetch_modified_file_contents`: `read(p)` is what the clone holds at path `p`. */
  method FetchModifiedFileContents(files: seq<FileChange>, read: string -> FileRead) returns (contents: Dict<string>)
    ensures contents == ContentsOf(Paths(files), read)
  {
    contents := [];
    var paths := Paths(files);
    var i := 0;
    while i < |files|
      invariant 0 <= i <= |files|
      invariant contents == ContentsOf(paths[..i], read)
    {
      ContentsStep(paths, i, read);
      var path := PathOf(files[i]);
      assert path == paths[i];
      if path != "" && !EndsWithAny(path, BinaryExtensions) {
        contents := Put(contents, path, ContentText(read(path)));
      }
      i := i + 1;
    }
    assert paths[..i] == paths;
  }

  /**
   * A path has an entry exactly when it is a non-empty changed path without
   * a binary or image extension, and the entry is what reading it gave.
   */
  lemma {:induction false} ContentsEntries(paths: seq<string>, read: string -> FileRead)
    ensures forall p :: p in Keys(ContentsOf(paths, read)) <==> p in paths && Included(p)
    ensures forall e :: e in ContentsOf(paths, read) ==> e.1 == ContentText(read(e.0))
  {
    if paths != [] {
      var n := |paths| - 1;
      ContentsEntries(paths[..n], read);
      assert paths == paths[..n] + [paths[n]];
      if Included(paths[n]) {
        PutEntries(ContentsOf(paths[..n], read), paths[n], ContentText(read(paths[n])));
      }
    }
  }
}
