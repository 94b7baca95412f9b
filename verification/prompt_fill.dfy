/**
 * `prepare_prompt` (pipeline/analyze_pr.py, and the older
 * scripts/analyze_pr.py): the placeholders of the analysis template are
 * filled by a fixed sequence of string replacements over the PR record.
 */
module PromptFill {
  import opened Wrappers
  import opened Text
  import opened Dicts

  /** A JSON value of the PR record, as far as the replacements look at it. */
  datatype Value =
    | Str(s: string)
    | Int(n: int)
    | Bool(b: bool)
    | Null
    | Array(length: nat, repr: string)
    | Object(login: Option<string>, otherKeys: nat, repr: string)

  /** The PR record: its keys in insertion order. */
  type PrDict = Dict<Value>

  predicate Truthy(v: Value) {
    match v
    case Str(s) => s != ""
    case Int(n) => n != 0
    case Bool(b) => b
    case Null => false
    case Array(n, _) => n > 0
    case Object(l, k, _) => l.Some? || k > 0
  }

  /** `str(v)`, and the same text an f-string shows. */
  function Display(v: Value): string {
    match v
    case Str(s) => s
    case Int(n) => IntToString(n)
    case Bool(b) => if b then "True" else "False"
    case Null => "None"
    case Array(_, r) => r
    case Object(_, _, r) => r
  }

  /** The section texts rendered before the replacements start. */
  datatype Sections = Sections(
    fileChangesSummary: string,
    architectureContext: string,
    commitAnalysis: string,
    codeReferences: string,
    impactMatrix: string,
    learningPoints: string,
    moduleContextSummary: string,
    modifiedFileContents: string,
    languageInstruction: string)

  const TypeErrorArg := TypeError("replace() argument 2 must be str")

  // ---------------------------------------------------------------------------
  // The steps, in source order
  // ---------------------------------------------------------------------------

  /** "Ensure only PR description is used": present `comments` and `reviews` become empty lists. */
  function ResetDiscussion(d: PrDict): (r: PrDict)
    ensures Keys(r) == Keys(d)
    ensures Get(r, "comments") == if "comments" in Keys(d) then Some(Array(0, "[]")) else None
    ensures Get(r, "reviews") == if "reviews" in Keys(d) then Some(Array(0, "[]")) else None
    ensures forall k :: k != "comments" && k != "reviews" ==> Get(r, k) == Get(d, k)
  {
    var d1 := if "comments" in Keys(d) then Put(d, "comments", Array(0, "[]")) else d;
    forall k ensures Get(d1, k) == if k == "comments" && "comments" in Keys(d) then Some(Array(0, "[]")) else Get(d, k) {
      if "comments" in Keys(d) { GetPut(d, "comments", Array(0, "[]"), k); }
    }
    var d2 := if "reviews" in Keys(d1) then Put(d1, "reviews", Array(0, "[]")) else d1;
    forall k ensures Get(d2, k) == if k == "reviews" && "reviews" in Keys(d1) then Some(Array(0, "[]")) else Get(d1, k) {
      if "reviews" in Keys(d1) { GetPut(d1, "reviews", Array(0, "[]"), k); }
    }
    d2
  }

  function LenPattern(key: string): string {
    "{len(pr_data['" + key + "'])}"
  }

  /** A key the pattern's `[^']+` group can capture: non-empty and without a quote. */
  predicate LenKey(key: string) {
    key != [] && forall i :: 0 <= i < |key| ==> key[i] != '\''
  }

  /** The `{len(pr_data['k'])}` replacements: each list-valued key the pattern can name shows its length. */
  function LenStep(p: string, d: PrDict): string
    decreases |d|
  {
    if d == [] then p
    else
      var p1 := if d[0].1.Array? && LenKey(d[0].0) then ReplaceAll(p, LenPattern(d[0].0), NatToString(d[0].1.length)) else p;
      LenStep(p1, d[1..])
  }

  // Both patterns are raw strings in the source, so the backslashes before
  // '[', ']' and the quotes are part of the text searched for.
  const MergedAtPattern := "{pr_data\\[\\'mergedAt\\'\\]" + " if pr_data\\[\\'mergedAt\\'\\] else \"Not merged\"}"
  const MergedByPattern := "{pr_data\\[\\'mergedBy\\'\\]" + "\\[\\'login\\'\\] if pr_data\\[\\'mergedBy\\'\\] else \"N/A\"}"

  /** The text put in place of the merged-at expression. */
  function MergedAtText(d: PrDict): (r: Result<string>)
    ensures (Get(d, "mergedAt").None? || !Truthy(Get(d, "mergedAt").value)) ==> r == Ok("Not merged")
    ensures Get(d, "mergedAt").Some? && Truthy(Get(d, "mergedAt").value) ==>
      if Get(d, "mergedAt").value.Str? then r == Ok(Get(d, "mergedAt").value.s) else r.Err?
  {
    var v := Get(d, "mergedAt");
    if v.None? || !Truthy(v.value) then Ok("Not merged")
    else if v.value.Str? then Ok(v.value.s)
    else Err(TypeErrorArg)
  }

  /** The text put in place of the merged-by expression: the login, when `mergedBy` is an object that has one. */
  function MergedByText(d: PrDict): (r: string)
    ensures var v: Option<Value> := Get(d, "mergedBy");
      r == if v.Some? && v.value.Object? && v.value.login.Some? then v.value.login.value else "N/A"
  {
    var v: Option<Value> := Get(d, "mergedBy");
    match v
    case Some(Object(Some(l), _, _)) => l
    case _ => "N/A"
  }

  /** The eight section placeholders. */
  function SectionsStep(p: string, s: Sections): string {
    var p1 := ReplaceAll(p, "{architecture_context}", s.architectureContext);
    var p2 := ReplaceAll(p1, "{commit_analysis}", s.commitAnalysis);
    var p3 := ReplaceAll(p2, "{code_references}", s.codeReferences);
    var p4 := ReplaceAll(p3, "{impact_matrix}", s.impactMatrix);
    var p5 := ReplaceAll(p4, "{learning_points}", s.learningPoints);
    var p6 := ReplaceAll(p5, "{module_context_summary}", s.moduleContextSummary);
    var p7 := ReplaceAll(p6, "{modified_file_contents}", s.modifiedFileContents);
    ReplaceAll(p7, "{multilingual_instruction}", s.languageInstruction)
  }

  function KeyPattern(key: string): string {
    "{pr_data['" + key + "']}"
  }

  function LoginPattern(key: string): string {
    "{pr_data['" + key + "']['login']}"
  }

  /** One round of the simple-reference loop: scalars show as `str(v)`, objects with a login show it. */
  function SimpleKeyStep(p: string, key: string, v: Value): string {
    match v
    case Str(_) => ReplaceAll(p, KeyPattern(key), Display(v))
    case Int(_) => ReplaceAll(p, KeyPattern(key), Display(v))
    case Bool(_) => ReplaceAll(p, KeyPattern(key), Display(v))
    case Object(Some(l), _, _) => ReplaceAll(p, LoginPattern(key), l)
    case _ => p
  }

  /** The simple-reference loop over the record's keys, in order. */
  function SimpleKeys(p: string, d: PrDict): string
    decreases |d|
  {
    if d == [] then p else SimpleKeys(SimpleKeyStep(p, d[0].0, d[0].1), d[1..])
  }

  const RepositoryPattern := "{pr_data['repository']}"

  function RepositoryStep(p: string, d: PrDict): (r: Result<string>)
    ensures Get(d, "repository").None? ==> r == Ok(p)
    ensures Get(d, "repository").Some? ==>
      if Get(d, "repository").value.Str? then r == Ok(ReplaceAll(p, RepositoryPattern, Get(d, "repository").value.s))
      else r.Err?
  {
    var v: Option<Value> := Get(d, "repository");
    match v
    case None => Ok(p)
    case Some(Str(s)) => Ok(ReplaceAll(p, RepositoryPattern, s))
    case Some(_) => Err(TypeErrorArg)
  }

  /** `pr_data.get(key, '')` as an f-string shows it. */
  function FieldText(d: PrDict, key: string): string {
    match Get(d, key)
    case None => ""
    case Some(v) => Display(v)
  }

  /** `# #<number> <title>` */
  function TitleHeading(d: PrDict): string {
    "# #" + FieldText(d, "number") + " " + FieldText(d, "title")
  }

  const TitleLine := "# Title"

  /** `line.strip() == "# Title"` */
  predicate IsTitleLine(line: string) {
    Strip(line) == TitleLine
  }

  /** A line whose stripped text is exactly "# Title" becomes the heading; any other line is kept. */
  function Retitle(line: string, heading: string): string {
    if IsTitleLine(line) then heading else line
  }

  /** The lines after the title step: line k is the heading exactly when it is a title line. */
  function TitleLines(lines: seq<string>, heading: string): (r: seq<string>)
    ensures |r| == |lines|
    ensures forall k :: 0 <= k < |lines| ==> r[k] == (if IsTitleLine(lines[k]) then heading else lines[k])
  {
    seq(|lines|, k requires 0 <= k < |lines| => Retitle(lines[k], heading))
  }

  /** The title step of pipeline/analyze_pr.py: the lines of the prompt, rewritten in place and joined again. */
  method ReplaceTitleLines(prompt: string, heading: string) returns (r: string)
    ensures r == Join(TitleLines(SplitOn(prompt, "\n"), heading), "\n")
  {
    var lines := SplitOn(prompt, "\n");
    ghost var original := lines;
    var i := 0;
    while i < |lines|
      invariant 0 <= i <= |lines| == |original|
      invariant forall k :: 0 <= k < i ==> lines[k] == Retitle(original[k], heading)
      invariant forall k :: i <= k < |lines| ==> lines[k] == original[k]
    {
      if IsTitleLine(lines[i]) {
        lines := lines[i := heading];
      }
      i := i + 1;
    }
    assert lines == TitleLines(original, heading);
    r := Join(lines, "\n");
  }

  /** A prompt with no "# Title" line comes out of the title step unchanged. */
  lemma TitleLinesNoTitle(lines: seq<string>, heading: string)
    requires forall i :: 0 <= i < |lines| ==> !IsTitleLine(lines[i])
    ensures TitleLines(lines, heading) == lines
  {
    assert forall k :: 0 <= k < |lines| ==> TitleLines(lines, heading)[k] == lines[k];
  }

  /** Hence, with the split and join around it, the whole prompt is unchanged. */
  lemma TitleStepNoTitle(prompt: string, heading: string)
    requires forall i :: 0 <= i < |SplitOn(prompt, "\n")| ==> !IsTitleLine(SplitOn(prompt, "\n")[i])
    ensures Join(TitleLines(SplitOn(prompt, "\n"), heading), "\n") == prompt
  {
    TitleLinesNoTitle(SplitOn(prompt, "\n"), heading);
    JoinSplit(prompt, "\n");
  }

  /** The title step of scripts/analyze_pr.py: every occurrence of the substring "# Title". */
  function LegacyTitle(p: string, heading: string): string {
    ReplaceAll(p, TitleLine, heading)
  }

  /**
   * The substring replacement also rewrites a second-level "## Title"
   * heading, which the line-exact replacement leaves alone.
   */
  lemma LegacyTitleRewritesSubheading(heading: string)
    ensures LegacyTitle("## Title", heading) == "#" + heading
  {
    var t := "## Title";
    assert t[1] == '#' && TitleLine[1] == ' ';
    assert !(TitleLine <= t);
    assert t[1..] == TitleLine;
    ReplaceAllWhole(TitleLine, heading);
  }

  /** The line-exact replacement keeps a "## Title" line as it is. */
  lemma SubheadingKept(heading: string)
    ensures TitleLines(["## Title"], heading) == ["## Title"]
  {
    var t := "## Title";
    assert LeadingSpaces(t) == 0 && TrailingSpaces(t) == 0;
    assert |Strip(t)| != |TitleLine|;
    assert TitleLines([t], heading)[0] == t;
  }

  const BodyPlaceholder := "{pr_data['body']}"
  const NoDescription := "No description provided"

  /** The body step: `pr_data['body'] or "No description provided"`, when the placeholder is still there. */
  function BodyStep(p: string, d: PrDict): (r: Result<string>)
    ensures Get(d, "body").None? || !Contains(p, BodyPlaceholder) ==> r == Ok(p)
    ensures Get(d, "body").Some? && Contains(p, BodyPlaceholder) && !Truthy(Get(d, "body").value) ==>
      r == Ok(ReplaceAll(p, BodyPlaceholder, NoDescription))
  {
    match Get(d, "body")
    case None => Ok(p)
    case Some(v) =>
      if !Contains(p, BodyPlaceholder) then Ok(p)
      else if !Truthy(v) then Ok(ReplaceAll(p, BodyPlaceholder, NoDescription))
      else if v.Str? then Ok(ReplaceAll(p, BodyPlaceholder, v.s))
      else Err(TypeErrorArg)
  }

  // ---------------------------------------------------------------------------
  // The whole substitution
  // ---------------------------------------------------------------------------

  /** The steps before the simple-reference loop: list lengths, merge status and the eight sections. */
  function BeforeKeys(d: PrDict, template: string, s: Sections): Result<string> {
    var p1 := LenStep(template, d);
    match MergedAtText(d)
    case Err(e) => Err(e)
    case Ok(mergedAt) =>
      var p2 := ReplaceAll(p1, MergedAtPattern, mergedAt);
      var p3 := ReplaceAll(p2, MergedByPattern, MergedByText(d));
      Ok(SectionsStep(p3, s))
  }

  /** The steps between the simple-reference loop and the title: repository, output language and file summary. */
  function AfterKeys(p: string, d: PrDict, lang: string, s: Sections): Result<string> {
    match RepositoryStep(p, d)
    case Err(e) => Err(e)
    case Ok(p1) => Ok(ReplaceAll(ReplaceAll(p1, "{output_language}", lang), "{file_changes_summary}", s.fileChangesSummary))
  }

  /** The steps before the title replacement, shared by both versions. */
  function BeforeTitle(d: PrDict, template: string, lang: string, s: Sections): Result<string> {
    match BeforeKeys(d, template, s)
    case Err(e) => Err(e)
    case Ok(p) => AfterKeys(SimpleKeys(p, d), d, lang, s)
  }

  /** The steps after the title replacement. */
  function AfterTitle(p: string, d: PrDict): Result<string> {
    match BodyStep(p, d)
    case Err(e) => Err(e)
    case Ok(p1) => Ok(ReplaceAll(p1, "{multilingual_format}", ""))
  }

  /** The title step of pipeline/analyze_pr.py on a text. */
  function PipelineTitle(p: string, d: PrDict): string {
    Join(TitleLines(SplitOn(p, "\n"), TitleHeading(d)), "\n")
  }

  /** The prompt of pipeline/analyze_pr.py for the record `d` (already updated). */
  function PromptText(d: PrDict, template: string, lang: string, s: Sections): Result<string> {
    match BeforeTitle(d, template, lang, s)
    case Err(e) => Err(e)
    case Ok(p) => AfterTitle(PipelineTitle(p, d), d)
  }

  /**
   * The prompt of scripts/analyze_pr.py for the record `d`: the same steps,
   * except that the title step replaces every substring "# Title". When the
   * text reaching the title step holds no "# Title", both versions give the
   * same prompt.
   */
  function LegacyPromptText(d: PrDict, template: string, lang: string, s: Sections): (r: Result<string>)
    ensures BeforeTitle(d, template, lang, s).Err? ==> r == Err(BeforeTitle(d, template, lang, s).error)
    ensures BeforeTitle(d, template, lang, s).Ok? && !Contains(BeforeTitle(d, template, lang, s).value, TitleLine) ==>
      r == PromptText(d, template, lang, s)
  {
    match BeforeTitle(d, template, lang, s)
    case Err(e) => Err(e)
    case Ok(p) =>
      LegacyTitleAgrees(p, d);
      AfterTitle(LegacyTitle(p, TitleHeading(d)), d)
  }

  /** Without the substring "# Title" neither title step changes anything, so they agree. */
  lemma LegacyTitleAgrees(p: string, d: PrDict)
    ensures !Contains(p, TitleLine) ==> LegacyTitle(p, TitleHeading(d)) == p == PipelineTitle(p, d)
  {
    if !Contains(p, TitleLine) {
      ReplaceAllAbsent(p, TitleLine, TitleHeading(d));
      var lines := SplitOn(p, "\n");
      SplitOnPiecesContained(p, "\n", TitleLine);
      forall i | 0 <= i < |lines| ensures !IsTitleLine(lines[i]) {
        TitleLineContains(lines[i]);
      }
      TitleStepNoTitle(p, TitleHeading(d));
    }
  }

  /** A title line holds the substring "# Title". */
  lemma TitleLineContains(line: string)
    ensures IsTitleLine(line) ==> Contains(line, TitleLine)
  {
    if IsTitleLine(line) {
      assert OccursAt(Strip(line), TitleLine, 0);
      StripContains(line, TitleLine);
    }
  }

  /** `pr_data['module_context'] = …` when the key is absent; `context` is what `fetch_module_context` returned. */
  function WithModuleContext(d: PrDict, context: Value): (r: PrDict)
    ensures "module_context" in Keys(d) ==> r == d
    ensures "module_context" !in Keys(d) ==> r == d + [("module_context", context)]
    ensures Get(r, "module_context") == if "module_context" in Keys(d) then Get(d, "module_context") else Some(context)
    ensures forall k :: k != "module_context" ==> Get(r, k) == Get(d, k)
  {
    if "module_context" in Keys(d) then d
    else
      PutNew(d, "module_context", context);
      forall k ensures Get(Put(d, "module_context", context), k) == if k == "module_context" then Some(context) else Get(d, k) {
        GetPut(d, "module_context", context, k);
      }
      Put(d, "module_context", context)
  }

  /** The length loop, taken over the record's keys: every list-valued key fills in its references. */
  method FillLengths(template: string, d: PrDict) returns (prompt: string)
    ensures prompt == LenStep(template, d)
  {
    prompt := template;
    var i := 0;
    while i < |d|
      invariant 0 <= i <= |d|
      invariant LenStep(prompt, d[i..]) == LenStep(template, d)
    {
      var (key, value) := d[i];
      assert d[i..][1..] == d[i + 1..];
      if value.Array? && LenKey(key) {
        prompt := ReplaceAll(prompt, LenPattern(key), NatToString(value.length));
      }
      i := i + 1;
    }
  }

  /** The loop over the record that fills in the simple references. */
  method FillSimpleKeys(p: string, d: PrDict) returns (prompt: string)
    ensures prompt == SimpleKeys(p, d)
  {
    prompt := p;
    var i := 0;
    while i < |d|
      invariant 0 <= i <= |d|
      invariant SimpleKeys(prompt, d[i..]) == SimpleKeys(p, d)
    {
      assert d[i..][1..] == d[i + 1..];
      prompt := SimpleKeyStep(prompt, d[i].0, d[i].1);
      i := i + 1;
    }
  }

  /**
   * `prepare_prompt` of pipeline/analyze_pr.py. It also hands back the
   * record as the caller sees it afterwards: with `module_context` added
   * when it was missing, and with `comments` and `reviews` emptied.
   */
  method PreparePrompt(data: PrDict, moduleContext: Value, template: string, lang: string, s: Sections)
    returns (r: Result<string>, updated: PrDict)
    ensures updated == ResetDiscussion(WithModuleContext(data, moduleContext))
    ensures Get(updated, "module_context") ==
      if "module_context" in Keys(data) then Get(data, "module_context") else Some(moduleContext)
    ensures r == PromptText(updated, template, lang, s)
  {
    updated := ResetDiscussion(WithModuleContext(data, moduleContext));
    var prompt := FillLengths(template, updated);
    var mergedAt := MergedAtText(updated);
    if mergedAt.Err? {
      return Err(mergedAt.error), updated;
    }
    prompt := ReplaceAll(prompt, MergedAtPattern, mergedAt.value);
    prompt := ReplaceAll(prompt, MergedByPattern, MergedByText(updated));
    prompt := SectionsStep(prompt, s);
    assert BeforeKeys(updated, template, s) == Ok(prompt);
    prompt := FillSimpleKeys(prompt, updated);
    var withRepository := RepositoryStep(prompt, updated);
    if withRepository.Err? {
      return Err(withRepository.error), updated;
    }
    prompt := ReplaceAll(withRepository.value, "{output_language}", lang);
    prompt := ReplaceAll(prompt, "{file_changes_summary}", s.fileChangesSummary);
    assert BeforeTitle(updated, template, lang, s) == Ok(prompt);
    prompt := ReplaceTitleLines(prompt, TitleHeading(updated));
    r := AfterTitle(prompt, updated);
  }

  // ---------------------------------------------------------------------------
  // Texts the substitution leaves alone
  // ---------------------------------------------------------------------------

  /** Every placeholder the substitution replaces starts with '{'. */
  predicate Placeholder(pat: string) {
    pat != [] && pat[0] == '{'
  }

  predicate BraceFree(w: string) {
    forall i :: 0 <= i < |w| ==> w[i] != '{'
  }

  /** A text whose only '{' can be its first character is left alone by a placeholder it does not start with. */
  lemma Untouched(w: string, pat: string, rep: string)
    requires Placeholder(pat) && !(pat <= w)
    requires forall i :: 0 < i < |w| ==> w[i] != '{'
    ensures ReplaceAll(w, pat, rep) == w
  {
    assert !Contains(w, pat) by {
      forall j | 0 <= j <= |w| ensures !OccursAt(w, pat, j) {
        if j == 0 {
          assert w[0..] == w;
        } else if j < |w| {
          assert w[j..][0] == w[j];
        }
      }
    }
    ReplaceAllAbsent(w, pat, rep);
  }

  /** A text without '{' is left alone by every placeholder. */
  lemma BraceFreeUntouched(w: string, pat: string, rep: string)
    requires BraceFree(w) && Placeholder(pat)
    ensures ReplaceAll(w, pat, rep) == w
  {
    Untouched(w, pat, rep);
  }

  /** The body placeholder holds no '{' after its first character and no line break. */
  lemma BodyPlaceholderShape()
    ensures |BodyPlaceholder| == 17 && BodyPlaceholder[1] == 'p' && BodyPlaceholder[10..14] == "body" && BodyPlaceholder[14] == '\''
    ensures forall i :: 0 < i < |BodyPlaceholder| ==> BodyPlaceholder[i] != '{'
    ensures forall i :: 0 <= i < |BodyPlaceholder| ==> BodyPlaceholder[i] != '\n'
  {
  }

  /** The texts the substitution leaves alone: brace-free text, and the body placeholder itself. */
  predicate Inert(w: string) {
    BraceFree(w) || w == BodyPlaceholder
  }

  /** A placeholder that is no prefix of the body placeholder leaves an inert text alone. */
  lemma InertUntouched(w: string, pat: string, rep: string)
    requires Inert(w) && Placeholder(pat) && !(pat <= BodyPlaceholder)
    ensures ReplaceAll(w, pat, rep) == w
  {
    if BraceFree(w) {
      BraceFreeUntouched(w, pat, rep);
    } else {
      BodyPlaceholderShape();
      Untouched(w, pat, rep);
    }
  }

  /** A placeholder whose second character is not 'p' is no prefix of the body placeholder. */
  lemma NotBodyPrefix(pat: string)
    requires |pat| > 1 && pat[1] != 'p'
    ensures !(pat <= BodyPlaceholder)
  {
    BodyPlaceholderShape();
  }

  /** A placeholder that differs from the body placeholder at a shared position is no prefix of it. */
  lemma DiffersFromBody(pat: string, i: nat)
    requires i < |pat| && i < |BodyPlaceholder| && pat[i] != BodyPlaceholder[i]
    ensures !(pat <= BodyPlaceholder)
  {
  }

  /** Only the reference of the key "body" is a prefix of the body placeholder. */
  lemma KeyPatternNotBody(k: string)
    ensures KeyPattern(k) <= BodyPlaceholder ==> k == "body"
  {
    BodyPlaceholderShape();
    var pat := KeyPattern(k);
    if pat <= BodyPlaceholder {
      assert pat[10 + |k|] == '\'';
      assert forall i :: 10 <= i < 14 ==> BodyPlaceholder[i] != '\'';
      assert |k| == 4;
      assert pat[10..14] == k;
      assert BodyPlaceholder[10..14] == pat[10..14];
    }
  }

  /** The length references leave an inert text alone. */
  lemma {:induction false} LenStepInert(w: string, d: PrDict)
    requires Inert(w)
    ensures LenStep(w, d) == w
    decreases |d|
  {
    if d != [] {
      if d[0].1.Array? && LenKey(d[0].0) {
        NotBodyPrefix(LenPattern(d[0].0));
        InertUntouched(w, LenPattern(d[0].0), NatToString(d[0].1.length));
      }
      LenStepInert(w, d[1..]);
    }
  }

  /** The eight section placeholders leave an inert text alone. */
  lemma SectionsInert(w: string, s: Sections)
    requires Inert(w)
    ensures SectionsStep(w, s) == w
  {
    NotBodyPrefix("{architecture_context}");
    InertUntouched(w, "{architecture_context}", s.architectureContext);
    NotBodyPrefix("{commit_analysis}");
    InertUntouched(w, "{commit_analysis}", s.commitAnalysis);
    NotBodyPrefix("{code_references}");
    InertUntouched(w, "{code_references}", s.codeReferences);
    NotBodyPrefix("{impact_matrix}");
    InertUntouched(w, "{impact_matrix}", s.impactMatrix);
    NotBodyPrefix("{learning_points}");
    InertUntouched(w, "{learning_points}", s.learningPoints);
    NotBodyPrefix("{module_context_summary}");
    InertUntouched(w, "{module_context_summary}", s.moduleContextSummary);
    NotBodyPrefix("{modified_file_contents}");
    InertUntouched(w, "{modified_file_contents}", s.modifiedFileContents);
    NotBodyPrefix("{multilingual_instruction}");
    InertUntouched(w, "{multilingual_instruction}", s.languageInstruction);
  }

  /** Everything before the simple-reference loop leaves an inert template alone. */
  lemma BeforeKeysInert(d: PrDict, w: string, s: Sections)
    requires Inert(w) && MergedAtText(d).Ok?
    ensures BeforeKeys(d, w, s) == Ok(w)
  {
    LenStepInert(w, d);
    BodyPlaceholderShape();
    assert MergedAtPattern[8] == '\\' && MergedByPattern[8] == '\\';
    DiffersFromBody(MergedAtPattern, 8);
    InertUntouched(w, MergedAtPattern, MergedAtText(d).value);
    DiffersFromBody(MergedByPattern, 8);
    InertUntouched(w, MergedByPattern, MergedByText(d));
    SectionsInert(w, s);
  }

  /** Everything between the simple-reference loop and the title leaves an inert text alone. */
  lemma AfterKeysInert(w: string, d: PrDict, lang: string, s: Sections)
    requires Inert(w)
    requires Get(d, "repository").None? || Get(d, "repository").value.Str?
    ensures AfterKeys(w, d, lang, s) == Ok(w)
  {
    BodyPlaceholderShape();
    if Get(d, "repository").Some? {
      InertUntouched(w, RepositoryPattern, Get(d, "repository").value.s);
    }
    NotBodyPrefix("{output_language}");
    InertUntouched(w, "{output_language}", lang);
    NotBodyPrefix("{file_changes_summary}");
    InertUntouched(w, "{file_changes_summary}", s.fileChangesSummary);
  }

  /** A single line that is not a title line comes out of the title step unchanged. */
  lemma SingleLineTitle(w: string, d: PrDict)
    requires forall i :: 0 <= i < |w| ==> w[i] != '\n'
    requires !IsTitleLine(w)
    ensures PipelineTitle(w, d) == w
  {
    forall j | 0 <= j <= |w| ensures !OccursAt(w, "\n", j) {
      if j < |w| {
        assert w[j..][0] == w[j];
      }
    }
    IndexOfContains(w, "\n");
    assert SplitOn(w, "\n") == [w];
  }

  /** The simple-reference round of any other key leaves the body placeholder alone. */
  lemma OtherKeyKeepsPlaceholder(k: string, v: Value)
    requires k != "body"
    ensures SimpleKeyStep(BodyPlaceholder, k, v) == BodyPlaceholder
  {
    BodyPlaceholderShape();
    match v
    case Str(_) =>
      KeyPatternNotBody(k);
      InertUntouched(BodyPlaceholder, KeyPattern(k), Display(v));
    case Int(_) =>
      KeyPatternNotBody(k);
      InertUntouched(BodyPlaceholder, KeyPattern(k), Display(v));
    case Bool(_) =>
      KeyPatternNotBody(k);
      InertUntouched(BodyPlaceholder, KeyPattern(k), Display(v));
    case Object(Some(l), _, _) =>
      InertUntouched(BodyPlaceholder, LoginPattern(k), l);
    case _ =>
  }

  /** The simple-reference loop leaves a brace-free text alone. */
  lemma {:induction false} SimpleKeysBraceFree(w: string, d: PrDict)
    requires BraceFree(w)
    ensures SimpleKeys(w, d) == w
    decreases |d|
  {
    if d != [] {
      var (k, v) := d[0];
      match v {
        case Str(_) => BraceFreeUntouched(w, KeyPattern(k), Display(v));
        case Int(_) => BraceFreeUntouched(w, KeyPattern(k), Display(v));
        case Bool(_) => BraceFreeUntouched(w, KeyPattern(k), Display(v));
        case Object(Some(l), _, _) => BraceFreeUntouched(w, LoginPattern(k), l);
        case _ =>
      }
      SimpleKeysBraceFree(w, d[1..]);
    }
  }

  /** The whole prompt through its intermediate texts. */
  lemma PromptTextSteps(d: PrDict, template: string, lang: string, s: Sections, p: string, q: string)
    requires BeforeKeys(d, template, s) == Ok(p)
    requires AfterKeys(SimpleKeys(p, d), d, lang, s) == Ok(q)
    ensures PromptText(d, template, lang, s) == AfterTitle(PipelineTitle(q, d), d)
  {
  }

  /** The steps after the title leave a brace-free text alone. */
  lemma AfterTitleBraceFree(w: string, d: PrDict)
    requires BraceFree(w)
    ensures AfterTitle(w, d) == Ok(w)
  {
    assert !Contains(w, BodyPlaceholder) by {
      forall j | 0 <= j <= |w| ensures !OccursAt(w, BodyPlaceholder, j) {
        if j < |w| {
          assert w[j..][0] == w[j];
        }
      }
    }
    assert BodyStep(w, d) == Ok(w);
    BraceFreeUntouched(w, "{multilingual_format}", "");
  }

  // ---------------------------------------------------------------------------
  // The empty-body discrepancy
  // ---------------------------------------------------------------------------

  /**
   * The two steps that touch the body placeholder, in source order: the
   * simple-reference loop (which sees a string body) and then the body step.
   */
  function BodyStepsAsWritten(p: string, body: Value): Result<string> {
    BodyStep(SimpleKeyStep(p, "body", body), [("body", body)])
  }

  /**
   * An empty-string body is a `str`, so the simple-reference loop replaces
   * the placeholder with "" before the fallback can see it.
   */
  lemma EmptyBodyRendersEmpty()
    ensures BodyStepsAsWritten(BodyPlaceholder, Str("")) == Ok("")
  {
    var d: PrDict := [("body", Str(""))];
    assert Get(d, "body") == Some(Str(""));
    assert KeyPattern("body") == BodyPlaceholder;
    ReplaceAllWhole(BodyPlaceholder, "");
    assert SimpleKeyStep(BodyPlaceholder, "body", Str("")) == "";
    assert !Contains("", BodyPlaceholder);
  }

  /** The simple-reference loop puts the first `body` entry's `str()` in place of the body placeholder. */
  lemma {:induction false} SimpleKeysRenderBody(d: PrDict, v: Value)
    requires Get(d, "body") == Some(v) && (v.Str? || v.Int? || v.Bool?)
    requires BraceFree(Display(v))
    ensures SimpleKeys(BodyPlaceholder, d) == Display(v)
    decreases |d|
  {
    if d[0].0 == "body" {
      assert KeyPattern("body") == BodyPlaceholder;
      ReplaceAllWhole(BodyPlaceholder, Display(v));
      SimpleKeysBraceFree(Display(v), d[1..]);
    } else {
      OtherKeyKeepsPlaceholder(d[0].0, d[0].1);
      SimpleKeysRenderBody(d[1..], v);
    }
  }

  /**
   * In the whole prompt, a template that is just the body placeholder
   * renders a scalar body as its `str()`, whether or not it is truthy: the
   * fallback never sees the placeholder.
   */
  lemma ScalarBodyRendered(d: PrDict, lang: string, s: Sections, v: Value)
    requires Get(d, "body") == Some(v) && (v.Str? || v.Int? || v.Bool?)
    requires BraceFree(Display(v)) && !IsTitleLine(Display(v))
    requires forall i :: 0 <= i < |Display(v)| ==> Display(v)[i] != '\n'
    requires MergedAtText(d).Ok?
    requires Get(d, "repository").None? || Get(d, "repository").value.Str?
    ensures PromptText(d, BodyPlaceholder, lang, s) == Ok(Display(v))
  {
    var w := Display(v);
    BeforeKeysInert(d, BodyPlaceholder, s);
    SimpleKeysRenderBody(d, v);
    AfterKeysInert(w, d, lang, s);
    PromptTextSteps(d, BodyPlaceholder, lang, s, BodyPlaceholder, w);
    SingleLineTitle(w, d);
    AfterTitleBraceFree(w, d);
  }

  /** As written, an empty-string body turns the body placeholder into "" and a body 0 into "0". */
  lemma FalsyBodiesRendered(d1: PrDict, d2: PrDict, lang: string, s: Sections)
    requires Get(d1, "body") == Some(Str("")) && MergedAtText(d1).Ok?
    requires Get(d1, "repository").None? || Get(d1, "repository").value.Str?
    requires Get(d2, "body") == Some(Int(0)) && MergedAtText(d2).Ok?
    requires Get(d2, "repository").None? || Get(d2, "repository").value.Str?
    ensures PromptText(d1, BodyPlaceholder, lang, s) == Ok("")
    ensures PromptText(d2, BodyPlaceholder, lang, s) == Ok("0")
  {
    ShortTextsPlain();
    ScalarBodyRendered(d1, lang, s, Str(""));
    ScalarBodyRendered(d2, lang, s, Int(0));
  }

  /** "" and "0" hold no '{', no line break, and are no title line. */
  lemma ShortTextsPlain()
    ensures Display(Int(0)) == "0"
    ensures BraceFree("") && !IsTitleLine("") && BraceFree("0") && !IsTitleLine("0")
    ensures forall i :: 0 <= i < |"0"| ==> "0"[i] != '\n'
  {
    assert |Strip("0")| <= 1;
  }

  // ---------------------------------------------------------------------------
  // The intended body handling
  // ---------------------------------------------------------------------------

  /** One round of the simple-reference loop as intended: a falsy body is left to the body step and its fallback. */
  function KeyStep(p: string, key: string, v: Value): string {
    if key == "body" && !Truthy(v) then p else SimpleKeyStep(p, key, v)
  }

  /** The simple-reference loop with the intended body handling. */
  function SimpleKeysCorrected(p: string, d: PrDict): string
    decreases |d|
  {
    if d == [] then p else SimpleKeysCorrected(KeyStep(p, d[0].0, d[0].1), d[1..])
  }

  /** The prompt with the intended body handling: only the simple-reference loop differs. */
  function PromptTextCorrected(d: PrDict, template: string, lang: string, s: Sections): Result<string> {
    match BeforeKeys(d, template, s)
    case Err(e) => Err(e)
    case Ok(p) =>
      match AfterKeys(SimpleKeysCorrected(p, d), d, lang, s)
      case Err(e) => Err(e)
      case Ok(q) => AfterTitle(PipelineTitle(q, d), d)
  }

  /** The two body steps with the correction: a falsy body is left for the fallback. */
  function BodyStepsCorrected(p: string, body: Value): (r: Result<string>)
    ensures !Truthy(body) ==> r == Ok(ReplaceAll(p, BodyPlaceholder, NoDescription))
    ensures Truthy(body) ==> r == BodyStepsAsWritten(p, body)
  {
    var d: PrDict := [("body", body)];
    assert Get(d, "body") == Some(body);
    var r := BodyStep(KeyStep(p, "body", body), d);
    if !Truthy(body) && !Contains(p, BodyPlaceholder) then
      ReplaceAllAbsent(p, BodyPlaceholder, NoDescription);
      r
    else r
  }

  /** With the correction, an empty (or any other falsy) body renders as "No description provided". */
  lemma CorrectedBodyNeverEmpty(body: Value)
    requires !Truthy(body)
    ensures BodyStepsCorrected(BodyPlaceholder, body) == Ok(NoDescription)
  {
    ReplaceAllWhole(BodyPlaceholder, NoDescription);
  }

  /** When no `body` entry is falsy the corrected loop does what the written one does. */
  lemma {:induction false} SimpleKeysAgree(p: string, d: PrDict)
    requires forall i :: 0 <= i < |d| && d[i].0 == "body" ==> Truthy(d[i].1)
    ensures SimpleKeysCorrected(p, d) == SimpleKeys(p, d)
    decreases |d|
  {
    if d != [] {
      assert KeyStep(p, d[0].0, d[0].1) == SimpleKeyStep(p, d[0].0, d[0].1);
      SimpleKeysAgree(SimpleKeyStep(p, d[0].0, d[0].1), d[1..]);
    }
  }

  /** The correction changes nothing for a record whose body is missing or truthy. */
  lemma CorrectedAgreesOnTruthyBody(d: PrDict, template: string, lang: string, s: Sections)
    requires Distinct(Keys(d))
    requires Get(d, "body").None? || Truthy(Get(d, "body").value)
    ensures PromptTextCorrected(d, template, lang, s) == PromptText(d, template, lang, s)
  {
    forall i | 0 <= i < |d| && d[i].0 == "body" ensures Truthy(d[i].1) {
      GetAt(d, i);
    }
    if BeforeKeys(d, template, s).Ok? {
      SimpleKeysAgree(BeforeKeys(d, template, s).value, d);
    }
  }

  /** With falsy `body` entries only, the corrected loop leaves the body placeholder alone. */
  lemma {:induction false} CorrectedKeysKeepPlaceholder(d: PrDict)
    requires forall i :: 0 <= i < |d| && d[i].0 == "body" ==> !Truthy(d[i].1)
    ensures SimpleKeysCorrected(BodyPlaceholder, d) == BodyPlaceholder
    decreases |d|
  {
    if d != [] {
      if d[0].0 != "body" {
        OtherKeyKeepsPlaceholder(d[0].0, d[0].1);
      }
      CorrectedKeysKeepPlaceholder(d[1..]);
    }
  }

  /**
   * In the whole prompt with the correction, a template that is just the
   * body placeholder renders any falsy body as "No description provided".
   */
  lemma CorrectedPromptFallback(d: PrDict, lang: string, s: Sections, v: Value)
    requires Distinct(Keys(d)) && Get(d, "body") == Some(v) && !Truthy(v)
    requires MergedAtText(d).Ok?
    requires Get(d, "repository").None? || Get(d, "repository").value.Str?
    ensures PromptTextCorrected(d, BodyPlaceholder, lang, s) == Ok(NoDescription)
  {
    forall i | 0 <= i < |d| && d[i].0 == "body" ensures !Truthy(d[i].1) {
      GetAt(d, i);
    }
    BeforeKeysInert(d, BodyPlaceholder, s);
    CorrectedKeysKeepPlaceholder(d);
    AfterKeysInert(BodyPlaceholder, d, lang, s);
    PlaceholderTitleKept(d);
    FallbackAfterTitle(d, v);
  }

  /** The body placeholder is a single line that is not a title line. */
  lemma PlaceholderTitleKept(d: PrDict)
    ensures PipelineTitle(BodyPlaceholder, d) == BodyPlaceholder
  {
    BodyPlaceholderShape();
    assert LeadingSpaces(BodyPlaceholder) == 0 && TrailingSpaces(BodyPlaceholder) == 0;
    SingleLineTitle(BodyPlaceholder, d);
  }

  /** The body step's fallback on the bare placeholder. */
  lemma FallbackAfterTitle(d: PrDict, v: Value)
    requires Get(d, "body") == Some(v) && !Truthy(v)
    ensures AfterTitle(BodyPlaceholder, d) == Ok(NoDescription)
  {
    assert OccursAt(BodyPlaceholder, BodyPlaceholder, 0);
    ReplaceAllWhole(BodyPlaceholder, NoDescription);
    assert BodyStep(BodyPlaceholder, d) == Ok(NoDescription);
    NoDescriptionKept();
  }

  lemma NoDescriptionKept()
    ensures ReplaceAll(NoDescription, "{multilingual_format}", "") == NoDescription
  {
    BraceFreeUntouched(NoDescription, "{multilingual_format}", "");
  }
}
