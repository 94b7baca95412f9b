/**
 * `PromptBuilder` (pipeline/prompt_builder.py): the newer prompt assembly.
 * A template is loaded from one of two places and filled with
 * `str.format`; the field values fall back to fixed texts when the record
 * lacks them.
 *
 * A template is modelled as the sequence of its literal texts and `{NAME}`
 * slots, so `str.format` is slot substitution.
 */
module PromptBuilder {
  import opened Wrappers
  import opened Text
  import opened Dicts
  import opened Sorting
  import opened PrData
  import opened PathGroups
  import opened PromptSections
  import Languages

  // ---------------------------------------------------------------------------
  // Templates
  // ---------------------------------------------------------------------------

  datatype Piece = Lit(text: string) | Slot(name: string)

  type Template = seq<Piece>

  /** Every slot of the template names a supplied value. */
  predicate SlotsSupplied(t: Template, values: Dict<string>) {
    forall i :: 0 <= i < |t| && t[i].Slot? ==> t[i].name in Keys(values)
  }

  /** The text of one piece: a literal itself, a slot its value. */
  function PieceText(p: Piece, values: Dict<string>): (r: Result<string>)
    ensures r.Ok? <==> (p.Slot? ==> p.name in Keys(values))
    ensures r.Err? ==> r.error.KeyError?
  {
    match p
    case Lit(text) => Ok(text)
    case Slot(name) =>
      match Get(values, name)
      case Some(v) => Ok(v)
      case None => Err(KeyError(name))
  }

  /** `template.format(**values)`: a slot without a value raises KeyError. */
  function Format(t: Template, values: Dict<string>): (r: Result<string>)
    ensures r.Ok? <==> SlotsSupplied(t, values)
    ensures r.Err? ==> r.error.KeyError?
  {
    if t == [] then Ok("")
    else
      var head := PieceText(t[0], values);
      var rest := Format(t[1..], values);
      assert SlotsSupplied(t, values) <==> (t[0].Slot? ==> t[0].name in Keys(values)) && SlotsSupplied(t[1..], values) by {
        if SlotsSupplied(t[1..], values) && (t[0].Slot? ==> t[0].name in Keys(values)) {
          forall i | 0 <= i < |t| && t[i].Slot? ensures t[i].name in Keys(values) {
            if i > 0 { assert t[i] == t[1..][i - 1]; }
          }
        }
      }
      if head.Err? then head
      else if rest.Err? then rest
      else Ok(head.value + rest.value)
  }

  /** Filling a concatenated template concatenates the two filled parts. */
  lemma {:induction false} FormatAppend(t1: Template, t2: Template, values: Dict<string>)
    requires SlotsSupplied(t1, values) && SlotsSupplied(t2, values)
    ensures Format(t1 + t2, values) == Ok(Format(t1, values).value + Format(t2, values).value)
  {
    if t1 == [] {
      assert t1 + t2 == t2;
      assert "" + Format(t2, values).value == Format(t2, values).value;
    } else {
      assert (t1 + t2)[1..] == t1[1..] + t2;
      assert (t1 + t2)[0] == t1[0];
      assert SlotsSupplied(t1[1..], values) by {
        forall i | 0 <= i < |t1[1..]| && t1[1..][i].Slot? ensures t1[1..][i].name in Keys(values) {
          assert t1[1..][i] == t1[i + 1];
        }
      }
      FormatAppend(t1[1..], t2, values);
      var h := PieceText(t1[0], values);
      var a, b := Format(t1[1..], values).value, Format(t2, values).value;
      assert Format(t1[1..] + t2, values) == Ok(a + b);
      assert Format(t1 + t2, values) == Ok(h.value + (a + b));
      assert Format(t1, values) == Ok(h.value + a);
      assert h.value + (a + b) == (h.value + a) + b;
    }
  }

  /** A slot is replaced by its value. */
  lemma FormatSlot(name: string, values: Dict<string>)
    requires name in Keys(values)
    ensures Format([Slot(name)], values) == Ok(Get(values, name).value)
  {
    assert [Slot(name)][1..] == [];
    var v := Get(values, name).value;
    assert v + "" == v;
  }

  /**
   * `load_template`: `prompt/<name>.prompt` when that file exists, else
   * `templates/<name>.txt`, else FileNotFoundError. The contents of the two
   * files are passed in, `None` for a missing file.
   */
  function LoadTemplate(promptFile: Option<Template>, templateFile: Option<Template>): (r: Result<Template>)
    ensures promptFile.Some? ==> r == Ok(promptFile.value)
    ensures promptFile.None? && templateFile.Some? ==> r == Ok(templateFile.value)
    ensures promptFile.None? && templateFile.None? ==> r.Err? && r.error.FileNotFoundError?
  {
    if promptFile.Some? then Ok(promptFile.value)
    else if templateFile.Some? then Ok(templateFile.value)
    else Err(FileNotFoundError("Required template file not found"))
  }

  // ---------------------------------------------------------------------------
  // Field values
  // ---------------------------------------------------------------------------

  /** `str(pr_data.get(key, default))` for a text field: a present `null` prints as "None". */
  function TextOr(f: Field<string>, default: string): string {
    match f
    case Absent => default
    case Null => "None"
    case Present(s) => s
  }

  /** `str(pr_data.get("number", "Unknown"))` */
  function NumberOr(f: Field<int>): string {
    match f
    case Absent => "Unknown"
    case Null => "None"
    case Present(n) => IntToString(n)
  }

  /** `pr_data.get("author", {}).get("login", "Unknown")`; a present `null` author has no `get`. */
  function AuthorText(author: Field<Account>): Result<string> {
    match author
    case Absent => Ok("Unknown")
    case Null => Err(AttributeError("'NoneType' object has no attribute 'get'"))
    case Present(a) => Ok(if a.login.Some? then a.login.value else "Unknown")
  }

  /** `mergedAt`, with "Not merged" for a falsy value. */
  function MergedAtText(mergedAt: Field<string>): (r: string)
    ensures !(mergedAt.Present? && mergedAt.value != "") ==> r == "Not merged"
    ensures mergedAt.Present? && mergedAt.value != "" ==> r == mergedAt.value
  {
    if mergedAt.Present? && mergedAt.value != "" then mergedAt.value else "Not merged"
  }

  /** The merger's login: "N/A" for a falsy `mergedBy`, "Unknown" for one without a login. */
  function MergedByText(mergedBy: Field<Account>): (r: string)
    ensures !(mergedBy.Present? && AccountTruthy(mergedBy.value)) ==> r == "N/A"
    ensures mergedBy.Present? && mergedBy.value.login.None? && mergedBy.value.otherKeys > 0 ==> r == "Unknown"
    ensures mergedBy.Present? && mergedBy.value.login.Some? ==> r == mergedBy.value.login.value
  {
    if mergedBy.Present? && AccountTruthy(mergedBy.value) then
      if mergedBy.value.login.Some? then mergedBy.value.login.value else "Unknown"
    else "N/A"
  }

  function LabelNames(labels: seq<Label>): (r: seq<string>)
    ensures |r| == |labels|
    ensures forall i :: 0 <= i < |labels| ==> r[i] == if labels[i].name.Some? then labels[i].name.value else ""
  {
    if labels == [] then [] else [if labels[0].name.Some? then labels[0].name.value else ""] + LabelNames(labels[1..])
  }

  /**
   * The label names joined by ", ", or "None" when that text is empty: for
   * no labels, or for a single label without a name. Two or more labels
   * always give a non-empty text, even when their names are empty.
   */
  function LabelsText(labels: seq<Label>): (r: string)
    ensures labels == [] ==> r == "None"
    ensures |labels| == 1 ==> r == if LabelNames(labels)[0] == "" then "None" else LabelNames(labels)[0]
    ensures |labels| >= 2 ==> r == Join(LabelNames(labels), ", ")
  {
    var names := LabelNames(labels);
    var joined := Join(names, ", ");
    assert |labels| >= 2 ==> joined != "" by {
      if |labels| >= 2 {
        JoinCons(names[0], names[1..], ", ");
        assert [names[0]] + names[1..] == names;
      }
    }
    if joined == "" then "None" else joined
  }

  // ---------------------------------------------------------------------------
  // Sections
  // ---------------------------------------------------------------------------

  /** `file.get('changes', additions + deletions)`, the sort key of the newer summary. */
  function ChangesKey(f: FileChange): int {
    if f.changes.Some? then f.changes.value else LineDelta(f)
  }

  /** `_prepare_file_changes_summary`: the loop over the five largest files by `ChangesKey`. */
  method PrepareFileChangesSummary(files: seq<FileChange>) returns (r: string)
    ensures r == FileChangesSummary(files, ChangesKey)
  {
    var topFiles := TopFiles(files, ChangesKey);
    var summaryLines: seq<string> := [];
    var i := 0;
    while i < |topFiles|
      invariant 0 <= i <= |topFiles|
      invariant |summaryLines| == i
      invariant forall k :: 0 <= k < i ==> summaryLines[k] == SummaryLine(topFiles[k])
    {
      summaryLines := summaryLines + [SummaryLine(topFiles[i])];
      i := i + 1;
    }
    assert summaryLines == SummaryLines(topFiles);
    assert topFiles == [] <==> files == [];
    if summaryLines == [] {
      summaryLines := summaryLines + [NoFileChangesLine];
    }
    r := Join(summaryLines, "\n");
  }

  /** `_prepare_architecture_context`: the grouping loop, then one bullet per module. */
  method PrepareArchitectureContext(files: seq<FileChange>) returns (r: string)
    ensures r == ArchitectureContext(files)
  {
    var modules := GroupPaths(Paths(files));
    var moduleSummary := SummarizeModules(modules);
    if moduleSummary == [] {
      return NoModuleStructure;
    }
    r := "The PR affects the following modules:\n" + Join(moduleSummary, "\n");
  }

  /** The second loop of `_prepare_architecture_context`: one bullet per module, in the modules' order. */
  method SummarizeModules(modules: Dict<seq<string>>) returns (moduleSummary: seq<string>)
    ensures moduleSummary == ModuleLines(modules)
  {
    moduleSummary := [];
    var i := 0;
    while i < |modules|
      invariant 0 <= i <= |modules|
      invariant |moduleSummary| == i
      invariant forall k :: 0 <= k < i ==> moduleSummary[k] == ModuleLine(modules[k])
    {
      moduleSummary := moduleSummary + [ModuleLine(modules[i])];
      i := i + 1;
    }
  }

  const NoDiff := "No diff found in the PR data"
  const MaxDiffLength := 2000

  function TruncationNotice(length: nat): string {
    "\n\n[Diff truncated, total length: " + NatToString(length) + " characters]"
  }

  /** `_prepare_diff_excerpt` with its default `max_length` of 2000. */
  function DiffExcerpt(diff: string): (r: string)
    ensures diff == "" ==> r == NoDiff
    ensures diff != "" && |diff| <= MaxDiffLength ==> r == diff
    ensures |diff| > MaxDiffLength ==>
      StartsWith(r, diff[..MaxDiffLength]) && EndsWith(r, TruncationNotice(|diff|)) &&
      |r| == MaxDiffLength + |TruncationNotice(|diff|)|
  {
    if diff == "" then NoDiff
    else if |diff| > MaxDiffLength then
      ConcatEnds(diff[..MaxDiffLength], TruncationNotice(|diff|));
      diff[..MaxDiffLength] + TruncationNotice(|diff|)
    else diff
  }

  /** A truncated excerpt states the full length of the diff, which can be read back from it. */
  lemma TruncationNoticeLength(diff: string)
    requires |diff| > MaxDiffLength
    ensures exists digits :: (AllDigits(digits) && DigitsValue(digits) == |diff| &&
      DiffExcerpt(diff) == diff[..MaxDiffLength] + "\n\n[Diff truncated, total length: " + digits + " characters]")
  {
    NatToStringValue(|diff|);
    var digits := NatToString(|diff|);
    assert DiffExcerpt(diff) == diff[..MaxDiffLength] + "\n\n[Diff truncated, total length: " + digits + " characters]";
  }

  // ---------------------------------------------------------------------------
  // The prompt
  // ---------------------------------------------------------------------------

  /** The sixteen values passed to `format`. */
  datatype Values = Values(
    title: string, number: string, url: string, author: string, body: string,
    repository: string, state: string, createdAt: string, mergedAt: string, mergedBy: string,
    labels: string, fileChangesSummary: string, architectureContext: string,
    outputLanguage: string, outputLanguageCode: string, diffExcerpt: string)

  /** The values computed from the record; `author` is the already looked-up login. */
  function PromptValues(pr: PullRequest, author: string, languageCode: string): Values {
    Values(
      TextOr(pr.title, "No title"), NumberOr(pr.number), TextOr(pr.url, "No URL"), author,
      TextOr(pr.body, "No description"), TextOr(pr.repository, "Unknown"), TextOr(pr.state, "Unknown"),
      TextOr(pr.createdAt, "Unknown"), MergedAtText(pr.mergedAt), MergedByText(pr.mergedBy),
      LabelsText(pr.labels), FileChangesSummary(pr.files, ChangesKey), ArchitectureContext(pr.files),
      Languages.LanguageName(languageCode), languageCode, DiffExcerpt(pr.diff))
  }

  /** The keyword arguments of the `format` call, by slot name. */
  function Arguments(v: Values): Dict<string> {
    [("PR_TITLE", v.title), ("PR_NUMBER", v.number), ("PR_URL", v.url), ("PR_AUTHOR", v.author),
     ("PR_BODY", v.body), ("PR_REPOSITORY", v.repository), ("PR_STATE", v.state),
     ("PR_CREATED_AT", v.createdAt), ("PR_MERGED_AT", v.mergedAt), ("PR_MERGED_BY", v.mergedBy),
     ("PR_LABELS", v.labels), ("FILE_CHANGES_SUMMARY", v.fileChangesSummary),
     ("ARCHITECTURE_CONTEXT", v.architectureContext), ("OUTPUT_LANGUAGE", v.outputLanguage),
     ("OUTPUT_LANGUAGE_CODE", v.outputLanguageCode), ("DIFF_EXCERPT", v.diffExcerpt)]
  }

  /**
   * `build_pr_analysis_prompt`: load the template, compute the values and
   * fill the template. It fails when no template file exists, when the
   * author is a present `null`, and when the template names an unknown slot.
   */
  function BuildPrAnalysisPrompt(pr: PullRequest, languageCode: string, promptFile: Option<Template>, templateFile: Option<Template>): (r: Result<string>)
    ensures promptFile.None? && templateFile.None? ==> r.Err? && r.error.FileNotFoundError?
    ensures LoadTemplate(promptFile, templateFile).Ok? && pr.author.Null? ==> r.Err? && r.error.AttributeError?
  {
    match LoadTemplate(promptFile, templateFile)
    case Err(e) => Err(e)
    case Ok(template) =>
      match AuthorText(pr.author)
      case Err(e) => Err(e)
      case Ok(author) =>
        Format(template, Arguments(PromptValues(pr, author, languageCode)))
  }

  /**
   * The field fallbacks: a missing title, number, URL or body gives
   * "No title", "Unknown", "No URL" or "No description", while a present
   * `null` body is printed as "None" rather than replaced.
   */
  lemma FieldFallbacks(pr: PullRequest, author: string, code: string)
    ensures var v := PromptValues(pr, author, code);
      (pr.title.Absent? ==> v.title == "No title") &&
      (pr.number.Absent? ==> v.number == "Unknown") &&
      (pr.url.Absent? ==> v.url == "No URL") &&
      (pr.body.Absent? ==> v.body == "No description") &&
      (pr.body.Null? ==> v.body == "None") &&
      (pr.body.Present? ==> v.body == pr.body.value)
  {
  }

  /** A missing author, or one without a login, is "Unknown". */
  lemma AuthorFallback(author: Field<Account>)
    ensures author.Absent? ==> AuthorText(author) == Ok("Unknown")
    ensures author.Present? && author.value.login.None? ==> AuthorText(author) == Ok("Unknown")
    ensures AuthorText(author).Err? <==> author.Null?
  {
  }
}
