/**
 * `PRAnalyzer.analyze_pr` (pipeline/pr_analyzer.py): the steps that turn a
 * pull-request record into an analysis result for one language. The
 * language model's reply, the outcome of each file write, the clock and the
 * template files are inputs.
 */
module PrAnalyzer {
  import opened Wrappers
  import opened Text
  import opened PrData
  import opened OutputNaming
  import opened PromptBuilder
  import Languages

  /** What the surrounding system supplies: the reply (or the exception the provider raised), the two writes, the clock and the template files. */
  datatype Environment = Environment(
    completion: Result<string>,
    analysisDir: seq<string>,
    date: Date,
    saveAnalysisError: Option<string>,
    saveDiffError: Option<string>,
    promptFile: Option<Template>,
    templateFile: Option<Template>)

  /** The `result` dict; a key that is not set is `None`. */
  datatype Analysis = Analysis(
    repository: string,
    prNumber: int,
    language: string,
    languageName: string,
    prompt: string,
    analysis: Option<string>,
    analysisPath: Option<seq<string>>,
    diffPath: Option<seq<string>>,
    error: Option<string>)

  /** The language actually used: an unsupported code falls back to "en". */
  function EffectiveLanguage(language: string): (r: string)
    ensures Languages.IsSupported(r)
    ensures Languages.IsSupported(language) ==> r == language
  {
    if Languages.IsSupported(language) then language else "en"
  }

  /** `repo` and `pr_number` are both truthy. */
  predicate Identifies(pr: PullRequest) {
    pr.repository.Present? && pr.repository.value != "" && pr.number.Present? && pr.number.value != 0
  }

  function DryRunText(languageName: string): string {
    "# " + languageName + "\n\n[Dry run mode: This is a placeholder for the actual analysis]"
  }

  /** Where a report of `base` with the extension `ext` is written: `generate_output_path` below the analysis directory. */
  function ReportFile(env: Environment, base: Analysis, ext: string): seq<string> {
    OutputPath(env.analysisDir, base.repository, IntToString(base.prNumber), ext, Some(base.language), env.date)
  }

  /**
   * The call to the provider and the writes, inside the `try` of
   * `analyze_pr`. The analysis is the provider's reply; the Markdown report
   * is written exactly when an output directory is given; the diff exactly
   * when, in addition, `save_diff` is set, the diff is non-empty and the
   * first write succeeded; the first exception raised is the error.
   */
  function Generate(pr: PullRequest, base: Analysis, outputDirGiven: bool, saveDiff: bool, env: Environment): (r: Analysis)
    requires base.analysis.None? && base.analysisPath.None? && base.diffPath.None? && base.error.None?
    ensures (r.repository, r.prNumber, r.language, r.languageName, r.prompt) ==
      (base.repository, base.prNumber, base.language, base.languageName, base.prompt)
    ensures r.analysis == (if env.completion.Ok? then Some(env.completion.value) else None)
    ensures r.analysisPath.Some? <==> env.completion.Ok? && outputDirGiven && env.saveAnalysisError.None?
    ensures r.analysisPath.Some? ==> r.analysisPath.value == ReportFile(env, base, "md")
    ensures r.diffPath.Some? <==>
      r.analysisPath.Some? && saveDiff && pr.diff != "" && env.saveDiffError.None?
    ensures r.diffPath.Some? ==> r.diffPath.value == ReportFile(env, base, "patch")
    ensures env.completion.Err? ==> r.error == Some(env.completion.error.message)
    ensures env.completion.Ok? ==>
      r.error == (if !outputDirGiven then None
        else if env.saveAnalysisError.Some? then env.saveAnalysisError
        else if saveDiff && pr.diff != "" then env.saveDiffError
        else None)
  {
    match env.completion
    case Err(e) => base.(error := Some(e.message))
    case Ok(text) =>
      var withText := base.(analysis := Some(text));
      if !outputDirGiven then withText
      else if env.saveAnalysisError.Some? then withText.(error := env.saveAnalysisError)
      else
        var number := IntToString(base.prNumber);
        var withPath := withText.(analysisPath := Some(OutputPath(env.analysisDir, base.repository, number, "md", Some(base.language), env.date)));
        if saveDiff && pr.diff != "" then
          if env.saveDiffError.Some? then withPath.(error := env.saveDiffError)
          else withPath.(diffPath := Some(OutputPath(env.analysisDir, base.repository, number, "patch", Some(base.language), env.date)))
        else withPath
  }

  /**
   * `analyze_pr`. A record without a truthy repository or number raises
   * ValueError; a missing template and a `null` author raise from the
   * prompt builder; an exception of the provider or of a write is caught
   * and recorded in `error`.
   */
  function AnalyzePr(pr: PullRequest, language: string, outputDirGiven: bool, saveDiff: bool, dryRun: bool, env: Environment): (r: Result<Analysis>)
    ensures !Identifies(pr) ==> r == Err(ValueError("PR data missing repository or number"))
    ensures r.Ok? ==>
      r.value.language == EffectiveLanguage(language) && r.value.languageName == Languages.LanguageName(r.value.language)
    ensures r.Ok? && dryRun ==>
      r.value.analysis == Some(DryRunText(r.value.languageName)) && r.value.analysisPath.None? && r.value.error.None?
    ensures r.Ok? ==>
      (r.value.analysisPath.Some? ==> outputDirGiven) && (r.value.diffPath.Some? ==> outputDirGiven && saveDiff && pr.diff != "")
    ensures r.Err? ==> !Identifies(pr) || BuildPrAnalysisPrompt(pr, EffectiveLanguage(language), env.promptFile, env.templateFile).Err?
    ensures Identifies(pr) ==>
      var built := BuildPrAnalysisPrompt(pr, EffectiveLanguage(language), env.promptFile, env.templateFile);
      (built.Err? ==> r == Err(built.error)) &&
      (built.Ok? ==>
        r.Ok? && r.value.prompt == built.value && r.value.repository == pr.repository.value && r.value.prNumber == pr.number.value)
    ensures r.Ok? && !dryRun ==>
      var a := r.value;
      a.analysis == (if env.completion.Ok? then Some(env.completion.value) else None) &&
      (a.analysisPath.Some? <==> env.completion.Ok? && outputDirGiven && env.saveAnalysisError.None?) &&
      (a.analysisPath.Some? ==>
        a.analysisPath.value == ReportFile(env, a, "md")) &&
      (a.diffPath.Some? <==> a.analysisPath.Some? && saveDiff && pr.diff != "" && env.saveDiffError.None?) &&
      (a.diffPath.Some? ==>
        a.diffPath.value == ReportFile(env, a, "patch")) &&
      (env.completion.Err? ==> a.error == Some(env.completion.error.message))
  {
    var lang := EffectiveLanguage(language);
    if !Identifies(pr) then Err(ValueError("PR data missing repository or number"))
    else
      match BuildPrAnalysisPrompt(pr, lang, env.promptFile, env.templateFile)
      case Err(e) => Err(e)
      case Ok(prompt) =>
        var name := Languages.LanguageName(lang);
        var base := Analysis(pr.repository.value, pr.number.value, lang, name, prompt, None, None, None, None);
        if dryRun then Ok(base.(analysis := Some(DryRunText(name))))
        else Ok(Generate(pr, base, outputDirGiven, saveDiff, env))
  }

  /** A dry run never consults the provider or the file system: its result does not depend on them. */
  lemma DryRunIgnoresProvider(pr: PullRequest, language: string, outputDirGiven: bool, saveDiff: bool, e1: Environment, e2: Environment)
    requires e1.promptFile == e2.promptFile && e1.templateFile == e2.templateFile
    ensures AnalyzePr(pr, language, outputDirGiven, saveDiff, true, e1) == AnalyzePr(pr, language, outputDirGiven, saveDiff, true, e2)
  {
  }

  /** Once the prompt is built, no exception escapes: a failing provider or write is reported in `error`. */
  lemma FailuresCaptured(pr: PullRequest, language: string, outputDirGiven: bool, saveDiff: bool, dryRun: bool, env: Environment)
    requires Identifies(pr) && BuildPrAnalysisPrompt(pr, EffectiveLanguage(language), env.promptFile, env.templateFile).Ok?
    ensures AnalyzePr(pr, language, outputDirGiven, saveDiff, dryRun, env).Ok?
    ensures !dryRun && (env.completion.Err? || (outputDirGiven && env.saveAnalysisError.Some?)) ==>
      AnalyzePr(pr, language, outputDirGiven, saveDiff, dryRun, env).value.error.Some?
  {
  }

  /** The checks come before any prompt is built: an unidentified record fails the same way whatever the templates and the provider. */
  lemma ValidationFirst(pr: PullRequest, language: string, outputDirGiven: bool, saveDiff: bool, dryRun: bool, e1: Environment, e2: Environment)
    requires !Identifies(pr)
    ensures AnalyzePr(pr, language, outputDirGiven, saveDiff, dryRun, e1) == AnalyzePr(pr, language, outputDirGiven, saveDiff, dryRun, e2)
  {
  }
}
