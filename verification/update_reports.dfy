/**
 * The decisions of the report-update driver, in its two versions
 * (pipeline/update_pr_reports.py and scripts/update_pr_reports.py): which
 * PR numbers the tracker printed, which languages and provider to use, the
 * per-language timeout-retry loop and the status reported for each PR.
 *
 * The child scripts are not run: what each run returned (exit code and
 * output) is a parameter, indexed by the attempt number.
 */
module UpdateReports {
  import opened Wrappers
  import opened Text
  import opened Configuration

  // ---------------------------------------------------------------------
  // extract_pr_numbers
  // ---------------------------------------------------------------------

  /** `re.match(r'^#(\d+) - ', line)`: the digits of the match, if the line matches. */
  function PrNumberOf(line: string): (r: Option<string>)
    ensures r.Some? ==> r.value != [] && AllDigits(r.value) && StartsWith(line, "#" + r.value + " - ")
  {
    if line == [] || line[0] != '#' then None
    else
      var n := LeadingDigits(line[1..]);
      if n > 0 && StartsWith(line[1 + n..], " - ") then
        assert line[..1 + n + 3] == "#" + line[1..1 + n] + " - ";
        Some(line[1..1 + n])
      else None
  }

  /** Every line of the form "#<digits> - ..." matches, with exactly those digits. */
  lemma PrNumberOfMatches(digits: string, rest: string)
    requires digits != [] && AllDigits(digits)
    ensures PrNumberOf("#" + digits + " - " + rest) == Some(digits)
  {
    var line := "#" + digits + " - " + rest;
    var s := line[1..];
    assert s == digits + " - " + rest;
    assert s[|digits|] == ' ';
    var n := LeadingDigits(s);
    assert n == |digits|;
    assert s[n..] == " - " + rest;
    assert line[1..1 + n] == digits;
  }

  /** The PR numbers of a list of lines, in line order. */
  function PrNumbers(lines: seq<string>): (r: seq<string>)
    ensures |r| <= |lines|
    ensures forall i :: 0 <= i < |r| ==> r[i] != [] && AllDigits(r[i])
  {
    if lines == [] then []
    else
      var head := PrNumberOf(lines[0]);
      (if head.Some? then [head.value] else []) + PrNumbers(lines[1..])
  }

  lemma {:induction false} PrNumbersAppend(a: seq<string>, b: seq<string>)
    ensures PrNumbers(a + b) == PrNumbers(a) + PrNumbers(b)
  {
    if a == [] {
      assert a + b == b;
    } else {
      assert (a + b)[0] == a[0] && (a + b)[1..] == a[1..] + b;
      PrNumbersAppend(a[1..], b);
    }
  }

  /**
   * `extract_pr_numbers(output)`, identical in both versions: the digit
   * strings of the lines starting "#<digits> - ", in order.
   */
  method ExtractPrNumbers(output: string) returns (prNumbers: seq<string>)
    ensures prNumbers == PrNumbers(LineBreakSplit(output))
    ensures forall i :: 0 <= i < |prNumbers| ==> prNumbers[i] != [] && AllDigits(prNumbers[i])
  {
    var lines := LineBreakSplit(output);
    prNumbers := [];
    for i := 0 to |lines|
      invariant prNumbers == PrNumbers(lines[..i])
    {
      var m := PrNumberOf(lines[i]);
      assert lines[..i + 1] == lines[..i] + [lines[i]];
      PrNumbersAppend(lines[..i], [lines[i]]);
      assert PrNumbers([lines[i]]) == (if m.Some? then [m.value] else []) by {
        assert [lines[i]][1..] == [];
      }
      if m.Some? {
        prNumbers := prNumbers + [m.value];
      }
    }
    assert lines[..|lines|] == lines;
  }

  /** One line the tracker prints for an unsynchronised PR: "#<number> - <title> (<url>)". */
  function TrackerLine(number: nat, title: string, url: string): string {
    "#" + NatToString(number) + " - " + title + " (" + url + ")"
  }

  predicate NoLineBreak(s: string) {
    forall i :: 0 <= i < |s| ==> !IsLineBreak(s[i])
  }

  /** What the tracker writes to standard output: one line per PR, each ended by "\n". */
  function TrackerOutput(prs: seq<(nat, string, string)>): string {
    if prs == [] then "" else TrackerLine(prs[0].0, prs[0].1, prs[0].2) + "\n" + TrackerOutput(prs[1..])
  }

  lemma {:induction false} LineBreakSplitLine(a: string, b: string)
    requires NoLineBreak(a)
    ensures LineBreakSplit(a + "\n" + b) == [a] + LineBreakSplit(b)
  {
    if a == [] {
      assert a + "\n" + b == "\n" + b;
      assert ("\n" + b)[1..] == b;
    } else {
      var s := a + "\n" + b;
      assert s[0] == a[0] && !IsLineBreak(a[0]);
      assert s[1..] == a[1..] + "\n" + b;
      LineBreakSplitLine(a[1..], b);
      assert [a[0]] + a[1..] == a;
    }
  }

  function Numbers(prs: seq<(nat, string, string)>): (r: seq<string>)
    ensures |r| == |prs|
    ensures forall i :: 0 <= i < |r| ==> r[i] == NatToString(prs[i].0)
  {
    if prs == [] then [] else [NatToString(prs[0].0)] + Numbers(prs[1..])
  }

  /**
   * Reading the tracker's output back gives the PR numbers it printed, in
   * order, whatever the titles and URLs (short of a line break in them).
   */
  lemma {:induction false} TrackerOutputRoundTrip(prs: seq<(nat, string, string)>)
    requires forall i :: 0 <= i < |prs| ==> NoLineBreak(prs[i].1) && NoLineBreak(prs[i].2)
    ensures PrNumbers(LineBreakSplit(TrackerOutput(prs))) == Numbers(prs)
  {
    if prs != [] {
      var line := TrackerLine(prs[0].0, prs[0].1, prs[0].2);
      var digits := NatToString(prs[0].0);
      assert NoLineBreak(line) by {
        assert line == "#" + digits + " - " + prs[0].1 + " (" + prs[0].2 + ")";
        forall i | 0 <= i < |digits| ensures !IsLineBreak(digits[i]) {
          assert IsDigit(digits[i]);
        }
      }
      LineBreakSplitLine(line, TrackerOutput(prs[1..]));
      assert line == "#" + digits + " - " + (prs[0].1 + " (" + prs[0].2 + ")");
      PrNumberOfMatches(digits, prs[0].1 + " (" + prs[0].2 + ")");
      TrackerOutputRoundTrip(prs[1..]);
    }
  }

  // ---------------------------------------------------------------------
  // Configuration getters
  // ---------------------------------------------------------------------

  /** The configured `output.languages`, if the key is there. */
  function ConfiguredLanguages(config: Config): Option<seq<string>> {
    if config.output.Some? then config.output.value.languages else None
  }

  /** `[lang for lang in languages if lang]` */
  function NonEmptyOnly(langs: seq<string>): (r: seq<string>)
    ensures forall x :: x in r <==> x in langs && x != ""
    ensures |r| <= |langs|
  {
    if langs == [] then []
    else (if langs[0] != "" then [langs[0]] else []) + NonEmptyOnly(langs[1..])
  }

  /** A single code is kept exactly when it is non-empty. */
  lemma NonEmptyOnlySingle(lang: string)
    ensures NonEmptyOnly([lang]) == if lang != "" then [lang] else []
  {
    assert [lang][1..] == [];
  }

  /**
   * The filter keeps the configured order and repeats: it works on each
   * part of a split list separately, so with `NonEmptyOnlySingle` the
   * result is the non-empty codes one by one, in list order.
   */
  lemma {:induction false} NonEmptyOnlyAppend(a: seq<string>, b: seq<string>)
    ensures NonEmptyOnly(a + b) == NonEmptyOnly(a) + NonEmptyOnly(b)
  {
    if a == [] {
      assert a + b == b;
    } else {
      assert (a + b)[0] == a[0] && (a + b)[1..] == a[1..] + b;
      NonEmptyOnlyAppend(a[1..], b);
      var head := if a[0] != "" then [a[0]] else [];
      assert head + (NonEmptyOnly(a[1..]) + NonEmptyOnly(b)) == (head + NonEmptyOnly(a[1..])) + NonEmptyOnly(b);
    }
  }

  /**
   * `get_output_language_from_config` (pipeline): the configured languages
   * without the empty ones, or ["en"] when there is nothing left, the key is
   * missing or the configuration is empty.
   */
  function OutputLanguages(config: Config): (r: seq<string>)
    ensures r != []
    ensures forall x :: x in r ==> x != ""
    ensures "multilingual" in r ==> ConfiguredLanguages(config).Some? && "multilingual" in ConfiguredLanguages(config).value
    ensures r != ["en"] ==> forall x :: x in r ==> ConfiguredLanguages(config).Some? && x in ConfiguredLanguages(config).value
    ensures ConfigTruthy(config) && ConfiguredLanguages(config).Some? && (exists x :: x in ConfiguredLanguages(config).value && x != "") ==>
      forall x :: x in r <==> x in ConfiguredLanguages(config).value && x != ""
    ensures r != ["en"] ==> ConfiguredLanguages(config).Some? && r == NonEmptyOnly(ConfiguredLanguages(config).value)
    ensures ConfigTruthy(config) && ConfiguredLanguages(config).Some? && NonEmptyOnly(ConfiguredLanguages(config).value) != [] ==>
      r == NonEmptyOnly(ConfiguredLanguages(config).value)
  {
    var configured := ConfiguredLanguages(config);
    if !ConfigTruthy(config) || configured.None? || configured.value == [] then ["en"]
    else
      var valid := NonEmptyOnly(configured.value);
      if valid == [] then ["en"] else valid
  }

  /**
   * `get_output_language_from_config` (scripts): one code for the analysis
   * script, "multilingual" as soon as several languages are configured.
   */
  function OutputLanguage(config: Config): (r: string)
    ensures var c := ConfiguredLanguages(config);
      (!ConfigTruthy(config) || c.None? || c.value == [] ==> r == "en") &&
      (ConfigTruthy(config) && c.Some? && |c.value| > 1 ==> r == "multilingual") &&
      (ConfigTruthy(config) && c.Some? && |c.value| == 1 ==> r == c.value[0])
  {
    var configured := ConfiguredLanguages(config);
    if !ConfigTruthy(config) || configured.None? || configured.value == [] then "en"
    else if |configured.value| > 1 then "multilingual"
    else configured.value[0]
  }

  /** The two versions agree on a configuration with one non-empty language. */
  lemma SingleLanguageAgrees(config: Config, lang: string)
    requires ConfigTruthy(config) && ConfiguredLanguages(config) == Some([lang]) && lang != ""
    ensures OutputLanguages(config) == [OutputLanguage(config)]
  {
    assert NonEmptyOnly([lang]) == [lang] by {
      assert [lang][1..] == [];
    }
  }

  /** `get_provider_from_config`, the same in both versions: "deepseek" unless `llm.provider` is set. */
  function ProviderFromConfig(config: Config): (r: string)
    ensures ConfigTruthy(config) && config.llm.Some? && config.llm.value.provider.Some? ==> r == config.llm.value.provider.value
    ensures !ConfigTruthy(config) || config.llm.None? || config.llm.value.provider.None? ==> r == "deepseek"
  {
    if ConfigTruthy(config) && config.llm.Some? && config.llm.value.provider.Some? then config.llm.value.provider.value
    else "deepseek"
  }

  /** `get_repositories_from_config`, the same in both versions: [] unless `github.repositories` is set. */
  function RepositoriesFromConfig(config: Config): (r: seq<string>)
    ensures ConfigTruthy(config) && config.github.Some? && config.github.value.repositories.Some? ==> r == config.github.value.repositories.value
    ensures !ConfigTruthy(config) || config.github.None? || config.github.value.repositories.None? ==> r == []
  {
    if ConfigTruthy(config) && config.github.Some? && config.github.value.repositories.Some? then config.github.value.repositories.value
    else []
  }

  /** How a run of the driver starts: it gives up with exit code 1, or goes on with these settings. */
  datatype Plan<L> = Abort | Proceed(repositories: seq<string>, languages: L, provider: string)

  /**
   * Steps 1 and 2 of the pipeline driver: the repository check must exit
   * with 0, and the configuration must be non-empty and list at least one
   * repository. An unreadable configuration raises (the pipeline's
   * `read_config` raises RuntimeError).
   */
  function PipelinePlan(checkReturncode: int, config: Result<Config>): (r: Result<Plan<seq<string>>>)
    ensures checkReturncode != 0 ==> r == Ok(Abort)
    ensures checkReturncode == 0 && config.Err? ==> r == Err(config.error)
    ensures r.Ok? && r.value.Proceed? ==>
      config.Ok? && r.value.repositories != [] && r.value.repositories == RepositoriesFromConfig(config.value) &&
      r.value.languages != [] && r.value.languages == OutputLanguages(config.value) &&
      r.value.provider == ProviderFromConfig(config.value)
    ensures checkReturncode == 0 && config.Ok? ==>
      (r == Ok(Abort) <==> !ConfigTruthy(config.value) || RepositoriesFromConfig(config.value) == [])
  {
    if checkReturncode != 0 then Ok(Abort)
    else if config.Err? then Err(config.error)
    else
      var c := config.value;
      if !ConfigTruthy(c) then Ok(Abort)
      else
        var repositories := RepositoriesFromConfig(c);
        if repositories == [] then Ok(Abort)
        else Ok(Proceed(repositories, OutputLanguages(c), ProviderFromConfig(c)))
  }

  /** Steps 1 and 2 of the scripts driver, whose `read_config` returns None for an unreadable file. */
  function ScriptsPlan(checkReturncode: int, config: Option<Config>): (r: Plan<string>)
    ensures r.Proceed? <==>
      checkReturncode == 0 && config.Some? && ConfigTruthy(config.value) && RepositoriesFromConfig(config.value) != []
    ensures r.Proceed? ==>
      r.repositories == RepositoriesFromConfig(config.value) &&
      r.languages == OutputLanguage(config.value) && r.provider == ProviderFromConfig(config.value)
  {
    if checkReturncode != 0 || config.None? || !ConfigTruthy(config.value) then Abort
    else
      var repositories := RepositoriesFromConfig(config.value);
      if repositories == [] then Abort
      else Proceed(repositories, OutputLanguage(config.value), ProviderFromConfig(config.value))
  }

  // ---------------------------------------------------------------------
  // The per-language timeout-retry loop (pipeline only)
  // ---------------------------------------------------------------------

  /** What `run_script` returned: exit code, stdout and stderr. */
  datatype ScriptOutcome = ScriptOutcome(returncode: int, stdout: string, stderr: string)

  const MaxRetries := 2
  const RetrySleep := 3
  const DefaultTimeout := 600

  /** `sub in s`, scanning from the left. */
  predicate Occurs(s: string, sub: string)
    decreases |s|
  {
    StartsWith(s, sub) || (s != [] && Occurs(s[1..], sub))
  }

  /** An occurrence at any index is found by the scan. */
  lemma {:induction false} OccursAtOccurs(s: string, sub: string, j: nat)
    requires OccursAt(s, sub, j)
    ensures Occurs(s, sub)
    decreases j
  {
    if j > 0 {
      assert s[1..][j - 1..] == s[j..];
      OccursAtOccurs(s[1..], sub, j - 1);
    }
  }

  /** `"timed out" in stderr.lower()` */
  predicate TimedOut(o: ScriptOutcome) {
    Occurs(Lower(o.stderr), "timed out")
  }

  /** What `run_script` returns when the child outlives its timeout. */
  function TimeoutOutcome(timeout: nat): ScriptOutcome {
    ScriptOutcome(1, "", "Execution timed out after " + NatToString(timeout) + " seconds")
  }

  /** A child killed for running too long is retried: its outcome is a failure whose stderr says "timed out". */
  lemma TimeoutIsRetried(timeout: nat)
    ensures TimeoutOutcome(timeout).returncode != 0 && TimedOut(TimeoutOutcome(timeout))
  {
    var s := TimeoutOutcome(timeout).stderr;
    var l := Lower(s);
    assert s[10..19] == "timed out";
    assert l[10..19] == "timed out";
    assert OccursAt(l, "timed out", 10);
    OccursAtOccurs(l, "timed out", 10);
  }

  /** The failure message recorded when every attempt timed out. */
  const TimeoutFailure := "Timeout after 2 retries"

  /** A run that the loop retries: it failed and its stderr says "timed out". */
  predicate Retried(o: ScriptOutcome) {
    o.returncode != 0 && TimedOut(o)
  }

  /** The first run, from `k` on, that is not retried; `MaxRetries + 1` when all of them are. */
  function FirstSettled(run: nat -> ScriptOutcome, k: nat): (r: nat)
    requires k <= MaxRetries + 1
    ensures k <= r <= MaxRetries + 1
    ensures forall j :: k <= j < r ==> Retried(run(j))
    ensures r <= MaxRetries ==> !Retried(run(r))
    decreases MaxRetries + 1 - k
  {
    if k > MaxRetries || !Retried(run(k)) then k else FirstSettled(run, k + 1)
  }

  /** `n` copies of `x`. */
  function Repeat(x: int, n: nat): (r: seq<int>)
    ensures |r| == n && forall i :: 0 <= i < n ==> r[i] == x
  {
    if n == 0 then [] else Repeat(x, n - 1) + [x]
  }

  /** What the retry loop did for one language: success, runs of the script, sleeps, and the failure records written. */
  datatype Attempts = Attempts(success: bool, runs: nat, sleeps: seq<int>, failures: seq<string>)

  /**
   * What the retry loop does for one language, where `run(k)` is what the
   * run with `retry_count == k` returns: every run up to the first one that
   * is not retried, a 3-second sleep between two runs, and one failure
   * record unless that run succeeded.
   */
  function RetryAnalysis(run: nat -> ScriptOutcome): (r: Attempts)
    ensures 1 <= r.runs <= MaxRetries + 1
    ensures r.success <==> run(r.runs - 1).returncode == 0
    ensures forall j :: 0 <= j < r.runs - 1 ==> Retried(run(j))
    ensures r.sleeps == Repeat(RetrySleep, r.runs - 1)
    ensures |r.failures| == (if r.success then 0 else 1)
  {
    SettledFrom(run, 0, FirstSettled(run, 0))
  }

  /**
   * The attempts from the run with `retry_count == k` on, when run `t` is
   * the first one that is not retried (`MaxRetries + 1` when all are).
   */
  function SettledFrom(run: nat -> ScriptOutcome, k: nat, t: nat): Attempts
    requires k <= MaxRetries && k <= t <= MaxRetries + 1
  {
    if t > MaxRetries then Attempts(false, MaxRetries + 1 - k, Repeat(RetrySleep, MaxRetries - k), [TimeoutFailure])
    else if run(t).returncode == 0 then Attempts(true, t - k + 1, Repeat(RetrySleep, t - k), [])
    else Attempts(false, t - k + 1, Repeat(RetrySleep, t - k), [run(t).stderr])
  }

  /** Starting one run earlier adds that run and one sleep in front. */
  lemma SettledShift(run: nat -> ScriptOutcome, k: nat, t: nat)
    requires k < MaxRetries && k < t <= MaxRetries + 1
    ensures var rest := SettledFrom(run, k + 1, t);
      SettledFrom(run, k, t) == Attempts(rest.success, rest.runs + 1, [RetrySleep] + rest.sleeps, rest.failures)
  {
    var n := if t > MaxRetries then MaxRetries - k - 1 else t - k - 1;
    assert [RetrySleep] + Repeat(RetrySleep, n) == Repeat(RetrySleep, n + 1);
  }

  /**
   * The retry loop of `update_pr_reports` for one language: it runs the
   * analysis, retries after 3 seconds on a timeout (at most twice) and
   * stops at once on any other failure.
   */
  method AnalyzeWithRetry(run: nat -> ScriptOutcome) returns (a: Attempts)
    ensures a == RetryAnalysis(run)
  {
    var maxRetries := MaxRetries;
    var retryCount: nat := 0;
    var executeSuccess := false;
    var runs: nat, sleeps: seq<int>, failures: seq<string> := 0, [], [];
    while retryCount <= maxRetries && !executeSuccess
      invariant retryCount <= maxRetries && failures == []
      invariant forall j :: 0 <= j < retryCount ==> Retried(run(j))
      invariant sleeps == Repeat(RetrySleep, retryCount)
      invariant runs == retryCount + (if executeSuccess then 1 else 0)
      invariant executeSuccess ==> run(retryCount).returncode == 0
      decreases maxRetries + 1 - retryCount, if executeSuccess then 0 else 1
    {
      var outcome := run(retryCount);
      runs := runs + 1;
      if outcome.returncode == 0 {
        executeSuccess := true;
      } else if TimedOut(outcome) {
        retryCount := retryCount + 1;
        if retryCount <= maxRetries {
          sleeps := sleeps + [RetrySleep];
        } else {
          failures := failures + [TimeoutFailure];
          return Attempts(false, runs, sleeps, failures);
        }
      } else {
        failures := failures + [outcome.stderr];
        return Attempts(false, runs, sleeps, failures);
      }
    }
    a := Attempts(executeSuccess, runs, sleeps, failures);
  }

  /**
   * The same loop read as a recursion over `retry_count`: the attempts from
   * the run with `retry_count == k` on.
   */
  function AttemptsFrom(run: nat -> ScriptOutcome, k: nat): (r: Attempts)
    requires k <= MaxRetries
    ensures 1 <= r.runs <= MaxRetries + 1 - k
    decreases MaxRetries - k
  {
    var o := run(k);
    if o.returncode == 0 then Attempts(true, 1, [], [])
    else if TimedOut(o) then
      if k + 1 <= MaxRetries then
        var rest := AttemptsFrom(run, k + 1);
        Attempts(rest.success, rest.runs + 1, [RetrySleep] + rest.sleeps, rest.failures)
      else Attempts(false, 1, [], [TimeoutFailure])
    else Attempts(false, 1, [], [o.stderr])
  }

  /** The attempts from `k` on, stated through the first run from `k` that is not retried. */
  lemma {:induction false} AttemptsFromSettled(run: nat -> ScriptOutcome, k: nat)
    requires k <= MaxRetries
    ensures AttemptsFrom(run, k) == SettledFrom(run, k, FirstSettled(run, k))
    decreases MaxRetries - k
  {
    if Retried(run(k)) && k < MaxRetries {
      AttemptsFromSettled(run, k + 1);
      var t := FirstSettled(run, k + 1);
      assert FirstSettled(run, k) == t;
      SettledShift(run, k, t);
    } else if Retried(run(k)) {
      assert FirstSettled(run, k) == MaxRetries + 1;
      assert Repeat(RetrySleep, 0) == [];
    } else {
      assert FirstSettled(run, k) == k;
      assert Repeat(RetrySleep, 0) == [];
    }
  }

  /** The closed form and the recursion describe the same loop. */
  lemma RetryAnalysisRecursion(run: nat -> ScriptOutcome)
    ensures RetryAnalysis(run) == AttemptsFrom(run, 0)
  {
    AttemptsFromSettled(run, 0);
  }

  /** A failure that is not a timeout stops the loop at once and records exactly its stderr. */
  lemma OtherFailureStops(run: nat -> ScriptOutcome, j: nat)
    requires j <= MaxRetries
    requires forall i :: 0 <= i < j ==> Retried(run(i))
    requires run(j).returncode != 0 && !TimedOut(run(j))
    ensures RetryAnalysis(run) == Attempts(false, j + 1, Repeat(RetrySleep, j), [run(j).stderr])
  {
    assert FirstSettled(run, 0) == j;
  }

  /** Three timeouts in a row: three runs, two 3-second sleeps, one "Timeout after 2 retries" record. */
  lemma ThreeTimeoutsGiveUp(run: nat -> ScriptOutcome)
    requires forall i :: 0 <= i <= MaxRetries ==> Retried(run(i))
    ensures RetryAnalysis(run) == Attempts(false, 3, [3, 3], [TimeoutFailure])
  {
    assert FirstSettled(run, 0) == MaxRetries + 1;
    assert Repeat(RetrySleep, 2) == [3, 3];
  }

  /**
   * A language's analysis succeeds exactly when some run exits with 0 after
   * nothing but timeouts.
   */
  lemma SuccessMeansCleanExit(run: nat -> ScriptOutcome)
    ensures RetryAnalysis(run).success <==>
      exists j :: 0 <= j <= MaxRetries && run(j).returncode == 0 && forall i :: 0 <= i < j ==> Retried(run(i))
  {
    var t := FirstSettled(run, 0);
    if RetryAnalysis(run).success {
      assert run(t).returncode == 0;
    } else {
      forall j | 0 <= j <= MaxRetries && run(j).returncode == 0
        ensures exists i :: 0 <= i < j && !Retried(run(i))
      {
        assert !Retried(run(t));
      }
    }
  }

  /** The status argument the driver passes for a PR. */
  function ReportedStatus(success: bool): (s: string)
    ensures s == "success" || s == "failure"
    ensures s == "success" <==> success
  {
    if success then "success" else "failure"
  }

  /** One language's outcome: the code and what the retry loop did. */
  datatype LanguageResult = LanguageResult(language: string, attempts: Attempts)

  /**
   * Step 6 of the pipeline driver for one PR: every configured language is
   * analysed with its own retry loop, and the PR succeeds only if all of
   * them did. `runs` pairs each language with what its script runs return.
   */
  method AnalyzePr(runs: seq<(string, nat -> ScriptOutcome)>) returns (results: seq<LanguageResult>, analysisSuccess: bool, status: string)
    ensures |results| == |runs|
    ensures forall i :: 0 <= i < |runs| ==> results[i] == LanguageResult(runs[i].0, RetryAnalysis(runs[i].1))
    ensures analysisSuccess <==> forall i :: 0 <= i < |results| ==> results[i].attempts.success
    ensures status == ReportedStatus(analysisSuccess)
  {
    analysisSuccess := true;
    results := [];
    for i := 0 to |runs|
      invariant |results| == i
      invariant forall j :: 0 <= j < i ==> results[j] == LanguageResult(runs[j].0, RetryAnalysis(runs[j].1))
      invariant analysisSuccess <==> forall j :: 0 <= j < i ==> results[j].attempts.success
    {
      var a := AnalyzeWithRetry(runs[i].1);
      results := results + [LanguageResult(runs[i].0, a)];
      if !a.success {
        analysisSuccess := false;
      }
    }
    status := ReportedStatus(analysisSuccess);
  }

  /** The scripts driver runs the analysis once and reports success exactly when it exits with 0. */
  function ScriptsStatus(returncode: int): (s: string)
    ensures s == "success" <==> returncode == 0
    ensures s == "failure" <==> returncode != 0
  {
    ReportedStatus(returncode == 0)
  }
}
