/**
 * `calculate_pr_complexity` and the parameter handling inside
 * `call_openai_compatible_api` (pipeline/analyze_pr.py, with an identical
 * copy in scripts/analyze_pr.py): a complexity score from the size of a PR,
 * the generation parameters it selects, the record the score is taken
 * from, the prompt-length scaling of `max_tokens`, the endpoint URL and the
 * removal of a Markdown code fence around the reply.
 *
 * Fractions are scaled to integers: temperature and top_p in hundredths,
 * frequency_penalty in tenths.
 */
module LlmParams {
  import opened Wrappers
  import opened Text
  import opened Dicts
  import opened PrData
  import Configuration

  // ---------------------------------------------------------------------------
  // Complexity score
  // ---------------------------------------------------------------------------

  /** Factor 1: the number of changed files. */
  function FilesScore(n: nat): (r: nat)
    ensures r <= 3
  {
    if n > 20 then 3 else if n > 10 then 2 else if n > 5 then 1 else 0
  }

  /** Factor 2: the total of additions and deletions. */
  function LinesScore(t: nat): (r: nat)
    ensures r <= 3
  {
    if t > 1000 then 3 else if t > 500 then 2 else if t > 100 then 1 else 0
  }

  /** Factor 3: the length of the description. */
  function BodyScore(len: nat): (r: nat)
    ensures r <= 2
  {
    if len > 2000 then 2 else if len > 1000 then 1 else 0
  }

  /** `sum(file.get('additions', 0) + file.get('deletions', 0) for file in files)` */
  function TotalLines(files: seq<FileChange>): nat {
    if files == [] then 0 else TotalLines(files[..|files| - 1]) + files[|files| - 1].additions + files[|files| - 1].deletions
  }

  /** `len(body) if body else 0` */
  function DescriptionLength(body: Field<string>): nat {
    if body.Present? then |body.value| else 0
  }

  function Score(files: seq<FileChange>, body: Field<string>): (r: nat)
    ensures r <= 8
  {
    FilesScore(|files|) + LinesScore(TotalLines(files)) + BodyScore(DescriptionLength(body))
  }

  /** Each factor grows with its measure. */
  lemma FactorsMonotone(a: nat, b: nat)
    requires a <= b
    ensures FilesScore(a) <= FilesScore(b)
    ensures LinesScore(a) <= LinesScore(b)
    ensures BodyScore(a) <= BodyScore(b)
  {
  }

  /** A record without files and without a description (as found when the lookup fails) scores 0. */
  lemma EmptyRecordScore()
    ensures Score([], Absent) == 0
  {
  }

  // ---------------------------------------------------------------------------
  // Parameters chosen by the score
  // ---------------------------------------------------------------------------

  /** The recommended parameters; `temperature` and `topP` in hundredths, `frequencyPenalty` in tenths. */
  datatype Params = Params(score: nat, maxTokens: nat, temperature: nat, topP: nat, frequencyPenalty: nat)

  function BaseMaxTokens(score: nat): (r: nat)
    ensures r == 4000 || r == 6000 || r == 8000
    ensures r == 4000 <==> score < 3
    ensures r == 8000 <==> score >= 6
  {
    if score >= 6 then 8000 else if score >= 3 then 6000 else 4000
  }

  function Temperature(score: nat): nat {
    if score >= 6 then 20 else if score <= 2 then 40 else 30
  }

  function Complexity(files: seq<FileChange>, body: Field<string>): (r: Params)
    ensures r.score <= 8
    ensures r.maxTokens == BaseMaxTokens(r.score)
    ensures r.temperature == Temperature(r.score)
    ensures r.topP == (if r.score >= 3 then 95 else 90)
    ensures r.frequencyPenalty == (if r.score >= 3 then 1 else 0)
  {
    var s := Score(files, body);
    Params(s, BaseMaxTokens(s), Temperature(s), if s >= 3 then 95 else 90, if s >= 3 then 1 else 0)
  }

  /** A higher score never asks for fewer tokens, and never for a higher temperature. */
  lemma ParamsMonotone(s1: nat, s2: nat)
    requires s1 <= s2
    ensures BaseMaxTokens(s1) <= BaseMaxTokens(s2)
    ensures Temperature(s2) <= Temperature(s1)
  {
  }

  // ---------------------------------------------------------------------------
  // Prompt-length scaling
  // ---------------------------------------------------------------------------

  /**
   * `max_tokens` after the prompt-length scaling and the per-model cap. The
   * products `int(base * 1.5)` and `int(base * 1.2)` are exact for the three
   * possible bases, so they are written as integer arithmetic.
   */
  function ScaledMaxTokens(score: nat, promptLength: nat, model: string): (r: nat)
    ensures r <= 16000
    ensures !StartsWith(model, "gpt-3.5") ==> r >= BaseMaxTokens(score)
    ensures StartsWith(model, "gpt-3.5") ==> r <= 4000
    ensures promptLength <= 20000 && !StartsWith(model, "gpt-3.5") ==> r == BaseMaxTokens(score)
  {
    var base := BaseMaxTokens(score);
    var scaled :=
      if promptLength > 100000 then Min(16000, base * 2)
      else if promptLength > 50000 then Min(12000, base * 3 / 2)
      else if promptLength > 20000 then Min(8000, base * 6 / 5)
      else base;
    assert StartsWith(model, "gpt-4") ==> !StartsWith(model, "gpt-3.5") by {
      assert "gpt-4"[4] != "gpt-3.5"[4];
    }
    if StartsWith(model, "gpt-4") then Min(scaled, 16000)
    else if StartsWith(model, "gpt-3.5") then Min(scaled, 4000)
    else scaled
  }

  function Min(a: int, b: int): int {
    if a <= b then a else b
  }

  /** A longer prompt never gets fewer tokens, and neither does a higher score. */
  lemma ScaledMonotone(s1: nat, s2: nat, l1: nat, l2: nat, model: string)
    requires s1 <= s2 && l1 <= l2
    ensures ScaledMaxTokens(s1, l1, model) <= ScaledMaxTokens(s2, l2, model)
  {
    ParamsMonotone(s1, s2);
  }

  /** The GPT-4 cap of 16000 never binds: the scaled value is already at most 16000. */
  lemma Gpt4CapInert(score: nat, promptLength: nat)
    ensures ScaledMaxTokens(score, promptLength, "gpt-4") == ScaledMaxTokens(score, promptLength, "other")
  {
    assert StartsWith("gpt-4", "gpt-4");
    assert "other"[0] != 'g';
    assert !StartsWith("other", "gpt-4") && !StartsWith("other", "gpt-3.5");
  }

  // ---------------------------------------------------------------------------
  // The parameters sent with a request
  // ---------------------------------------------------------------------------

  /** "PR #" followed by a digit starts at position `j` of `s`. */
  predicate PrRefAt(s: string, j: nat) {
    j + 5 <= |s| && s[j..j + 4] == "PR #" && IsDigit(s[j + 4])
  }

  /** The digits of the reference at `j`, as the greedy `(\d+)` captures them. */
  function RefDigits(s: string, j: nat): (r: string)
    requires PrRefAt(s, j)
    ensures r != [] && AllDigits(r)
  {
    s[j + 4..j + 4 + LeadingDigits(s[j + 4..])]
  }

  /** `re.search(r'PR #(\d+)', s)` from position `i`: where the leftmost match starts. */
  function FirstRef(s: string, i: nat): (r: Option<nat>)
    requires i <= |s|
    ensures r.None? <==> forall j :: i <= j <= |s| ==> !PrRefAt(s, j)
    ensures r.Some? ==> i <= r.value && PrRefAt(s, r.value)
    ensures r.Some? ==> forall k :: i <= k < r.value ==> !PrRefAt(s, k)
    decreases |s| - i
  {
    if i == |s| then None
    else if PrRefAt(s, i) then Some(i)
    else FirstRef(s, i + 1)
  }

  /** The number the record is looked up by: the digits of the match, or "unknown". */
  function PromptPrNumber(prompt: string): (r: string)
    ensures r == "unknown" || (r != [] && AllDigits(r))
  {
    var m := FirstRef(prompt, 0);
    if m.Some? then RefDigits(prompt, m.value) else "unknown"
  }

  /** A prompt that starts with the reference "PR #<digits>" is looked up by those digits. */
  lemma PromptPrNumberAtStart(digits: string, rest: string)
    requires digits != [] && AllDigits(digits)
    requires rest == [] || !IsDigit(rest[0])
    ensures PromptPrNumber("PR #" + digits + rest) == digits
  {
    var s := "PR #" + digits + rest;
    assert s[..4] == "PR #" && s[4] == digits[0];
    assert PrRefAt(s, 0);
    assert s[4..] == digits + rest;
    assert forall k :: 0 <= k < |digits| ==> s[4..][k] == digits[k];
    assert |rest| > 0 ==> s[4..][|digits|] == rest[0];
    assert LeadingDigits(s[4..]) == |digits|;
  }

  /**
   * The loop over the configured repositories: the record stored under
   * `number` for the first repository that has one.
   */
  function FirstStored(repos: seq<string>, data: Dict<Dict<PullRequest>>, number: string): (r: Option<PullRequest>)
    ensures r.Some? ==> exists i :: 0 <= i < |repos| && Get(data, repos[i]).Some? && Get(Get(data, repos[i]).value, number) == r
    ensures r.None? ==> forall i :: 0 <= i < |repos| && Get(data, repos[i]).Some? ==> Get(Get(data, repos[i]).value, number).None?
  {
    if repos == [] then None
    else
      var stored := Get(data, repos[0]);
      var hit := if stored.Some? then Get(stored.value, number) else None;
      if hit.Some? then hit
      else
        var r := FirstStored(repos[1..], data, number);
        assert forall i :: 1 <= i < |repos| ==> repos[i] == repos[1..][i - 1];
        r
  }

  /** `pr_data` of `call_openai_compatible_api`: the stored record found, or `{}` as `None`. */
  function ScoredRecord(config: Configuration.Config, prompt: string): Option<PullRequest> {
    if config.github.None? then None
    else
      var g := config.github.value;
      FirstStored(if g.repositories.Some? then g.repositories.value else [],
                  if g.data.Some? then g.data.value else [],
                  PromptPrNumber(prompt))
  }

  /** The sampling parameters of the request body; `temperature` and `topP` in hundredths, `frequencyPenalty` in tenths. */
  datatype Request = Request(maxTokens: nat, temperature: nat, topP: nat, frequencyPenalty: nat)

  /**
   * The parameters `call_openai_compatible_api` sends: the complexity
   * parameters of the record found, or of `{}`, with `max_tokens` scaled by
   * the prompt length and capped for the model. The configured
   * `temperature` is passed in and then overwritten.
   */
  function RequestParams(config: Configuration.Config, prompt: string, model: string, temperature: nat): (r: Request)
    ensures r.temperature == 20 || r.temperature == 30 || r.temperature == 40
    ensures r.maxTokens <= 16000
    ensures (r.topP == 95 && r.frequencyPenalty == 1) || (r.topP == 90 && r.frequencyPenalty == 0)
    ensures r.topP == 95 <==> r.temperature != 40
  {
    var pr := ScoredRecord(config, prompt);
    var p := if pr.Some? then Complexity(pr.value.files, pr.value.body) else Complexity([], Absent);
    Request(ScaledMaxTokens(p.score, |prompt|, model), p.temperature, p.topP, p.frequencyPenalty)
  }

  /** The configured temperature never reaches the request: the complexity's always replaces it. */
  lemma ConfiguredTemperatureIgnored(config: Configuration.Config, prompt: string, model: string, t1: nat, t2: nat)
    ensures RequestParams(config, prompt, model, t1) == RequestParams(config, prompt, model, t2)
  {
  }

  /**
   * Without `github.data` no record is found, so every request is scored as
   * the empty record: score 0, temperature 0.4, top_p 0.9, no penalty.
   */
  lemma NoDataScoresEmpty(config: Configuration.Config, prompt: string, model: string, temperature: nat)
    ensures config.github.None? || config.github.value.data.None? ==>
      RequestParams(config, prompt, model, temperature) == Request(ScaledMaxTokens(0, |prompt|, model), 40, 90, 0)
  {
    var empty: Dict<Dict<PullRequest>> := [];
    assert forall x :: Get(empty, x).None?;
  }

  /**
   * The pipeline copy never stores the analysed record under `github.data`:
   * with a configuration file that has no such key, a PR large enough for
   * score 6 is sent with 4000 tokens and temperature 0.4 where its own
   * complexity asks for 8000 and 0.2.
   */
  lemma LargePrScoredEmpty(config: Configuration.Config, pr: PullRequest, prompt: string, model: string, temperature: nat)
    requires config.github.None? || config.github.value.data.None?
    requires |prompt| <= 20000 && !StartsWith(model, "gpt-3.5")
    requires Score(pr.files, pr.body) >= 6
    ensures RequestParams(config, prompt, model, temperature) == Request(4000, 40, 90, 0)
    ensures Complexity(pr.files, pr.body).maxTokens == 8000 && Complexity(pr.files, pr.body).temperature == 20
  {
    NoDataScoresEmpty(config, prompt, model, temperature);
  }

  /**
   * scripts/analyze_pr.py before calling the model: `github` and `data` are
   * created when missing and the record is stored as `data[repo][number]`.
   */
  function StorePr(config: Configuration.Config, repo: string, number: string, pr: PullRequest): (r: Configuration.Config)
    ensures r.github.Some? && r.github.value.data.Some?
    ensures var d := r.github.value.data.value;
      Get(d, repo).Some? && Get(Get(d, repo).value, number) == Some(pr)
    ensures r.github.value.repositories == (if config.github.Some? then config.github.value.repositories else None)
  {
    var g := if config.github.Some? then config.github.value else Configuration.GitHubSection(None, None, None, None);
    var data := if g.data.Some? then g.data.value else [];
    var stored := Get(data, repo);
    var records := Put(if stored.Some? then stored.value else [], number, pr);
    var d := Put(data, repo, records);
    GetPut(data, repo, records, repo);
    GetPut(if stored.Some? then stored.value else [], number, pr, number);
    config.(github := Some(g.(data := Some(d))))
  }

  /** A single stored record is found once its repository is reached. */
  lemma {:induction false} FirstStoredSingle(repos: seq<string>, repo: string, number: string, pr: PullRequest)
    requires repo in repos
    ensures FirstStored(repos, [(repo, [(number, pr)])], number) == Some(pr)
  {
    if repos[0] != repo {
      assert repo in repos[1..];
      FirstStoredSingle(repos[1..], repo, number, pr);
    }
  }

  /**
   * With the record stored as the scripts copy stores it, a configured
   * repository and a prompt that names the PR's number, the request is
   * scored from the PR being analysed.
   */
  lemma StoredPrScored(config: Configuration.Config, repo: string, number: string, pr: PullRequest, prompt: string, model: string, temperature: nat)
    requires config.github.Some? && config.github.value.data.None?
    requires config.github.value.repositories.Some? && repo in config.github.value.repositories.value
    requires PromptPrNumber(prompt) == number
    ensures var p := Complexity(pr.files, pr.body);
      RequestParams(StorePr(config, repo, number, pr), prompt, model, temperature) ==
        Request(ScaledMaxTokens(p.score, |prompt|, model), p.temperature, p.topP, p.frequencyPenalty)
  {
    var c := StorePr(config, repo, number, pr);
    assert c.github.value.data == Some([(repo, [(number, pr)])]);
    FirstStoredSingle(config.github.value.repositories.value, repo, number, pr);
  }

  // ---------------------------------------------------------------------------
  // Endpoint and reply
  // ---------------------------------------------------------------------------

  const ChatPath := "/v1/chat/completions"

  /** The request URL: `/v1` is not doubled when the base URL already ends with it. */
  function Endpoint(baseUrl: string): (r: string)
    ensures EndsWith(r, ChatPath)
    ensures StartsWith(r, baseUrl)
  {
    if EndsWith(baseUrl, "/v1") then
      var u := baseUrl[..|baseUrl| - 3];
      assert baseUrl == u + "/v1";
      assert baseUrl + "/chat/completions" == u + ChatPath;
      ConcatEnds(u, ChatPath);
      ConcatEnds(baseUrl, "/chat/completions");
      baseUrl + "/chat/completions"
    else
      ConcatEnds(baseUrl, ChatPath);
      baseUrl + ChatPath
  }

  /** A base URL with or without its `/v1` suffix reaches the same endpoint. */
  lemma EndpointV1(baseUrl: string)
    requires !EndsWith(baseUrl, "/v1")
    ensures Endpoint(baseUrl + "/v1") == Endpoint(baseUrl)
  {
    var b := baseUrl + "/v1";
    assert b[|b| - 3..] == "/v1";
    assert b + "/chat/completions" == baseUrl + ChatPath;
  }

  const OpenFence := "```markdown"
  const CloseFence := "```"

  /** The reply with a leading "```markdown" and a trailing "```" removed, each with the whitespace next to it. */
  function StripFence(content: string): (r: string)
    ensures !StartsWith(content, OpenFence) && !EndsWith(content, CloseFence) ==> r == content
    ensures |r| <= |content|
  {
    var c1 := if StartsWith(content, OpenFence) then LStrip(content[|OpenFence|..]) else content;
    if EndsWith(c1, CloseFence) then RStrip(c1[..|c1| - 3]) else c1
  }

  /** A fenced reply gives back its body when the body has no whitespace at its ends. */
  lemma StripFenceRoundTrip(w1: string, body: string, w2: string)
    requires AllSpace(w1) && AllSpace(w2)
    requires body != [] && !IsSpace(body[0]) && !IsSpace(body[|body| - 1])
    ensures StripFence(OpenFence + w1 + body + w2 + CloseFence) == body
  {
    var content := OpenFence + w1 + body + w2 + CloseFence;
    assert StartsWith(content, OpenFence);
    var rest := content[|OpenFence|..];
    assert rest == w1 + (body + (w2 + CloseFence));
    LeadingSpacesPrefix(w1, body + (w2 + CloseFence));
    var c1 := LStrip(rest);
    assert c1 == body + w2 + CloseFence;
    assert EndsWith(c1, CloseFence);
    assert c1[..|c1| - 3] == body + w2;
    RStripSuffix(body, w2);
    assert TrailingSpaces(body) == 0;
  }
}
