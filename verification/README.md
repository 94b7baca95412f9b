# PRhythm core in Dafny

PRhythm watches GitHub repositories for merged pull requests, fetches each
one with `gh`, asks an LLM for an analysis report in one or more languages,
and keeps a status file recording how far each repository has been
processed. Most of the program is orchestration around processes, HTTP and
files. This project models the deterministic logic between those calls and
proves properties of it:

- the prompt sections rendered from a pull-request record: the file
  summary, module counts, diff snippets, risk matrix, learning points,
  modified-file block, placeholder substitution and the newer
  `PromptBuilder`;
- the complexity score and the generation parameters it selects;
- the multilingual report splitter and the joiner that feeds it, with a
  split-after-join round trip;
- the status tracker's per-repository watermark and its audit log bounded
  at 100 records, in both variants (`track_merged_prs` and
  `update_batch_status`);
- output paths and the collision-free choice of a file name;
- module-context extraction;
- PR-record normalisation;
- repository-name validation, PR-number extraction, output-language
  selection and the retry policies;
- the configuration manager, the provider registry and provider factory,
  and per-language aggregation of results.

Everything outside the process is a parameter:

- the PR JSON, the diff text and file contents;
- the names already in a directory;
- the environment, as a map;
- the date;
- what a subprocess or request returned or raised.

One Dafny module per component:

| Dafny module | file | component |
|---|---|---|
| `Wrappers`, `Text`, `Dicts`, `Sorting` | wrappers.dfy, text.dfy, dicts.dfy, sorting.dfy | shared: `Option`/`Result`, Python string operations, insertion-ordered dicts, stable descending sort |
| `PrData` | prdata.dfy | the pull-request record |
| `PathGroups` | path_groups.dfy | grouping paths by first directory |
| `PromptSections` | prompt_sections.dfy | summary, architecture, impact matrix, learning points, language instruction |
| `CodeReferences` | code_refs.dfy | the diff scanner |
| `ModifiedFileContents` | file_contents.dfy | the budgeted file-contents block |
| `PromptFill` | prompt_fill.dfy | `prepare_prompt` in both variants |
| `LlmParams` | llm_params.dfy | complexity score, `max_tokens` scaling, endpoint, fence stripping |
| `LanguageMarkers`, `Languages` | markers.dfy, languages.dfy | the two language tables |
| `ReportSplit`, `ReportGenerator` | report_split.dfy, report_generator.dfy | splitter, aggregation, joiner |
| `OutputNaming` | naming.dfy | file names and paths |
| `ModuleContext` | module_context.dfy | module context, structure extraction, modified contents |
| `PrFetcher` | pr_fetcher.dfy | `PRFetcher` normalisation and save |
| `StatusTracker` | status_tracker.dfy | the status file and watermarks |
| `RepoUrl` | repo_url.dfy | `validate_repo_url` |
| `Common`, `Configuration` | common.dfy, config.dfy | retry, paths from config, the config schema |
| `GitHubClient` | github_client.dfy | `GitHubClient` |
| `PromptBuilder` | prompt_builder.dfy | `PromptBuilder` |
| `PrAnalyzer` | pr_analyzer.dfy | `PRAnalyzer.analyze_pr` |
| `UpdateReports` | update_reports.dfy | both `update_pr_reports` scripts |
| `ConfigManagement` | config_manager.dfy | `ConfigManager` |
| `Providers` | providers.dfy | `BaseProvider`, the registry, the factory |

The scripts/ and pipeline/ trees contain several copies of the same
function. Identical copies are modelled once, and the row cites the copy
the lines come from. Where the copies differ, each is modelled.

Source files are imperative Python. Their loops are `method`s with loop
invariants, proved against a specification function. Objects whose fields
change are classes: `StatusData`, `PrRecord`, `ConfigManager`,
`BaseProvider`, `ProviderRegistry` and `Client`.

## Model

| member | source | states |
|---|---|---|
| CodeReferences.SnippetsGood | pipeline/analyze_pr.py:210-250 | every collected snippet names a file and a hunk header, and its code is a non-empty run of lines each starting with '+' or '-' |
| CodeReferences.ScanAllGood | pipeline/analyze_pr.py:210-242 | the scanner state stays well formed after any sequence of lines |
| CodeReferences.NothingBeforeFirstHunk | pipeline/analyze_pr.py:226-242 | before the first `@@` line no header is set and nothing is collected |
| CodeReferences.HeaderSurvivesNextFile | pipeline/analyze_pr.py:211-224 | a `diff --git` line keeps the old hunk header, so the next file's `--- a/...` line is collected under the old header |
| CodeReferences.RenderedAt | pipeline/analyze_pr.py:254-255 | snippet k is rendered with number k+1, its file, header and code |
| CodeReferences.CollectSnippets | pipeline/analyze_pr.py:204-250 | the loop computes exactly the snippet scan of the diff, and every snippet is well formed |
| CodeReferences.FormatCodeReferences | pipeline/analyze_pr.py:200-260 | empty diff gives "No code diff available."; no snippet gives the fallback sentence; otherwise the first one to three snippets, rendered and joined by blank lines |
| Common.RetryFrom | pipeline/common.py:156-164 | calls never exceed `max_retries`; none exactly when no attempts remain, giving None; one sleep per call but the last, sleep i being `retry_delay`·2^(k+i) |
| Common.RetryOperation | pipeline/common.py:140-164 | the loop's result, call count and sleeps equal the retry specification |
| Common.RetrySkip | pipeline/common.py:156-164 | a run of caught failures costs one call and one doubling sleep each and then continues |
| Common.FirstSuccessReturned | pipeline/common.py:156-158 | the first successful attempt's value is returned after j+1 calls and no call follows it |
| Common.LastErrorRaised | pipeline/common.py:156-161 | when every attempt fails, the last exception is raised after `max_retries` calls, with no sleep after the final one |
| Common.UncaughtEscapes | pipeline/common.py:156-159 | an exception outside `exceptions` escapes at once, without a sleep |
| Common.DefaultBackoff | pipeline/common.py:140-164 | with the defaults and an always-failing operation: three calls, sleeps [5, 10], last exception raised |
| Common.PathSetting | pipeline/common.py:204 | the configured path when the key is there, the default otherwise |
| Common.GetPathFromConfig | pipeline/common.py:188-210 | an absolute setting is returned as is; a relative one is appended to the project root |
| Configuration.ParsePath | pipeline/utils/config_manager.py:192-198 | a path is absolute exactly when it starts with '/'; no component is empty or "." |
| Configuration.Resolve | pipeline/utils/config_manager.py:195-198 | `root / path`: an absolute path replaces the root, a relative one is appended to it |
| Configuration.DotSlashIgnored | pipeline/utils/config_manager.py:181-200 | "./x" and "x" resolve to the same path |
| ConfigManagement.LoadConfig | pipeline/utils/config_manager.py:57-77 | a parsed file is used as is; a missing or unreadable file gives the empty (falsy) configuration |
| ConfigManagement.ApiKeyVariable | pipeline/utils/config_manager.py:160 | the variable name is the upper-cased provider followed by "_API_KEY" |
| ConfigManagement.ConfigManager.constructor | pipeline/utils/config_manager.py:24-38 | the config path is resolved against the project root; the config is loaded and its sections are cached |
| ConfigManagement.ConfigManager.GithubToken | pipeline/utils/config_manager.py:79-92 | a non-empty GITHUB_TOKEN wins, then the configured token; "" exactly when neither is set |
| ConfigManagement.ConfigManager.Repositories | pipeline/utils/config_manager.py:94-101 | the configured list, or [] |
| ConfigManagement.ConfigManager.CheckInterval | pipeline/utils/config_manager.py:103-110 | the configured interval, or 3600 |
| ConfigManagement.ConfigManager.LlmProvider | pipeline/utils/config_manager.py:112-119 | the configured provider, or "openai" |
| ConfigManagement.ConfigManager.LlmTemperature | pipeline/utils/config_manager.py:121-128 | the configured temperature, or 0.7 |
| ConfigManagement.ConfigManager.ProviderName | pipeline/utils/config_manager.py:140-141 | the provider given, or else the configured one |
| ConfigManagement.ConfigManager.ProviderConfig | pipeline/utils/config_manager.py:130-144 | the provider's own section when there is one, {} otherwise |
| ConfigManagement.ConfigManager.ProviderApiKey | pipeline/utils/config_manager.py:146-167 | a non-empty `<PROVIDER>_API_KEY` wins, then the section's `api_key`, else "" |
| ConfigManagement.ConfigManager.OutputLanguages | pipeline/utils/config_manager.py:169-179 | never empty: the configured list when it is non-empty, ["en"] otherwise |
| ConfigManagement.ConfigManager.GetPath | pipeline/utils/config_manager.py:181-200 | the setting or default, taken below the project root when relative |
| ConfigManagement.ConfigManager.DefaultDirectories | pipeline/utils/config_manager.py:202-227 | with no `paths` section the directories are `repos`, `output` and `analysis` below the project root |
| ConfigManagement.SingleComponent | pipeline/utils/config_manager.py:192-198 | "./name", for a name without '/', is the directory `name` below the root |
| ModifiedFileContents.SortByPathProperties | pipeline/analyze_pr.py:480-484 | sorting by path yields an ascending permutation |
| ModifiedFileContents.CandidatesProperties | pipeline/analyze_pr.py:480-484 | the candidates are min(n, 10) entries in ascending path order, taken from the dictionary, with no left-out path sorting before a kept one |
| ModifiedFileContents.Cut | pipeline/analyze_pr.py:525-530 | content within 3000 characters is kept; longer content keeps its first 3000 and ends with the truncation notice |
| ModifiedFileContents.CutAllAt | pipeline/analyze_pr.py:493-530 | every file is cut by the same rule |
| ModifiedFileContents.FormatModifiedFileContents | pipeline/analyze_pr.py:464-549 | no contents gives the fallback; otherwise the shown files are a prefix of the candidates with cut contents, within the 30000 budget, stopping with the omission notice only at a file that would overflow it (the extra cut of an oversized first file cannot happen, since one cut file stays far below the budget) |
| GitHubClient.Headers | pipeline/github_client.py:35-40 | an Authorization header "token t" is present exactly when a non-empty token was given |
| GitHubClient.Client.constructor | pipeline/github_client.py:28-40 | the client stores the token, the API base URL and those headers |
| GitHubClient.PostProcess | pipeline/github_client.py:127-132 | `repository` is set to the validated name; `reviews`, if present, becomes []; every other key is unchanged |
| GitHubClient.Client.FetchPrInfo | pipeline/github_client.py:98-137 | an invalid name, a raised command, a non-zero exit or bad JSON each give a RuntimeError with the original message; success gives the post-processed record; names are validated by `validate_repo_url` as written |
| GitHubClient.MergedOnly | pipeline/github_client.py:194 | keeps exactly the entries with a truthy `merged_at` |
| GitHubClient.MergedOnlyAppend | pipeline/github_client.py:194 | the filter preserves response order |
| GitHubClient.GetMergedPrs | pipeline/github_client.py:171-206 | an invalid name or a failed request gives []; otherwise exactly the merged entries, as the order-keeping filter `MergedOnly` of the response |
| GitHubClient.CloneRepository | pipeline/github_client.py:208-254 | `skip_clone` gives True with no command; an invalid name gives False; otherwise pull or clone, succeeding exactly on exit code 0 |
| GitHubClient.CloneSshAsWritten | pipeline/github_client.py:225-239 | since `validate_repo_url` passes an SSH address through, cloning one builds `git clone https://github.com/git@github.com:owner/name.git.git <dir>` |
| Languages.LanguageName | pipeline/utils/languages.py:27-37 | a code outside the 11-entry map gives "Unknown" |
| Languages.SupportedIffNamed | pipeline/utils/languages.py:9-50 | a code is supported exactly when the map names it, i.e. when its name is not "Unknown" |
| Languages.JapaneseCode | pipeline/utils/languages.py:14 | "jp" is Japanese; "ja" is unsupported and "Unknown" |
| LanguageMarkers.MarkersExactlyForRegistry | scripts/analyze_pr.py:21-29 | a code has markers exactly when it is in the registry |
| LanguageMarkers.MarkersNonEmpty | scripts/analyze_pr.py:21-29 | no marker is the empty string |
| LlmParams.FilesScore | pipeline/analyze_pr.py:740-746 | the file-count factor is 0..3 |
| LlmParams.LinesScore | pipeline/analyze_pr.py:749-758 | the changed-lines factor is 0..3 |
| LlmParams.BodyScore | pipeline/analyze_pr.py:761-765 | the description factor is 0..2 |
| LlmParams.Score | pipeline/analyze_pr.py:736-765 | the complexity score is 0..8 |
| LlmParams.FactorsMonotone | pipeline/analyze_pr.py:740-765 | each factor is non-decreasing in its measure |
| LlmParams.EmptyRecordScore | pipeline/analyze_pr.py:736-765 | a record with no files and no body scores 0 |
| LlmParams.BaseMaxTokens | pipeline/analyze_pr.py:768-772 | 4000, 6000 or 8000: 4000 exactly below 3, 8000 exactly from 6 |
| LlmParams.Complexity | pipeline/analyze_pr.py:726-792 | the score with its max_tokens, temperature, top_p (0.95 from score 3, else 0.9) and frequency penalty |
| LlmParams.ParamsMonotone | pipeline/analyze_pr.py:768-778 | a higher score never lowers max_tokens and never raises temperature |
| LlmParams.FirstRef | pipeline/analyze_pr.py:906 | `re.search(r'PR #(\d+)')`: the leftmost position where "PR #" and a digit start, or none exactly when there is no such position |
| LlmParams.PromptPrNumber | pipeline/analyze_pr.py:906-907 | the digits of the leftmost reference, or "unknown" |
| LlmParams.PromptPrNumberAtStart | pipeline/analyze_pr.py:906-907 | a prompt starting "PR #<digits>" followed by a non-digit is looked up by exactly those digits |
| LlmParams.FirstStored | pipeline/analyze_pr.py:909-915 | a record found is stored under the number for one of the configured repositories; none is found exactly when no configured repository stores that number |
| LlmParams.RequestParams | pipeline/analyze_pr.py:917-946 | the temperature is 0.2, 0.3 or 0.4, max_tokens at most 16000, and top_p 0.95 with penalty 0.1 exactly when the temperature is not 0.4 |
| LlmParams.ConfiguredTemperatureIgnored | pipeline/analyze_pr.py:944 | the configured temperature never changes the request: the complexity's always replaces it |
| LlmParams.NoDataScoresEmpty | pipeline/analyze_pr.py:909-918 | without `github.data` every request is scored as the empty record: score 0, temperature 0.4, top_p 0.9, no penalty |
| LlmParams.LargePrScoredEmpty | pipeline/analyze_pr.py:909-918 | without `github.data`, a PR whose own complexity asks for 8000 tokens and 0.2 is sent with 4000 and 0.4 (short prompt, not gpt-3.5) |
| LlmParams.StorePr | scripts/analyze_pr.py:1327-1338 | `github` and `data` exist afterwards, the record is stored under its repository and number, and the configured repositories are unchanged |
| LlmParams.FirstStoredSingle | scripts/analyze_pr.py:1042-1046 | a record stored under one configured repository is found |
| LlmParams.StoredPrScored | scripts/analyze_pr.py:1037-1049 | with the record stored first, a configured repository and a prompt naming its number, the request carries the analysed PR's own complexity parameters |
| LlmParams.ScaledMaxTokens | pipeline/analyze_pr.py:920-941 | never above 16000; at least the base except for gpt-3.5; at most 4000 for gpt-3.5; the base itself for prompts of 20000 characters or fewer |
| LlmParams.ScaledMonotone | pipeline/analyze_pr.py:925-941 | non-decreasing in both the score and the prompt length |
| LlmParams.Gpt4CapInert | pipeline/analyze_pr.py:938-939 | the GPT-4 cap never changes the value |
| LlmParams.Endpoint | pipeline/analyze_pr.py:966-974 | the URL starts with the base URL and ends with "/chat/completions" after a "/v1" |
| LlmParams.EndpointV1 | pipeline/analyze_pr.py:969-971 | a base URL with or without "/v1" reaches the same endpoint |
| LlmParams.StripFence | pipeline/analyze_pr.py:983-987 | an unfenced reply is unchanged; the result is never longer |
| LlmParams.StripFenceRoundTrip | pipeline/analyze_pr.py:983-987 | a "```markdown"-fenced reply gives back its body |
| ModuleContext.NameLength | pipeline/fetch_pr_info.py:311-319 | the captured name is the maximal run of name characters |
| ModuleContext.MatchAt | pipeline/fetch_pr_info.py:311-319 | a match begins with a keyword and captures a non-empty name |
| ModuleContext.FindallNames | pipeline/fetch_pr_info.py:311-319 | every name found is non-empty and made of name characters |
| ModuleContext.FindallAnchored | pipeline/fetch_pr_info.py:311-319 | when no line start holds a keyword, nothing is found |
| ModuleContext.Dedupe | pipeline/fetch_pr_info.py:323-325 | no repetitions, same elements |
| ModuleContext.Limited | pipeline/fetch_pr_info.py:322-331 | at most 10 names, none twice, all from the input, and all of them when there are at most 10 different ones |
| ModuleContext.AnalyzeModuleStructure | pipeline/fetch_pr_info.py:292-331 | each list is the limited, deduplicated names its pattern finds in the key files |
| ModuleContext.IndentedDefSkipped | pipeline/fetch_pr_info.py:319 | an indented method is not listed as a function |
| ModuleContext.ClassNameCaptured | pipeline/fetch_pr_info.py:315 | "class A:" gives the name "A" |
| ModuleContext.KeptKeys | pipeline/fetch_pr_info.py:200-216 | the modules kept are the grouped modules outside the denylist |
| ModuleContext.KeptValues | pipeline/fetch_pr_info.py:206-216 | each kept module stores its group's files and its key files |
| ModuleContext.FetchModuleContext | pipeline/fetch_pr_info.py:167-222 | no module gives the fixed empty context; otherwise the kept modules with the summary; in both cases the modules are the grouped ones outside the denylist |
| ModuleContext.ContextModules | pipeline/fetch_pr_info.py:179-216 | the modules are the grouped, non-denied modules, each listing its changed files in input order |
| ModuleContext.DeniedNeverKept | pipeline/fetch_pr_info.py:202-203 | docs/tests/test/examples/.github, in any letter case, are never modules |
| ModuleContext.Snippet | pipeline/fetch_pr_info.py:367-368 | content is cut to 500 characters plus a notice |
| ModuleContext.KeyFileLines | pipeline/fetch_pr_info.py:365-369 | one line per key file shown |
| ModuleContext.HeadLines | pipeline/fetch_pr_info.py:349-359 | the section starts with "### Module: name", followed by at most three lists |
| ModuleContext.KeyFilesPart | pipeline/fetch_pr_info.py:362-369 | at most the heading and two key files |
| ModuleContext.ModuleSections | pipeline/fetch_pr_info.py:348-371 | one section per module, in order |
| ModuleContext.ModuleSectionShape | pipeline/fetch_pr_info.py:348-371 | a section has at most 7 lines, and the key-file heading appears exactly when there are key files |
| ModuleContext.SnippetBound | pipeline/fetch_pr_info.py:367-368 | a snippet is at most 500 characters plus the notice and begins with the content's first 500 |
| ModuleContext.FormatModuleContext | pipeline/fetch_pr_info.py:333-371 | no modules give "No module context available."; otherwise the text starts with the first module's "### Module: " heading |
| ModuleContext.NoKeptModuleText | pipeline/fetch_pr_info.py:343-344 | the fetched context renders as "No module context available." exactly when every changed top directory is on the denylist (or there is none) |
| ModuleContext.FetchModifiedFileContents | pipeline/fetch_pr_info.py:582-626 | the loop computes the contents dictionary of the changed paths |
| ModuleContext.ContentsEntries | pipeline/fetch_pr_info.py:596-626 | a path has an entry exactly when it is a non-empty, non-binary changed path, holding its text or a placeholder |
| OutputNaming.Pad | pipeline/analyze_pr.py:1017-1018 | zero-padded digits ending with the numeral, of the requested width |
| OutputNaming.MonthDir | pipeline/analyze_pr.py:1017 | `YYYY-mm`: seven characters with a hyphen at index 4 |
| OutputNaming.DayStamp | pipeline/analyze_pr.py:1018 | `YYYYmmdd`: eight digits |
| OutputNaming.TimeStamp | scripts/analyze_pr.py:1159 | `YYYYmmdd_HHMMSS`: the day stamp, '_', then the time |
| OutputNaming.DayStampInMonth | pipeline/utils/file_utils.py:162-167 | the first six digits of the day stamp are the month directory without its hyphen |
| OutputNaming.RepoName | pipeline/analyze_pr.py:1013 | the text after the last '/': a suffix of the input containing no '/' |
| OutputNaming.RepoNameOwnerRepo | pipeline/analyze_pr.py:1013 | the name of "owner/name" is "name" |
| OutputNaming.ReportLanguage | pipeline/analyze_pr.py:1033-1040 | a registry code is kept; any other code becomes "en" |
| OutputNaming.SuffixedInjective | pipeline/analyze_pr.py:1053-1059 | different suffix numbers give different names |
| OutputNaming.SuffixedMatches | pipeline/analyze_pr.py:1046-1057 | every suffixed name matches the glob, so "matched" and "exists" agree for those names |
| OutputNaming.ChooseFileName | pipeline/analyze_pr.py:1046-1059 | the chosen name is never an existing one; the plain name when nothing matches; otherwise `_k` with the smallest k ≥ 1 not taken |
| OutputNaming.ReportPath | pipeline/analyze_pr.py:1011-1061 | `<output>/<repo name>/<YYYY-mm>/<new name>` starting with `pr_N_lang_date`; a non-string repository fails |
| OutputNaming.PrInfoBase | pipeline/fetch_pr_info.py:128-132 | `pr_N_YYYYmmdd` |
| OutputNaming.PrInfoFileName | pipeline/fetch_pr_info.py:128-150 | the JSON record gets a name not already present: `pr_N_YYYYmmdd.json` when nothing matches, otherwise the smallest free `_k` with k ≥ 1 |
| OutputNaming.OutputPath | pipeline/utils/file_utils.py:143-176 | `<output>/<repo name>/<YYYY-mm>/pr_N[_lang]_date.ext`, with the language part exactly when a non-empty language is given |
| OutputNaming.OutputPathMonth | pipeline/utils/file_utils.py:162-174 | the date in the file name lies in the month directory it is put in |
| OutputNaming.ScriptsOutputDir | scripts/fetch_pr_info.py:18-40 | the project root, then "output", then a non-empty last component free of '/' that ends `repo`; that component is missing exactly when the name after the last '/' is "" or ".", which pathlib drops |
| OutputNaming.ScriptsOutputDirOwnerRepo | scripts/fetch_pr_info.py:34-37 | "owner/name" gets `<root>/output/name` |
| OutputNaming.ScriptsPrInfoName | scripts/fetch_pr_info.py:121 | `pr_N_YYYYmmdd_HHMMSS.json` |
| OutputNaming.ScriptsReportPath | scripts/analyze_pr.py:1142-1160 | the output directory, the repository's name, the month directory and a file name starting `pr_<n>_<lang>_<YYYYmmdd>`, ending ".md" and 23 characters longer than number and language; failing exactly for a non-string repository |
| OutputNaming.Greatest | pipeline/report_generator.py:228 | the last name in sorted order: a member of the list, not below any other |
| OutputNaming.MultilingualPath | pipeline/report_generator.py:205-233 | no month directory gives FileNotFoundError; otherwise the greatest month directory and `pr_N_multilingual.md` |
| PathGroups.TopDirSplit | pipeline/fetch_pr_info.py:184-188 | a non-empty path belongs to a module exactly when splitting it at '/' gives more than one part, and the module is the first part |
| PathGroups.GroupsDistinct | pipeline/fetch_pr_info.py:182-191 | modules are recorded once |
| PathGroups.GroupsContents | pipeline/fetch_pr_info.py:182-191 | each module holds exactly the paths under it, in input order; a module without paths is absent |
| PathGroups.GroupPaths | pipeline/fetch_pr_info.py:182-191 | the grouping loop builds exactly the grouping `Groups` of the paths, so each module appears once and holds exactly the paths under it (the two lemmas above) |
| PrAnalyzer.EffectiveLanguage | pipeline/pr_analyzer.py:63-65 | the language used is always supported, and a supported language is kept |
| PrAnalyzer.Generate | pipeline/pr_analyzer.py:94-121 | the analysis is exactly the provider's reply; the Markdown path is recorded exactly when the reply came, an output directory is given and the write succeeded, and it is the `generate_output_path` path with extension "md"; the patch path exactly when, in addition, `save_diff` is set, the diff is non-empty and its write succeeded, with extension "patch"; the error is the provider's message or the first failed write |
| PrAnalyzer.AnalyzePr | pipeline/pr_analyzer.py:46-121 | a record without repository or number raises ValueError; otherwise the prompt builder's exception, or a result carrying the built prompt, the repository, the number, the effective language and its name; a dry run carries the placeholder and no path or error; any other run carries the reply, the two report paths under exactly the conditions of `Generate`, and the error |
| PrAnalyzer.DryRunIgnoresProvider | pipeline/pr_analyzer.py:87-90 | a dry run does not depend on the provider or on the writes |
| PrAnalyzer.FailuresCaptured | pipeline/pr_analyzer.py:94-121 | once the prompt is built the call returns a result, and a provider or write failure appears in its `error` |
| PrAnalyzer.ValidationFirst | pipeline/pr_analyzer.py:68-72 | the missing-identity error comes before anything the environment does |
| PrData.Paths | pipeline/fetch_pr_info.py:179 | the path of every file, in order |
| PrFetcher.PrRecord.constructor | pipeline/pr_fetcher.py:56 | the record as the client returned it, with no diff, timestamp, commit analysis or file path yet |
| PrFetcher.WithChanges | pipeline/pr_fetcher.py:68-71 | a stored `changes` is kept; a missing one becomes additions plus deletions |
| PrFetcher.AllWithChanges | pipeline/pr_fetcher.py:67-71 | every file, in place, completed with its `changes` |
| PrFetcher.OrderedFilesSpec | pipeline/pr_fetcher.py:66-78 | the stored files are a permutation of the completed files, sorted by `changes` descending, stable among equal counts, every one carrying `changes` |
| PrFetcher.Complete | pipeline/pr_fetcher.py:59-81 | the record gains the diff, the timestamp, the repository argument, the fixed commit-analysis text and its files completed and sorted; number and file path are unchanged |
| PrFetcher.SavePrInfo | pipeline/pr_fetcher.py:93-125 | ValueError without repository and number, nothing changed; otherwise the path `generate_output_path` gives for the given or configured directory, recorded as `file_path` |
| PrFetcher.FetchPrInfo | pipeline/pr_fetcher.py:40-91 | a failed diff fetch propagates and changes nothing; otherwise the record gains the diff, timestamp, repository argument, commit-analysis text and sorted files; with an output directory and a truthy repository and number it is saved to the `generate_output_path` JSON path, recorded as `file_path`, and without them a ValueError leaves `file_path` as it was; the number never changes |
| PromptBuilder.PieceText | pipeline/prompt_builder.py:124-141 | a literal piece always renders; a placeholder renders exactly when its name is supplied, otherwise KeyError |
| PromptBuilder.Format | pipeline/prompt_builder.py:124-141 | `str.format` succeeds exactly when every placeholder of the template is supplied, and fails with KeyError otherwise |
| PromptBuilder.FormatAppend | pipeline/prompt_builder.py:124-141 | formatting distributes over concatenated templates |
| PromptBuilder.FormatSlot | pipeline/prompt_builder.py:124-141 | a lone placeholder renders as its value |
| PromptBuilder.LoadTemplate | pipeline/prompt_builder.py:45-70 | the `.prompt` file first, then the templates-directory file, else FileNotFoundError |
| PromptBuilder.MergedAtText | pipeline/prompt_builder.py:97-99 | a truthy `mergedAt` is shown, otherwise "Not merged" |
| PromptBuilder.MergedByText | pipeline/prompt_builder.py:102-104 | "N/A" for a falsy `mergedBy`; its login when present; "Unknown" for a truthy account without login |
| PromptBuilder.LabelNames | pipeline/prompt_builder.py:107 | one name per label, "" for a label without a name |
| PromptBuilder.LabelsText | pipeline/prompt_builder.py:107-109 | "None" without labels or for one unnamed label; otherwise the names joined with ", " |
| PromptBuilder.PrepareFileChangesSummary | pipeline/prompt_builder.py:145-178 | the loop renders the summary of the five files with the most `changes` (falling back to additions plus deletions) |
| PromptBuilder.PrepareArchitectureContext | pipeline/prompt_builder.py:180-214 | the method renders the architecture context of the changed files: a bullet per module, or the fallback sentence when no path lies under a directory |
| PromptBuilder.SummarizeModules | pipeline/prompt_builder.py:205-208 | the second loop renders exactly one bullet per module, in the modules' order, giving the module name and its number of files |
| PromptBuilder.DiffExcerpt | pipeline/prompt_builder.py:216-236 | "No diff found…" for an empty diff; a diff of at most 2000 characters unchanged; a longer one cut to its first 2000 characters followed by the truncation notice |
| PromptBuilder.TruncationNoticeLength | pipeline/prompt_builder.py:233-234 | the notice states the full length of the diff in decimal digits |
| PromptBuilder.BuildPrAnalysisPrompt | pipeline/prompt_builder.py:72-143 | no template raises FileNotFoundError; a `null` author raises AttributeError |
| PromptBuilder.FieldFallbacks | pipeline/prompt_builder.py:87-94 | a missing title, number, URL or body falls back to its default, a `null` body renders as "None", a present body is kept |
| PromptBuilder.AuthorFallback | pipeline/prompt_builder.py:90 | a missing author or login gives "Unknown"; the lookup fails exactly for a `null` author |
| PromptSections.TopFiles | pipeline/analyze_pr.py:112-119 | the first five (or fewer) files in descending order of the key |
| PromptSections.SummaryLines | pipeline/analyze_pr.py:123-128 | one bullet per file, in order |
| PromptSections.FileChangesSummary | pipeline/analyze_pr.py:101-134 | the fallback line without files; otherwise the bullets of the top files joined by newlines |
| PromptSections.SummaryFilesAreLargest | pipeline/analyze_pr.py:112-119 | no file left out of the summary has a larger key than one in it; the sort loses no file |
| PromptSections.ModuleLines | pipeline/analyze_pr.py:162-164 | one bullet per module with its file count |
| PromptSections.ArchitectureCounts | pipeline/analyze_pr.py:136-170 | the modules are distinct, each counts exactly the changed paths under it, and the fallback sentence appears exactly when no path has a directory |
| PromptSections.PathUnderItsModule | pipeline/analyze_pr.py:151-159 | every path with a directory is counted under its top directory |
| PromptSections.PathsUnderWitness | pipeline/analyze_pr.py:151-159 | every counted path is a changed path of that module |
| PromptSections.TopDirSlash | pipeline/analyze_pr.py:154-156 | a path has a module exactly when it contains '/', and the module is the text before the first '/' |
| PromptSections.FunctionalityUnknown | pipeline/analyze_pr.py:320-334 | the functionality is "Unknown" exactly when the name has none of the recognised extensions |
| PromptSections.ModuleOf | pipeline/analyze_pr.py:336-339 | the top directory, or "Unknown" for a name without '/' |
| PromptSections.RiskRules | pipeline/analyze_pr.py:342-354 | test files are low risk, core or main files high; otherwise high above 100 changed lines and low up to 30; the risk never falls as the change grows |
| PromptSections.ImpactRows | pipeline/analyze_pr.py:287-296 | one table row per file, in order |
| PromptSections.ImpactMatrix | pipeline/analyze_pr.py:262-298 | the placeholder row without files; otherwise the rows of the five most changed files |
| PromptSections.Patterns | pipeline/analyze_pr.py:383-397 | one to three distinct concepts: testing and documentation exactly when a file has those suffixes, implementation for code files or when nothing else matched |
| PromptSections.MainFileIsFirstLargest | pipeline/analyze_pr.py:374-380 | the main file has the most changed lines and comes first among the files that do |
| PromptSections.LearningPoints | pipeline/analyze_pr.py:358-418 | the no-files sentence without files; otherwise it opens with the main file and closes with the fixed third step |
| PromptSections.LanguageInstruction | pipeline/analyze_pr.py:688-724 | the backward-compatibility notice for "multilingual"; otherwise rules that open by naming the language and close by forbidding code translation |
| PromptFill.ResetDiscussion | pipeline/analyze_pr.py:581-587 | the record keeps its keys and order; `comments` and `reviews`, where present, become empty lists; nothing else changes |
| PromptFill.MergedAtText | pipeline/analyze_pr.py:622-625 | "Not merged" for a missing or falsy `mergedAt`; a truthy string is shown; a truthy non-string makes `replace` fail |
| PromptFill.MergedByText | pipeline/analyze_pr.py:627-634 | the login of a `mergedBy` object that has one, otherwise "N/A" |
| PromptFill.RepositoryStep | pipeline/analyze_pr.py:655-657 | the repository placeholder is replaced only when the key exists; a non-string repository makes `replace` fail |
| PromptFill.TitleLines | pipeline/analyze_pr.py:670-673 | one line out per line in; line k becomes the heading exactly when its stripped text is "# Title", and is otherwise kept |
| PromptFill.ReplaceTitleLines | pipeline/analyze_pr.py:669-674 | the loop rewrites the title lines of the newline-split prompt and joins it again |
| PromptFill.TitleLinesNoTitle | pipeline/analyze_pr.py:669-674 | lines without a title line are kept as they are |
| PromptFill.TitleStepNoTitle | pipeline/analyze_pr.py:669-674 | a prompt without a title line comes back unchanged from the split, rewrite and join |
| PromptFill.LegacyTitleRewritesSubheading | scripts/analyze_pr.py:649-652 | the substring replacement of the older script turns "## Title" into "#" followed by the heading |
| PromptFill.SubheadingKept | pipeline/analyze_pr.py:669-674 | the line-exact replacement keeps a "## Title" line |
| PromptFill.BodyStep | pipeline/analyze_pr.py:676-681 | nothing happens without a `body` key or without the placeholder; a falsy body is replaced by "No description provided" |
| PromptFill.WithModuleContext | pipeline/analyze_pr.py:567-568 | an existing `module_context` is kept as it is; a missing one is appended with the fetched context; no other key changes |
| PromptFill.FillLengths | pipeline/analyze_pr.py:614-620 | the length loop replaces the `len(...)` reference of every list-valued key by its length |
| PromptFill.FillSimpleKeys | pipeline/analyze_pr.py:646-652 | the simple-reference loop performs one round per key, in the record's order |
| PromptFill.PreparePrompt | pipeline/analyze_pr.py:551-686 | the caller's record comes back with `module_context` added when it was missing and its discussion emptied; the prompt is the fixed sequence of replacements over that record, the simple-reference loop replacing a string body like any other string |
| PromptFill.LegacyTitleAgrees | scripts/analyze_pr.py:649-652 | a text without the substring "# Title" is left unchanged by both title steps |
| PromptFill.LegacyPromptText | scripts/analyze_pr.py:535-664 | the older `prepare_prompt` fails exactly where the newer one fails before the title step, and gives the same prompt when the text reaching the title step holds no "# Title" |
| PromptFill.OtherKeyKeepsPlaceholder | pipeline/analyze_pr.py:646-652 | the round of any key other than `body` leaves the body placeholder alone |
| PromptFill.SimpleKeysRenderBody | pipeline/analyze_pr.py:646-652 | the simple-reference loop puts the `str()` of a scalar body in place of the body placeholder |
| PromptFill.ScalarBodyRendered | pipeline/analyze_pr.py:551-686 | a template that is just the body placeholder renders a scalar body as its `str()`, truthy or not: the fallback never sees the placeholder |
| PromptFill.FalsyBodiesRendered | pipeline/analyze_pr.py:646-681 | as written, that template renders a body "" as "" and a body 0 as "0" |
| PromptFill.EmptyBodyRendersEmpty | pipeline/analyze_pr.py:647-650 | as written, an empty-string body turns a template that is just the body placeholder into the empty text |
| PromptFill.BodyStepsCorrected | pipeline/analyze_pr.py:647-681 | a falsy body replaces the placeholder with "No description provided"; a truthy body renders as before |
| PromptFill.CorrectedBodyNeverEmpty | pipeline/analyze_pr.py:677-681 | with the correction, any falsy body renders as "No description provided" |
| PromptFill.SimpleKeysAgree | pipeline/analyze_pr.py:646-652 | without a falsy `body` entry the corrected loop does what the written one does |
| PromptFill.CorrectedAgreesOnTruthyBody | pipeline/analyze_pr.py:551-686 | the correction changes no prompt of a record whose body is missing or truthy |
| PromptFill.CorrectedKeysKeepPlaceholder | pipeline/analyze_pr.py:646-652 | when every `body` entry is falsy, the corrected loop leaves the body placeholder to the fallback |
| PromptFill.CorrectedPromptFallback | pipeline/analyze_pr.py:551-686 | with the correction, a template that is just the body placeholder renders any falsy body as "No description provided" |
| Providers.GetOr | pipeline/providers/base_provider.py:32-35 | the stored value of a present key, the default otherwise |
| Providers.DefaultBaseUrl | pipeline/providers/openai_provider.py:29-31 | only the two built-in classes have a default base URL |
| Providers.DefaultModel | pipeline/providers/deepseek_provider.py:33-35 | only the two built-in classes have a default model |
| Providers.BuiltInDefaults | pipeline/providers/openai_provider.py:25-35 | OpenAI defaults to "gpt-4" at "https://api.openai.com/v1", DeepSeek to "deepseek-reasoner" at "https://api.deepseek.com" (deepseek_provider.py:25-35) |
| Providers.SetupValue | pipeline/providers/deepseek_provider.py:29-35 | a truthy setting is kept; a falsy one gives way to the class default when there is one, and a non-empty default makes it truthy |
| Providers.BaseProvider.SetupProvider | pipeline/providers/openai_provider.py:25-35 | `base_url` and `model` take the class defaults when falsy; nothing else changes |
| Providers.BaseProvider.constructor | pipeline/providers/base_provider.py:22-41 | the key is stored and the provider is configured exactly when it is truthy; `max_tokens` defaults to 4096, `temperature` to 0.7; `base_url` and `model` are the keyword arguments (or `None`) after `_setup_provider` fills in the class defaults; all keyword arguments are kept |
| Providers.BuiltInValidation | pipeline/providers/base_provider.py:85-124 | a built-in provider always has a model after setup, so it validates exactly when its key is truthy, and without a configured model it reports the class default |
| Providers.BaseProvider.ValidateConfiguration | pipeline/providers/base_provider.py:85-100 | valid exactly when configured with a key and a truthy model |
| Providers.BaseProvider.ModelName | pipeline/providers/base_provider.py:117-124 | always truthy: the model when it is truthy, otherwise "unknown" |
| Providers.BaseProvider.ProviderInfo | pipeline/providers/base_provider.py:102-115 | the five keys in order, holding the class name and the current fields |
| Providers.ValidProviderNamesModel | pipeline/providers/base_provider.py:85-124 | a valid provider reports its own model and says it is configured |
| Providers.Normalize | pipeline/providers/provider_factory.py:41 | the name is never longer, has no surrounding whitespace, and is empty exactly when the input is all whitespace |
| Providers.LowerKeepsSpaces | pipeline/providers/provider_factory.py:41 | lower-casing neither creates nor removes an all-whitespace name |
| Providers.Lookup | pipeline/providers/provider_factory.py:40-49 | found exactly when the normalised name is registered, giving its class; otherwise the ValueError listing the supported names |
| Providers.InitialProviders | pipeline/providers/provider_factory.py:20-23 | out of the box exactly "openai" and "deepseek" resolve, whatever their case and surrounding whitespace |
| Providers.InitialSupportedList | pipeline/providers/provider_factory.py:44-46 | the error message lists "openai, deepseek" |
| Providers.Registered | pipeline/providers/provider_factory.py:55-75 | a name already registered after normalising raises ValueError; otherwise the name is appended with its class |
| Providers.RegisterThenLookup | pipeline/providers/provider_factory.py:55-75 | after registering, the new name resolves to the new class and every other name resolves as before |
| Providers.ProviderRegistry.constructor | pipeline/providers/provider_factory.py:20-23 | the registry starts with the two built-in providers |
| Providers.ProviderRegistry.GetProvider | pipeline/providers/provider_factory.py:25-53 | an unknown name gives the lookup error; a known one a new instance of its class built from the key and the keyword arguments, with that class's defaults filled in |
| Providers.ProviderRegistry.Register | pipeline/providers/provider_factory.py:55-75 | a refused registration leaves the registry unchanged; an accepted one adds the name, keeping names distinct |
| Providers.ParamEntries | pipeline/providers/provider_factory.py:113-118 | the four base parameters, in order, without `api_key` |
| Providers.WithExtras | pipeline/providers/provider_factory.py:121-123 | no base parameter is lost |
| Providers.WithExtrasKeepsReserved | pipeline/providers/provider_factory.py:122 | `api_key`, `base_url`, `model` and `max_tokens` are never overwritten by the loop |
| Providers.WithExtrasGet | pipeline/providers/provider_factory.py:121-123 | every other setting is forwarded with its own value |
| Providers.ParamsOrder | pipeline/providers/provider_factory.py:113-118 | the parameters start with the four base keys in order |
| Providers.ParamsFromSettings | pipeline/providers/provider_factory.py:113-118 | `base_url` and `model` come from the provider section (or `None`), `max_tokens` from it or 4096 |
| Providers.ParamsWithoutApiKey | pipeline/providers/provider_factory.py:113-123 | the API key is never passed as a keyword argument |
| Providers.ParamsTemperature | pipeline/providers/provider_factory.py:116-123 | the provider section's temperature overrides the top-level one |
| Providers.ParamsForwarded | pipeline/providers/provider_factory.py:121-123 | every setting that is not reserved reaches the provider unchanged |
| Providers.BuildParams | pipeline/providers/provider_factory.py:113-123 | the loop builds exactly those parameters |
| Providers.ConfiguredProvider | pipeline/providers/provider_factory.py:97 | the configured provider name, "openai" by default |
| Providers.ProviderSettings | pipeline/providers/provider_factory.py:100-101 | the provider's own section, `{}` when there is none |
| Providers.FactoryApiKey | pipeline/providers/provider_factory.py:104-110 | a truthy configured key wins; otherwise the environment variable, or "" |
| Providers.FactoryKeyConfigured | pipeline/providers/provider_factory.py:104-110 | the provider ends up configured exactly when the section or the environment supplies a non-empty key |
| Providers.KeyPrecedenceDiffers | pipeline/providers/provider_factory.py:104-110 | the factory prefers the configured key while `ConfigManager.get_provider_api_key` prefers the environment, so the two give different keys when both are set and differ |
| Providers.GetProviderFromConfig | pipeline/providers/provider_factory.py:77-126 | RuntimeError without an `llm` section; otherwise the lookup error or a new instance of the configured provider with the factory's key and parameters; with the built-in registry an "openai" or "deepseek" provider validates exactly when its key is truthy |
| RepoUrl.FirstSlash | pipeline/common.py:179 | the position of the first '/', or the length when there is none |
| RepoUrl.FirstSlashJoin | pipeline/common.py:179 | in "a/b" with a '/'-free `a`, the first '/' follows `a` |
| RepoUrl.OwnerRepoJoin | pipeline/common.py:179 | two '/'-free non-empty parts joined by '/' pass the owner/repo check |
| RepoUrl.NameEnd | pipeline/common.py:182 | the lazy name ends at a '/'-free position after which only an accepted tail (`.git`, '/', a final newline) remains |
| RepoUrl.MatchFrom | pipeline/common.py:182 | a match of the URL pattern at a position yields owner/repo text |
| RepoUrl.Search | pipeline/common.py:182-184 | the leftmost match yields owner/repo text |
| RepoUrl.ValidateRepoUrl | pipeline/common.py:166-186 | every result is owner/repo text, owner/repo text is returned unchanged, and every failure is the ValueError with the input in its message |
| RepoUrl.ValidateIdempotent | pipeline/common.py:166-186 | validating a result again gives the same result |
| RepoUrl.SearchSkips | pipeline/common.py:182 | the search moves past positions where "github.com" does not start |
| RepoUrl.NoHostRefused | pipeline/common.py:182-186 | text that is not owner/repo and does not mention "github.com" is refused |
| RepoUrl.NameEndAtName | pipeline/common.py:182 | the lazy name stops right before an accepted tail |
| RepoUrl.MatchAtHost | pipeline/common.py:182 | "github.com" followed by ':' or '/', an owner, a name and an accepted tail matches, giving owner/name |
| RepoUrl.HttpsNotOwnerRepo | pipeline/common.py:179 | an https GitHub URL fails the owner/repo check |
| RepoUrl.HttpsSearch | pipeline/common.py:182 | the search of an https URL starts matching at the host |
| RepoUrl.HttpsUrl | pipeline/common.py:166-186 | `https://github.com/owner/name` with an optional `.git` and '/' gives owner/name |
| RepoUrl.SshUrlUnchanged | pipeline/common.py:179-180 | as written, `git@github.com:owner/name.git` passes the owner/repo check and comes back unchanged |
| RepoUrl.ValidateRepoUrlCorrected | pipeline/common.py:166-186 | with the owner/repo check refusing ':' in the owner, results are owner/repo text, ':'-free owner/repo text is kept, failures are the ValueError |
| RepoUrl.CorrectedIdempotent | pipeline/common.py:166-186 | a ':'-free result comes back unchanged from a second call |
| RepoUrl.SshNotPlain | pipeline/common.py:179 | an scp-style address fails the corrected owner/repo check |
| RepoUrl.SshSearch | pipeline/common.py:182 | the search of an scp-style address starts matching at the host |
| RepoUrl.CorrectedSshUrl | pipeline/common.py:166-186 | with the correction, `git@github.com:owner/name` with an optional `.git` and '/' gives owner/name |
| RepoUrl.CorrectedHttpsUrl | pipeline/common.py:166-186 | with the correction, https GitHub URLs still give owner/name |
| ReportGenerator.AllSucceededIff | pipeline/report_generator.py:104-116 | the overall flag stays true exactly when every language succeeded |
| ReportGenerator.EntryFor | pipeline/report_generator.py:91-116 | an entry succeeds exactly when the analysis returned without `error`; it then carries no error, a failed one carries its error, and a raised exception leaves no paths |
| ReportGenerator.GenerateReport | pipeline/report_generator.py:43-118 | the loop records one entry per requested language (the configured ones when none are given) and the flag is true exactly when every language succeeded |
| ReportGenerator.EntriesKeys | pipeline/report_generator.py:79-92 | the entries are keyed by exactly the requested languages, each once |
| ReportGenerator.EntriesLast | pipeline/report_generator.py:79-116 | a language's entry is the one of its last occurrence in the request |
| ReportGenerator.Readable | pipeline/report_generator.py:155-169 | at most one analysis per language; an analysis is combined exactly when some language's entry succeeded with a path and its file read gave that text |
| ReportGenerator.ReadableAppend | pipeline/report_generator.py:155-169 | the selection works on each part of a split language list separately, so the combined analyses keep language order |
| ReportGenerator.ReadableSingle | pipeline/report_generator.py:155-169 | one language contributes its analysis exactly when its entry is combinable and its file was read |
| ReportGenerator.JoinedCons | pipeline/report_generator.py:166-180 | the combined text is the first analysis, the separator, and the rest combined |
| ReportGenerator.GenerateMultilingualReport | pipeline/report_generator.py:120-203 | the per-language entries as above; the combined text is every readable successful analysis followed by the separator, in language order; no readable analysis, no month directory and a failed write each give their error, otherwise the path in the latest month directory |
| ReportGenerator.Zip | scripts/analyze_pr.py:816-873 | the split dictionary is keyed by the languages in order |
| ReportGenerator.SplitJoined | scripts/analyze_pr.py:816 | splitting a combined report on the separator gives back each analysis padded by its blank lines |
| ReportGenerator.FirstMarkedUnique | scripts/analyze_pr.py:823-838 | a first line carrying only one language's markers is identified as that language |
| ReportGenerator.HeadedPiece | scripts/analyze_pr.py:819-838 | a padded analysis headed by a language's marker is not blank, strips to the analysis and is identified as that language |
| ReportGenerator.SplitSections | scripts/analyze_pr.py:816-873 | splitting the sections of distinct, marker-headed analyses stores each stripped analysis under its language, in order |
| ReportGenerator.SplitJoinRoundTrip | scripts/analyze_pr.py:801-880 | splitting the combined report of distinct languages, each analysis headed by its own marker, gives back every stripped analysis under its language |
| ReportSplit.FirstMarked | scripts/analyze_pr.py:830-833 | the first listed language with markers that has a marker in the line, or "" exactly when none has |
| ReportSplit.FirstContained | scripts/analyze_pr.py:848-851 | a language found in the lower-cased first line is one of the listed languages |
| ReportSplit.Identified | scripts/analyze_pr.py:823-856 | an identified language outside the list is one with markers; with a non-empty first language every section is identified |
| ReportSplit.KeyFor | scripts/analyze_pr.py:859-866 | with a language list every section is stored under a listed language; without one, under the identified language |
| ReportSplit.SplitMultilingualReport | scripts/analyze_pr.py:801-880 | the loop computes the split of the report on "---" |
| ReportSplit.SplitKeys | scripts/analyze_pr.py:859-873 | every key is a listed language, or a language with markers when the list is empty |
| ReportSplit.SplitValues | scripts/analyze_pr.py:866-873 | every stored section is stripped, and holds no "---" once a section was found |
| ReportSplit.SplitFromStores | scripts/analyze_pr.py:845-866 | with a non-empty first language, any non-blank section is stored |
| ReportSplit.WhitespaceOnly | scripts/analyze_pr.py:819-821 | a blank report splits into nothing |
| ReportSplit.UnmarkedDropped | scripts/analyze_pr.py:845-859 | without a language list, sections with no marker are dropped |
| ReportSplit.NoLanguagesFallback | scripts/analyze_pr.py:868-873 | without a language list and without markers, the whole stripped report is stored under "en" |
| ReportSplit.LaterSectionWins | scripts/analyze_pr.py:866 | a later section of the same language overwrites an earlier one |
| Sorting.SortDescPermutes | pipeline/pr_fetcher.py:74-78 | sorting loses and adds no element |
| Sorting.SortDescSorted | pipeline/pr_fetcher.py:74-78 | the result is in descending order of the key |
| Sorting.SortDescStable | pipeline/pr_fetcher.py:74-78 | elements with the same key keep their input order, as Python's stable sort with `reverse=True` does |
| Sorting.TopK | pipeline/analyze_pr.py:112-119 | the first n of the sorted list are the largest n, in descending order, and with the rest make up the input |
| Sorting.SortDescHead | pipeline/analyze_pr.py:375-380 | the first sorted element has the largest key and is the first input element with that key |
| StatusTracker.ReadStatusFile | scripts/track_merged_prs.py:59-81 | the stored status when the file reads; otherwise no repositories, an empty log and the current time |
| StatusTracker.WithRepo | scripts/track_merged_prs.py:150-154 | a known repository leaves the table as it is; an unknown one is appended with watermark 0; the watermark never changes |
| StatusTracker.Trim | scripts/track_merged_prs.py:201-202 | the last 100 records once the log is longer than 100, otherwise the whole log |
| StatusTracker.LoggedShape | scripts/track_merged_prs.py:195-202 | the log grows by one up to 100 records, and the new record comes last |
| StatusTracker.FindUnsynced | scripts/track_merged_prs.py:208-219 | exactly the fetched pull requests above the watermark, in fetched order |
| StatusTracker.StatusData.constructor | scripts/track_merged_prs.py:259 | the object holds the status read |
| StatusTracker.StatusData.GetRepoStatus | scripts/track_merged_prs.py:138-156 | the repository's entry, created with watermark 0 when missing; the log and timestamp are unchanged |
| StatusTracker.StatusData.Append | scripts/track_merged_prs.py:195-202 | the log gains the record and is trimmed; nothing else changes |
| StatusTracker.StatusData.UpdateRepoStatus | scripts/track_merged_prs.py:158-206 | the new state and the result are those of the update rule below |
| StatusTracker.StatusData.UpdateBatchStatus | scripts/update_batch_status.py:77-123 | always reports True, and the new state is that of the batch rule below |
| StatusTracker.StatusData.RaiseWatermark | scripts/update_batch_status.py:100-103 | the repository's latest processed PR and its timestamp change only when the new PR number is higher; the other repositories, the timestamp of the file and the batch log are unchanged |
| StatusTracker.StatusData.WriteStatusFile | scripts/track_merged_prs.py:83-102 | the timestamp becomes the current time and the result is whether the write succeeded |
| StatusTracker.TrackFalsyUnchanged | scripts/track_merged_prs.py:172-173 | without pull request information nothing changes and False is returned |
| StatusTracker.WithRepoOthers | scripts/track_merged_prs.py:150-154 | the repository is present afterwards and no other entry changes |
| StatusTracker.TrackWatermark | scripts/track_merged_prs.py:175-206 | the update happens exactly when the number is above the watermark, which then becomes that number; the watermark never falls and no other repository changes |
| StatusTracker.TrackLog | scripts/track_merged_prs.py:185-202 | a record is logged only by an update with an operation name; it comes last and the log is capped at 100 |
| StatusTracker.TrackTwice | scripts/track_merged_prs.py:179 | recording the same pull request again changes nothing and returns False |
| StatusTracker.BatchWatermark | scripts/update_batch_status.py:91-103 | the watermark becomes the larger of the two numbers; no other repository changes |
| StatusTracker.BatchLog | scripts/update_batch_status.py:106-121 | a record is always logged, last, and the log length becomes min(old + 1, 100) |
| StatusTracker.BatchNotIdempotent | scripts/update_batch_status.py:106-121 | repeating a batch update logs the record twice |
| StatusTracker.FindUnsyncedAppend | scripts/track_merged_prs.py:219 | the filter works on each part of a split list separately |
| StatusTracker.TrackRepository | scripts/track_merged_prs.py:263-282 | with no unsynced pull request only the repository entry is added and False is returned; otherwise the first unsynced one is recorded by the update rule; True exactly when some fetched pull request is above the watermark |
| StatusTracker.TrackRepositoryFirst | scripts/track_merged_prs.py:263-282 | the watermark becomes the number of the first unsynced pull request in fetched order, so a later one with a higher number is reported again on the next run |
| Text.LeadingDigits | pipeline/update_pr_reports.py:193 | the longest run of digits at the start of the text |
| UpdateReports.PrNumberOf | pipeline/update_pr_reports.py:193-195 | a captured number is a non-empty digit string and the line starts with "#", the number and " - " |
| UpdateReports.PrNumberOfMatches | pipeline/update_pr_reports.py:193-195 | every line of the form "#digits - …" yields its digits |
| UpdateReports.PrNumbers | pipeline/update_pr_reports.py:191-196 | at most one number per line, each a non-empty digit string |
| UpdateReports.PrNumbersAppend | pipeline/update_pr_reports.py:192-195 | the lines are scanned independently, in order |
| UpdateReports.ExtractPrNumbers | pipeline/update_pr_reports.py:181-196 | the loop collects the numbers of the matching lines of the output, in order |
| UpdateReports.LineBreakSplitLine | pipeline/update_pr_reports.py:192 | a line without line breaks followed by "\n" is split off as one line |
| UpdateReports.Numbers | scripts/track_merged_prs.py:277-278 | the decimal numbers of the printed pull requests, in order |
| UpdateReports.TrackerOutputRoundTrip | pipeline/update_pr_reports.py:181-196 | reading back the lines the tracker prints (`#N - title (url)`) gives exactly the printed numbers, in order |
| UpdateReports.NonEmptyOnly | pipeline/update_pr_reports.py:107 | exactly the non-empty language codes, and never more than were given |
| UpdateReports.NonEmptyOnlySingle | pipeline/update_pr_reports.py:107 | one code is kept exactly when it is non-empty |
| UpdateReports.NonEmptyOnlyAppend | pipeline/update_pr_reports.py:107 | the filter works on each part of a split list separately, so the configured order and repeats are kept |
| UpdateReports.OutputLanguages | pipeline/update_pr_reports.py:87-113 | never empty and free of empty codes: the configured list filtered by `NonEmptyOnly`, in its order, when that leaves any, otherwise ["en"] |
| UpdateReports.OutputLanguage | scripts/update_pr_reports.py:95-120 | "en" without configured languages, "multilingual" for more than one, the single language otherwise |
| UpdateReports.SingleLanguageAgrees | scripts/update_pr_reports.py:95-120 | for one configured language the two drivers choose the same language |
| UpdateReports.ProviderFromConfig | pipeline/update_pr_reports.py:115-131 | the configured provider, "deepseek" by default |
| UpdateReports.RepositoriesFromConfig | pipeline/update_pr_reports.py:71-85 | the configured repositories, [] by default |
| UpdateReports.PipelinePlan | pipeline/update_pr_reports.py:282-308 | a failed repository check or an empty configuration or repository list stops the run; otherwise it proceeds with the configured repositories, the output languages and the provider |
| UpdateReports.ScriptsPlan | scripts/update_pr_reports.py:242-268 | the run proceeds exactly when the check succeeded and the configuration names repositories, with the single output language and the provider |
| UpdateReports.TimeoutIsRetried | pipeline/update_pr_reports.py:158-163 | a child killed after its timeout reports a failure whose message says "timed out", so the analysis is retried |
| UpdateReports.FirstSettled | pipeline/update_pr_reports.py:406-440 | the first attempt from k on that is not a timed-out failure, or one past the last attempt |
| UpdateReports.RetryAnalysis | pipeline/update_pr_reports.py:402-440 | one to three runs; success exactly when the last run exited with 0; every earlier run timed out; a 3-second sleep before each retry; one failure recorded on failure |
| UpdateReports.AnalyzeWithRetry | pipeline/update_pr_reports.py:402-440 | the loop performs exactly those attempts |
| UpdateReports.AttemptsFromSettled | pipeline/update_pr_reports.py:406-440 | the attempts from k on are determined by the first attempt that does not time out |
| UpdateReports.RetryAnalysisRecursion | pipeline/update_pr_reports.py:406-440 | the retry loop is the attempts from the first one |
| UpdateReports.OtherFailureStops | pipeline/update_pr_reports.py:435-440 | a failure that is not a timeout ends the loop at once, recording its stderr |
| UpdateReports.ThreeTimeoutsGiveUp | pipeline/update_pr_reports.py:423-434 | three timeouts give up after three runs and two sleeps, recording the timeout failure |
| UpdateReports.SuccessMeansCleanExit | pipeline/update_pr_reports.py:406-443 | success exactly when some attempt within the limit exits with 0 after only timeouts |
| UpdateReports.ReportedStatus | pipeline/update_pr_reports.py:456-473 | "success" exactly when every language succeeded, "failure" otherwise |
| UpdateReports.AnalyzePr | pipeline/update_pr_reports.py:358-473 | one result per language, each from the retry loop; the PR succeeds exactly when every language does, and that decides the reported status |
| UpdateReports.ScriptsStatus | scripts/update_pr_reports.py:329-349 | "success" exactly for exit code 0 |

## Left out

- Processes: `gh`, git and the analysis scripts are not run. This covers `run_gh_command`, `run_command`, `run_script`, cloning, branch/stash handling in `fetch_pr_info`/`fetch_repo_content`, both check_pull_repo.py files, and the `gh` call of `get_merged_prs` in scripts/track_merged_prs.py. Their exit code, output or exception is a parameter of the member that uses them.
- Network: the request inside `call_openai_compatible_api`, the REST call of `GitHubClient.get_merged_prs`, and `get_completion` and `get_chat_completion` of the OpenAI and DeepSeek providers. Only the request parameters, the endpoint and the post-processing of the answer are modelled.
- Provider headers: `_setup_provider` also builds the HTTP headers from the key. Only the requests use them, and those are not modelled.
- Provider classes: the registry maps a name to a provider class. The model records the class by name, so constructing a provider means building a `BaseProvider` record with the parameters the factory assembled.
- File reading: `read_pr_data`, template files, the configuration file and the status file. Their content, or the error reading them gave, is a parameter. The same holds for the file contents `fetch_modified_file_contents` reads.
- File writing: `save_json`, report and patch writes, and `mkdir`. Only the chosen path and the reported success are modelled.
- File search: the glob/mtime-based `find_pr_json_file`, `find_latest_pr_json`, `find_latest_file` and `find_all_files`. The names already in a directory are a set parameter wherever a file name is chosen.
- `fetch_key_module_files` (pipeline/fetch_pr_info.py:224-290) is not part of this model: it lists a checked-out repository.
- `get_project_root`, `get_repo_path`, `get_status_file_path` and `get_full_config` locate files or hand back the whole config; the project root is a parameter.
- The analysis-directory symlink and copy fallback of pipeline/update_pr_reports.py:366-399 is not modelled.
- `record_failed_request` is not modelled; it appends to a CSV log.
- `prepare_multilingual_instruction` (scripts/analyze_pr.py:666) is modelled only through the instruction text it hands to the prompt; the configuration reading in its first half is left out.
- Clocks and sleeps: the date and time are parameters. Sleeps are a recorded list of requested delays. The `--schedule` loops, `main` functions, argparse handling and logging are not modelled.
- The status-update call: both update_pr_reports scripts call a track_merged_prs.py with `--update`, `--operation` and `--status`. The scripts driver calls scripts/track_merged_prs.py, whose parser (lines 223-228) defines none of these, so that call would fail. The pipeline driver calls pipeline/track_merged_prs.py (pipeline/update_pr_reports.py:316), which is not part of this model, so nothing is said about that call. Only the status string each script would pass is modelled.
- OutputNaming.OutputPath, OutputNaming.ReportPath, OutputNaming.ScriptsReportPath, OutputNaming.MultilingualPath: the repository-name component is kept even when it is "" or "." (a repository ending in '/'), where pathlib would drop it; only ScriptsOutputDir models the drop.
- The web viewer, the Docker start and stop scripts, manual_update.py and pipeline/run_pr_analysis.py are not part of this model.
- Nested nulls in the pull-request record are not representable: an author or merger `login`, a label `name`, a file `filename` or `path` is either missing or a string (`Option`). The source would render a `null` login as "None" (pipeline/prompt_builder.py:89, 103) and fail on a `null` label name (line 107). Top-level fields do carry `null`. A `null` repository used as a `github.data` key (scripts/analyze_pr.py:1333-1338) is outside the model as well.
- Configuration values are a typed record of the keys the code reads. Values of other shapes, such as a string where a list is expected, are outside the model.
- Floats: temperature and top_p are hundredths and frequency_penalty is tenths. The 1.5 and 1.2 scalings of `max_tokens` are exact for the three base values.
- Characters: `str.lower()`/`str.upper()` change ASCII letters only, and `\d` matches ASCII digits only. Unicode case mapping and Unicode digits are outside the model.
- `str.splitlines()` is modelled as a break at every line-break character, and differs from Python in three places: "\r\n" is one break in Python and gives an extra empty piece in the model; a text ending in a line break gives a final empty piece in the model and none in Python; the empty text gives [""] in the model and [] in Python. No modelled result depends on empty lines.
- Paths are lists of components, with "." components dropped. A POSIX path starting with exactly two slashes is not distinguished from one starting with one.
- `list(set(...))` in `analyze_module_structure` has no defined order in Python. The model keeps first occurrences in input order. The proved properties (at most 10, no repetitions, all from the input) hold for any order.
- PromptFill.FillLengths: the source walks the `{len(pr_data['k'])}` matches found in the template before any replacement; the model walks the record's list-valued keys whose names the pattern's `[^']+` can capture. The two differ only when a replacement creates a new length reference, as in a template holding "{len(pr_data['{len(pr_data['x'])}'])}" with a three-entry list "x" followed by a list-valued key "3".
- PrFetcher.PrRecord.constructor: `PRFetcher.fetch_pr_info` sets `repository` to the argument as given, not to a validated name, and the model does the same.
- PromptBuilder.BuildPrAnalysisPrompt: its contract states only the two error cases. The filled text is stated by the members it calls (field defaults, merged fields, labels, summary, architecture context, diff excerpt).
- PromptSections.LearningPoints: its contract pins the heading with the main file and the fixed closing step. The pattern list in between is stated separately by `Patterns`.

## Findings

| source | as written | input that shows it | evidently intended | confidence | as-written member | corrected member |
|---|---|---|---|---|---|---|
| pipeline/analyze_pr.py:647-650 | the loop over simple keys replaces `{pr_data['body']}` with `str(body)` before the fallback of lines 677-681 runs, so a falsy string or number body never falls back | the template `{pr_data['body']}` with body "" gives "", with body 0 gives "0" | a falsy body renders as "No description provided" | not executed | PromptFill.FalsyBodiesRendered | PromptFill.CorrectedPromptFallback |
| scripts/analyze_pr.py:649-652 | every substring "# Title" is replaced, including the one inside "## Title" | the template line "## Title" becomes "#" followed by the PR heading | only a line that is exactly "# Title" is replaced, as pipeline/analyze_pr.py:669-674 does | not executed | PromptFill.LegacyTitleRewritesSubheading | PromptFill.SubheadingKept |
| pipeline/analyze_pr.py:909-918 | the complexity record is looked up under `github.data`, which the pipeline never fills (the scripts copy stores the PR there first, scripts/analyze_pr.py:1327-1338), so every request is scored as the empty record | a configuration without `github.data`, a PR with 25 files and 1500 changed lines, a prompt under 20000 characters, a model other than gpt-3.5: max_tokens 4000 and temperature 0.4 | the analysed PR is scored: max_tokens 8000 and temperature 0.2 | not executed | LlmParams.LargePrScoredEmpty | LlmParams.StoredPrScored |
| pipeline/common.py:179-180 | the owner/repo shortcut `^[^/]+/[^/]+$` is tried before the URL forms, and an SSH URL matches it | `git@github.com:owner/name.git` is returned unchanged | the SSH form gives `owner/name`, as lines 182-184 intend | not executed | RepoUrl.SshUrlUnchanged | RepoUrl.CorrectedSshUrl |
