/**
 * `ConfigManager` (pipeline/utils/config_manager.py): the configuration is
 * loaded once, its sections are cached in fields, and the getters read
 * them with defaults, the environment taking precedence for secrets.
 *
 * The file system is a parameter: what reading the file gave (missing,
 * unreadable, or a configuration). The environment is a map.
 */
module ConfigManagement {
  import opened Wrappers
  import opened Text
  import opened Dicts
  import opened Configuration
  import opened Common

  /** `os.environ.get(name)` is truthy. */
  predicate EnvSet(env: map<string, string>, name: string) {
    name in env && env[name] != ""
  }

  const DefaultCheckInterval := 3600
  const DefaultProvider := "openai"
  /** 0.7 */
  const DefaultTemperature := JFloat(70)

  /**
   * `_load_config`: the parsed file, or `{}` when the file does not exist
   * (`None`) or cannot be read or parsed (`Err`).
   */
  function LoadConfig(file: Option<Result<Config>>): (c: Config)
    ensures file.Some? && file.value.Ok? ==> c == file.value.value
    ensures file.None? || file.value.Err? ==> !ConfigTruthy(c)
  {
    if file.Some? && file.value.Ok? then file.value.value else EmptyConfig
  }

  /** The name of the environment variable holding a provider's key: `f"{provider.upper()}_API_KEY"`. */
  function ApiKeyVariable(provider: string): (name: string)
    ensures |name| == |provider| + 8
    ensures EndsWith(name, "_API_KEY")
  {
    ConcatEnds(Upper(provider), "_API_KEY");
    Upper(provider) + "_API_KEY"
  }

  class ConfigManager {
    var projectRoot: FsPath
    var configPath: FsPath
    var config: Config
    /** The cached sections; `None` stands for the `{}` default of a missing section. */
    var github: Option<GitHubSection>
    var llm: Option<LlmSection>
    var output: Option<OutputSection>
    var paths: Option<Dict<string>>

    /**
     * `ConfigManager(config_path)`: a relative path is taken below the
     * project root; `file` is what reading that path gave.
     */
    constructor (configPathArg: string, projectRoot: FsPath, file: Option<Result<Config>>)
      ensures this.projectRoot == projectRoot && configPath == Resolve(projectRoot, configPathArg)
      ensures config == LoadConfig(file)
      ensures github == config.github && llm == config.llm && output == config.output && paths == config.paths
    {
      this.projectRoot := projectRoot;
      configPath := Resolve(projectRoot, configPathArg);
      var loaded := LoadConfig(file);
      config := loaded;
      github := loaded.github;
      llm := loaded.llm;
      output := loaded.output;
      paths := loaded.paths;
    }

    /** `get_github_token`: a non-empty GITHUB_TOKEN wins; then the configured token; "" when neither is there. */
    function GithubToken(env: map<string, string>): (r: string)
      reads this
      ensures EnvSet(env, "GITHUB_TOKEN") ==> r == env["GITHUB_TOKEN"]
      ensures !EnvSet(env, "GITHUB_TOKEN") && github.Some? && github.value.token.Some? ==> r == github.value.token.value
      ensures r == "" <==>
        !EnvSet(env, "GITHUB_TOKEN") && (github.None? || github.value.token.None? || github.value.token.value == "")
    {
      if EnvSet(env, "GITHUB_TOKEN") then env["GITHUB_TOKEN"]
      else if github.Some? && github.value.token.Some? then github.value.token.value
      else ""
    }

    /** `get_repositories`: [] when none are configured. */
    function Repositories(): (r: seq<string>)
      reads this
      ensures github.Some? && github.value.repositories.Some? ==> r == github.value.repositories.value
      ensures github.None? || github.value.repositories.None? ==> r == []
    {
      if github.Some? && github.value.repositories.Some? then github.value.repositories.value else []
    }

    /** `get_check_interval`: 3600 seconds unless configured. */
    function CheckInterval(): (r: int)
      reads this
      ensures github.Some? && github.value.checkInterval.Some? ==> r == github.value.checkInterval.value
      ensures github.None? || github.value.checkInterval.None? ==> r == DefaultCheckInterval
    {
      if github.Some? && github.value.checkInterval.Some? then github.value.checkInterval.value else DefaultCheckInterval
    }

    /** `get_llm_provider`: "openai" unless configured. */
    function LlmProvider(): (r: string)
      reads this
      ensures llm.Some? && llm.value.provider.Some? ==> r == llm.value.provider.value
      ensures llm.None? || llm.value.provider.None? ==> r == DefaultProvider
    {
      if llm.Some? && llm.value.provider.Some? then llm.value.provider.value else DefaultProvider
    }

    /** `get_llm_temperature`: 0.7 unless configured. */
    function LlmTemperature(): (r: Json)
      reads this
      ensures llm.Some? && llm.value.temperature.Some? ==> r == llm.value.temperature.value
      ensures llm.None? || llm.value.temperature.None? ==> r == DefaultTemperature
    {
      if llm.Some? && llm.value.temperature.Some? then llm.value.temperature.value else DefaultTemperature
    }

    /** The provider a getter works on: the one given, or the configured one. */
    function ProviderName(provider: Option<string>): (r: string)
      reads this
      ensures provider.Some? ==> r == provider.value
      ensures provider.None? ==> r == LlmProvider()
    {
      if provider.Some? then provider.value else LlmProvider()
    }

    /** `get_provider_config(provider)`: the provider's own section, `{}` for a provider without one. */
    function ProviderConfig(provider: Option<string>): (r: Dict<Json>)
      reads this
      ensures var name := ProviderName(provider);
        (llm.Some? && llm.value.providers.Some? && name in Keys(llm.value.providers.value) ==>
          Get(llm.value.providers.value, name) == Some(r)) &&
        (llm.None? || llm.value.providers.None? || name !in Keys(llm.value.providers.value) ==> r == [])
    {
      var name := ProviderName(provider);
      if llm.Some? && llm.value.providers.Some? then
        match Get(llm.value.providers.value, name)
        case Some(section) => section
        case None => []
      else []
    }

    /**
     * `get_provider_api_key(provider)`: a non-empty `<PROVIDER>_API_KEY`
     * wins; then the provider section's `api_key`, whatever JSON value it
     * holds; "" when neither is there.
     */
    function ProviderApiKey(provider: Option<string>, env: map<string, string>): (r: Json)
      reads this
      ensures var name := ApiKeyVariable(ProviderName(provider));
        (EnvSet(env, name) ==> r == JStr(env[name])) &&
        (!EnvSet(env, name) && "api_key" in Keys(ProviderConfig(provider)) ==> Get(ProviderConfig(provider), "api_key") == Some(r)) &&
        (!EnvSet(env, name) && "api_key" !in Keys(ProviderConfig(provider)) ==> r == JStr(""))
    {
      var name := ApiKeyVariable(ProviderName(provider));
      if EnvSet(env, name) then JStr(env[name])
      else
        match Get(ProviderConfig(provider), "api_key")
        case Some(key) => key
        case None => JStr("")
    }

    /** `get_output_languages`: ["en"] when the key is missing or the list is empty; never empty. */
    function OutputLanguages(): (r: seq<string>)
      reads this
      ensures r != []
      ensures output.Some? && output.value.languages.Some? && output.value.languages.value != [] ==> r == output.value.languages.value
      ensures output.None? || output.value.languages.None? || output.value.languages.value == [] ==> r == ["en"]
    {
      if output.Some? && output.value.languages.Some? && output.value.languages.value != [] then output.value.languages.value
      else ["en"]
    }

    /** `get_path(path_key, default_path)`: the setting or the default, taken below the project root when relative. */
    function GetPath(key: string, default: string): (r: FsPath)
      reads this
      ensures var s := PathSetting(paths, key, default);
        (ParsePath(s).absolute ==> r == ParsePath(s)) &&
        (!ParsePath(s).absolute ==> r.absolute == projectRoot.absolute && r.parts == projectRoot.parts + ParsePath(s).parts)
    {
      Resolve(projectRoot, PathSetting(paths, key, default))
    }

    function ReposDir(): FsPath
      reads this
    {
      GetPath("repos_dir", "./repos")
    }

    function OutputDir(): FsPath
      reads this
    {
      GetPath("output_dir", "./output")
    }

    function AnalysisDir(): FsPath
      reads this
    {
      GetPath("analysis_dir", "./analysis")
    }

    /** Without a `paths` section, a default "./name" is the directory `name` below the project root. */
    lemma DefaultDir(key: string, name: string)
      requires paths.None?
      requires name != [] && name != "." && name[0] != '/'
      requires forall i :: 0 <= i < |name| ==> name[i] != '/'
      ensures GetPath(key, "./" + name) == FsPath(projectRoot.absolute, projectRoot.parts + [name])
    {
      SingleComponent(projectRoot, name);
    }

    /** Without a `paths` section the three directories are `repos`, `output` and `analysis` below the project root. */
    lemma DefaultDirectories()
      requires paths.None?
      ensures ReposDir() == FsPath(projectRoot.absolute, projectRoot.parts + ["repos"])
      ensures OutputDir() == FsPath(projectRoot.absolute, projectRoot.parts + ["output"])
      ensures AnalysisDir() == FsPath(projectRoot.absolute, projectRoot.parts + ["analysis"])
    {
      DefaultRepos();
      DefaultOutput();
      DefaultAnalysis();
    }

    lemma DefaultRepos()
      requires paths.None?
      ensures ReposDir() == FsPath(projectRoot.absolute, projectRoot.parts + ["repos"])
    {
      assert "./repos" == "./" + "repos";
      DefaultDir("repos_dir", "repos");
    }

    lemma DefaultOutput()
      requires paths.None?
      ensures OutputDir() == FsPath(projectRoot.absolute, projectRoot.parts + ["output"])
    {
      assert "./output" == "./" + "output";
      DefaultDir("output_dir", "output");
    }

    lemma DefaultAnalysis()
      requires paths.None?
      ensures AnalysisDir() == FsPath(projectRoot.absolute, projectRoot.parts + ["analysis"])
    {
      assert "./analysis" == "./" + "analysis";
      DefaultDir("analysis_dir", "analysis");
    }
  }

  /** "./name" for a name without '/' (and not "." or "") is the directory `name` below the root. */
  lemma SingleComponent(root: FsPath, name: string)
    requires name != [] && name != "." && name[0] != '/'
    requires forall i :: 0 <= i < |name| ==> name[i] != '/'
    ensures Resolve(root, "./" + name) == FsPath(root.absolute, root.parts + [name])
  {
    DotSlashIgnored(root, name);
    forall j | 0 <= j < |name| ensures !OccursAt(name, "/", j) {
      assert name[j..][0] == name[j];
    }
    assert !OccursAt(name, "/", |name|);
    assert IndexOf(name, "/").None?;
    assert SplitOn(name, "/") == [name];
    assert Components([name]) == [name] by {
      assert [name][1..] == [];
    }
  }
}
