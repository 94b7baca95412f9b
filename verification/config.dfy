/**
 * The configuration file (`config.json`) and the paths read from it.
 *
 * The four sections the programs read are typed by the schema the
 * repository documents; the values a provider section forwards untouched
 * to the provider keep their JSON form. Fractions are scaled to integers
 * (hundredths).
 */
module Configuration {
  import opened Wrappers
  import opened Text
  import opened Dicts
  import PrData

  datatype Json =
    | JNull
    | JBool(b: bool)
    | JInt(i: int)
    | JFloat(hundredths: int)
    | JStr(s: string)
    | JList(items: seq<Json>)
    | JObject(entries: seq<(string, Json)>)

  /** Python truthiness of a JSON value. */
  predicate Truthy(j: Json) {
    match j
    case JNull => false
    case JBool(b) => b
    case JInt(i) => i != 0
    case JFloat(h) => h != 0
    case JStr(s) => s != ""
    case JList(items) => items != []
    case JObject(entries) => entries != []
  }

  /**
   * `data` maps a repository to the pull-request records stored under
   * their numbers; the scripts copy of the analysis fills it in before
   * calling the model, and the request parameters are scored from it.
   */
  datatype GitHubSection = GitHubSection(
    token: Option<string>,
    repositories: Option<seq<string>>,
    checkInterval: Option<int>,
    data: Option<Dict<Dict<PrData.PullRequest>>>)

  /** `providers` maps a provider name to its own settings (`api_key`, `base_url`, `model`, `max_tokens` and extras). */
  datatype LlmSection = LlmSection(provider: Option<string>, temperature: Option<Json>, providers: Option<Dict<Dict<Json>>>)

  datatype OutputSection = OutputSection(languages: Option<seq<string>>)

  /** A missing section is `None`; `otherKeys` counts top-level keys the programs never read (they only make the file truthy). */
  datatype Config = Config(
    github: Option<GitHubSection>,
    llm: Option<LlmSection>,
    output: Option<OutputSection>,
    paths: Option<Dict<string>>,
    otherKeys: nat)

  /** `{}`: what a missing or unreadable file is read as. */
  const EmptyConfig := Config(None, None, None, None, 0)

  /** A dict is truthy when it has at least one key. */
  predicate ConfigTruthy(c: Config) {
    c.github.Some? || c.llm.Some? || c.output.Some? || c.paths.Some? || c.otherKeys > 0
  }

  /** A file-system path as `pathlib` holds it: empty and "." components are dropped. */
  datatype FsPath = FsPath(absolute: bool, parts: seq<string>)

  function Components(pieces: seq<string>): (r: seq<string>)
    ensures forall i :: 0 <= i < |r| ==> r[i] != "" && r[i] != "." && r[i] in pieces
  {
    if pieces == [] then []
    else if pieces[0] == "" || pieces[0] == "." then Components(pieces[1..])
    else [pieces[0]] + Components(pieces[1..])
  }

  /** `Path(s)` */
  function ParsePath(s: string): (r: FsPath)
    ensures r.absolute <==> s != [] && s[0] == '/'
    ensures forall i :: 0 <= i < |r.parts| ==> r.parts[i] != "" && r.parts[i] != "."
  {
    FsPath(s != [] && s[0] == '/', Components(SplitOn(s, "/")))
  }

  /** `root / Path(s)`: a relative path is appended to the root, an absolute one replaces it. */
  function Resolve(root: FsPath, s: string): (r: FsPath)
    ensures ParsePath(s).absolute ==> r == ParsePath(s)
    ensures !ParsePath(s).absolute ==> r.absolute == root.absolute && r.parts == root.parts + ParsePath(s).parts
  {
    var p := ParsePath(s);
    if p.absolute then p else FsPath(root.absolute, root.parts + p.parts)
  }

  /** A leading "./" changes nothing: "./output" and "output" name the same directory. */
  lemma DotSlashIgnored(root: FsPath, s: string)
    requires s != [] && s[0] != '/'
    ensures Resolve(root, "./" + s) == Resolve(root, s)
  {
    assert ("./" + s)[..1] == "." && ("./" + s)[1..2] == "/";
    assert ("./" + s)[2..] == s;
    assert OccursAt("./" + s, "/", 1);
    assert !OccursAt("./" + s, "/", 0) by {
      assert ("./" + s)[0..][0] == '.';
    }
    assert IndexOf("./" + s, "/") == Some(1);
    SplitOnFound("./" + s, "/");
  }
}
