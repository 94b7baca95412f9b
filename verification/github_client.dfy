/**
 * `GitHubClient` (pipeline/github_client.py): the request headers it keeps,
 * the post-processing of the record `gh pr view` returns, the `merged_at`
 * filter of `get_merged_prs` and the decision logic of `clone_repository`.
 *
 * The `gh` and git processes and the HTTP request are not run: their exit
 * code, output or exception is a parameter, and so is the parse of the
 * JSON they print. Repository names are validated with
 * `validate_repo_url` as written (`RepoUrl.ValidateRepoUrl`), so an SSH
 * name passes through unchanged (see `CloneSshAsWritten`).
 */
module GitHubClient {
  import opened Wrappers
  import opened Dicts
  import opened Configuration
  import opened RepoUrl

  const ApiBaseUrl := "https://api.github.com"

  /** The headers the constructor builds: an Authorization entry exactly when the token is truthy. */
  function Headers(token: Option<string>): (h: Dict<string>)
    ensures Get(h, "Authorization") == if token.Some? && token.value != "" then Some("token " + token.value) else None
    ensures |h| <= 1
  {
    if token.Some? && token.value != "" then [("Authorization", "token " + token.value)] else []
  }

  /** What `run_gh_command` returned: exit code, stdout and stderr. */
  datatype Completed = Completed(returncode: int, stdout: string, stderr: string)

  const FetchFailure := "Failed to fetch PR information: "

  function ViewCommand(prNumber: string, repo: string): string {
    "gh pr view " + prNumber + " --repo " + repo + " --json number,title,url,state,author,createdAt,mergedAt,mergedBy,body,files,reviews,labels"
  }

  /** The record after `fetch_pr_info`: `reviews` emptied if present, `repository` set; every other key as `gh` printed it. */
  function PostProcess(d: Dict<Json>, repo: string): (r: Dict<Json>)
    ensures Get(r, "repository") == Some(JStr(repo))
    ensures "reviews" in Keys(d) ==> Get(r, "reviews") == Some(JList([]))
    ensures "reviews" !in Keys(d) ==> "reviews" !in Keys(r)
    ensures forall k :: k != "repository" && k != "reviews" ==> Get(r, k) == Get(d, k)
    ensures Keys(r) == if "repository" in Keys(d) then Keys(d) else Keys(d) + ["repository"]
  {
    var cleared := if "reviews" in Keys(d) then Put(d, "reviews", JList([])) else d;
    var r := Put(cleared, "repository", JStr(repo));
    assert forall k :: Get(r, k) == if k == "repository" then Some(JStr(repo)) else Get(cleared, k) by {
      forall k ensures Get(r, k) == if k == "repository" then Some(JStr(repo)) else Get(cleared, k) {
        GetPut(cleared, "repository", JStr(repo), k);
      }
    }
    assert forall k :: Get(cleared, k) == if k == "reviews" && "reviews" in Keys(d) then Some(JList([])) else Get(d, k) by {
      forall k ensures Get(cleared, k) == if k == "reviews" && "reviews" in Keys(d) then Some(JList([])) else Get(d, k) {
        if "reviews" in Keys(d) {
          GetPut(d, "reviews", JList([]), k);
        }
      }
    }
    r
  }

  class Client {
    var token: Option<string>
    var apiBaseUrl: string
    var headers: Dict<string>

    constructor (token: Option<string>)
      ensures this.token == token && apiBaseUrl == ApiBaseUrl && headers == Headers(token)
    {
      this.token := token;
      apiBaseUrl := ApiBaseUrl;
      headers := Headers(token);
    }

    /**
     * `fetch_pr_info(repo, pr_number)`. `gh` is what running the view
     * command gave (or the exception it raised) and `parsed` is
     * `json.loads` of its stdout. Every exception leaves as a
     * RuntimeError carrying the original message. `command` is the command
     * line that was run, if any.
     */
    method FetchPrInfo(repo: string, prNumber: string, gh: Result<Completed>, parsed: Result<Dict<Json>>)
      returns (r: Result<Dict<Json>>, command: Option<string>)
      ensures var v := ValidateRepoUrl(repo);
        (v.Err? ==> command.None? && r == Err(RuntimeError(FetchFailure + InvalidMessage(repo)))) &&
        (v.Ok? ==> command == Some(ViewCommand(prNumber, v.value))) &&
        (v.Ok? && gh.Err? ==> r == Err(RuntimeError(FetchFailure + gh.error.message))) &&
        (v.Ok? && gh.Ok? && gh.value.returncode != 0 ==>
          r == Err(RuntimeError(FetchFailure + "Error fetching PR information: " + gh.value.stderr))) &&
        (v.Ok? && gh.Ok? && gh.value.returncode == 0 && parsed.Err? ==> r == Err(RuntimeError(FetchFailure + parsed.error.message))) &&
        (v.Ok? && gh.Ok? && gh.value.returncode == 0 && parsed.Ok? ==> r == Ok(PostProcess(parsed.value, v.value)))
    {
      command := None;
      var validated := ValidateRepoUrl(repo);
      if validated.Err? {
        return Err(RuntimeError(FetchFailure + validated.error.message)), command;
      }
      var name := validated.value;
      command := Some(ViewCommand(prNumber, name));
      if gh.Err? {
        return Err(RuntimeError(FetchFailure + gh.error.message)), command;
      }
      if gh.value.returncode != 0 {
        return Err(RuntimeError(FetchFailure + "Error fetching PR information: " + gh.value.stderr)), command;
      }
      if parsed.Err? {
        return Err(RuntimeError(FetchFailure + parsed.error.message)), command;
      }
      var prData := parsed.value;
      if "reviews" in Keys(prData) {
        prData := Put(prData, "reviews", JList([]));
      }
      prData := Put(prData, "repository", JStr(name));
      r := Ok(prData);
    }
  }

  /** `pr.get("merged_at")` is truthy. */
  predicate Merged(pr: Dict<Json>) {
    var m := Get(pr, "merged_at");
    m.Some? && Truthy(m.value)
  }

  function MergedOnly(prs: seq<Dict<Json>>): (r: seq<Dict<Json>>)
    ensures forall pr :: pr in r <==> pr in prs && Merged(pr)
    ensures |r| <= |prs|
  {
    if prs == [] then []
    else (if Merged(prs[0]) then [prs[0]] else []) + MergedOnly(prs[1..])
  }

  /** The filter keeps the response order: it works on each part of a split list separately. */
  lemma {:induction false} MergedOnlyAppend(a: seq<Dict<Json>>, b: seq<Dict<Json>>)
    ensures MergedOnly(a + b) == MergedOnly(a) + MergedOnly(b)
  {
    if a != [] {
      MergedOnlyAppend(a[1..], b);
      MergedOnlyStep(a, b);
      var head := if Merged(a[0]) then [a[0]] else [];
      assert head + (MergedOnly(a[1..]) + MergedOnly(b)) == (head + MergedOnly(a[1..])) + MergedOnly(b);
    } else {
      assert a + b == b;
    }
  }

  lemma MergedOnlyStep(a: seq<Dict<Json>>, b: seq<Dict<Json>>)
    requires a != []
    ensures MergedOnly(a + b) == (if Merged(a[0]) then [a[0]] else []) + MergedOnly(a[1..] + b)
  {
    assert (a + b)[0] == a[0] && (a + b)[1..] == a[1..] + b;
  }

  /**
   * `get_merged_prs(repo, limit)`: `response` is the decoded list of pull
   * requests, or the exception the request raised. Every error, an invalid
   * repository name included, gives the empty list.
   */
  function GetMergedPrs(repo: string, response: Result<seq<Dict<Json>>>): (r: seq<Dict<Json>>)
    ensures ValidateRepoUrl(repo).Err? || response.Err? ==> r == []
    ensures ValidateRepoUrl(repo).Ok? && response.Ok? ==>
      forall pr :: pr in r <==> pr in response.value && Merged(pr)
    ensures ValidateRepoUrl(repo).Ok? && response.Ok? ==> r == MergedOnly(response.value)
  {
    if ValidateRepoUrl(repo).Err? || response.Err? then [] else MergedOnly(response.value)
  }

  /** What `clone_repository` did: its boolean result and the command it ran, if any. */
  datatype CloneResult = CloneResult(success: bool, command: Option<string>)

  /**
   * `clone_repository(repo, target_dir, skip_clone)`. `hasCheckout` says
   * whether `target_dir/.git` exists; `run` is the exit code of the command
   * or the exception it raised.
   */
  function CloneRepository(repo: string, targetDir: string, skipClone: bool, hasCheckout: bool, run: Result<int>): (r: CloneResult)
    ensures skipClone ==> r == CloneResult(true, None)
    ensures !skipClone && ValidateRepoUrl(repo).Err? ==> r == CloneResult(false, None)
    ensures r.success <==> skipClone || (ValidateRepoUrl(repo).Ok? && run == Ok(0))
    ensures r.command.Some? ==>
      !skipClone && ValidateRepoUrl(repo).Ok? &&
      r.command.value == (if hasCheckout then "cd " + targetDir + " && git pull"
        else "git clone https://github.com/" + ValidateRepoUrl(repo).value + ".git " + targetDir)
  {
    if skipClone then CloneResult(true, None)
    else match ValidateRepoUrl(repo)
      case Err(_) => CloneResult(false, None)
      case Ok(name) =>
        var cmd := if hasCheckout then "cd " + targetDir + " && git pull" else "git clone https://github.com/" + name + ".git " + targetDir;
        CloneResult(run == Ok(0), Some(cmd))
  }

  /**
   * An SSH name passes the owner/repo shortcut unchanged, so the clone
   * command puts the whole SSH address after the HTTPS prefix.
   */
  lemma CloneSshAsWritten(owner: string, name: string, targetDir: string, run: Result<int>)
    requires Segment(owner) && Segment(name)
    ensures var ssh := "git@" + Host + ":" + owner + "/" + name + ".git";
      CloneRepository(ssh, targetDir, false, false, run).command ==
        Some("git clone https://github.com/" + ssh + ".git " + targetDir)
  {
    SshUrlUnchanged(owner, name);
  }
}
