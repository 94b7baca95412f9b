/**
 * `validate_repo_url`, written identically in pipeline/common.py,
 * scripts/common.py, pipeline/github_client.py and scripts/fetch_pr_info.py:
 * a string that is already "owner/repo" is returned as it is; otherwise the
 * first `github.com` URL tail in it gives "owner/repo"; anything else raises
 * ValueError. The two regular expressions are written out as the
 * predicates and scans below.
 */
module RepoUrl {
  import opened Wrappers

  /** The index of the first '/' of `s`, or `|s|` when there is none. */
  function FirstSlash(s: string): (k: nat)
    ensures k <= |s|
    ensures forall i :: 0 <= i < k ==> s[i] != '/'
    ensures k < |s| ==> s[k] == '/'
  {
    if s == [] || s[0] == '/' then 0
    else
      var k := FirstSlash(s[1..]);
      assert forall i :: 1 <= i < 1 + k ==> s[i] == s[1..][i - 1];
      1 + k
  }

  lemma {:induction false} FirstSlashJoin(a: string, b: string)
    requires forall i :: 0 <= i < |a| ==> a[i] != '/'
    ensures FirstSlash(a + "/" + b) == |a|
  {
    if a != [] {
      assert (a + "/" + b)[1..] == a[1..] + "/" + b;
      FirstSlashJoin(a[1..], b);
    }
  }

  /** `re.match(r'^[^/]+/[^/]+$', s)`: exactly one '/', with text on both sides. */
  predicate IsOwnerRepo(s: string) {
    var k := FirstSlash(s);
    0 < k < |s| - 1 && '/' !in s[k + 1..]
  }

  /** Text without '/', as `[^/]+` matches it. */
  predicate Segment(s: string) {
    s != [] && '/' !in s
  }

  lemma OwnerRepoJoin(owner: string, name: string)
    requires Segment(owner) && Segment(name)
    ensures IsOwnerRepo(owner + "/" + name)
  {
    FirstSlashJoin(owner, name);
    assert (owner + "/" + name)[|owner| + 1..] == name;
  }

  const Host := "github.com"

  /** What `(?:\.git)?/?$` accepts: the end of the text, or the end before a final newline. */
  predicate IsTail(t: string) {
    t in ["", ".git", "/", ".git/", "\n", ".git\n", "/\n", ".git/\n"]
  }

  /**
   * The lazy `[^/]+?` followed by the tail: the shortest length, at least
   * `j`, of a '/'-free start of `u` after which the tail matches.
   */
  function NameEnd(u: string, j: nat): (r: Option<nat>)
    requires 1 <= j && j - 1 <= |u|
    requires forall i :: 0 <= i < j - 1 ==> u[i] != '/'
    ensures r.Some? ==> j <= r.value <= |u| && IsTail(u[r.value..])
    ensures r.Some? ==> forall i :: 0 <= i < r.value ==> u[i] != '/'
    decreases |u| - j
  {
    if j > |u| || u[j - 1] == '/' then None
    else if IsTail(u[j..]) then Some(j)
    else NameEnd(u, j + 1)
  }

  /** A match of `github\.com[:/]([^/]+/[^/]+?)(?:\.git)?/?$` starting at `i`: its group. */
  function MatchFrom(s: string, i: nat): (r: Option<string>)
    requires i <= |s|
    ensures r.Some? ==> IsOwnerRepo(r.value)
  {
    if Host <= s[i..] && i + 10 < |s| && s[i + 10] in [':', '/'] then
      var t := s[i + 11..];
      var k := FirstSlash(t);
      if 0 < k < |t| then
        var u := t[k + 1..];
        match NameEnd(u, 1)
        case Some(j) =>
          assert Segment(t[..k]) && Segment(u[..j]) by {
            assert forall c :: c in t[..k] ==> c != '/';
            assert forall c :: c in u[..j] ==> c != '/';
          }
          OwnerRepoJoin(t[..k], u[..j]);
          Some(t[..k] + "/" + u[..j])
        case None => None
      else None
    else None
  }

  /** `re.search`: the match at the leftmost position where there is one. */
  function Search(s: string, i: nat): (r: Option<string>)
    requires i <= |s|
    ensures r.Some? ==> IsOwnerRepo(r.value)
    decreases |s| - i
  {
    var m := MatchFrom(s, i);
    if m.Some? || i == |s| then m else Search(s, i + 1)
  }

  function InvalidMessage(s: string): string {
    "Invalid repository format: " + s + ". Expected format: owner/repo or GitHub URL"
  }

  /**
   * `validate_repo_url` as written. Whatever it returns is in owner/repo
   * form, and owner/repo text comes back as it is, so a second call
   * returns the first call's result.
   */
  function ValidateRepoUrl(s: string): (r: Result<string>)
    ensures r.Ok? ==> IsOwnerRepo(r.value)
    ensures IsOwnerRepo(s) ==> r == Ok(s)
    ensures r.Err? ==> r == Err(ValueError(InvalidMessage(s)))
  {
    if IsOwnerRepo(s) then Ok(s)
    else
      match Search(s, 0)
      case Some(g) => Ok(g)
      case None => Err(ValueError(InvalidMessage(s)))
  }

  /** A second call returns the first call's result. */
  lemma ValidateIdempotent(s: string)
    ensures ValidateRepoUrl(s).Ok? ==> ValidateRepoUrl(ValidateRepoUrl(s).value) == ValidateRepoUrl(s)
  {
  }

  /** Positions before `i` where `github.com` does not start change nothing about the search. */
  lemma {:induction false} SearchSkips(s: string, i: nat)
    requires i <= |s|
    requires forall p :: 0 <= p < i ==> !(Host <= s[p..])
    ensures Search(s, 0) == Search(s, i)
  {
    if i > 0 {
      SearchSkips(s, i - 1);
    }
  }

  /** Text that is not owner/repo and holds no `github.com` is refused. */
  lemma {:induction false} NoHostRefused(s: string, i: nat)
    requires i <= |s|
    requires !IsOwnerRepo(s)
    requires forall p :: i <= p <= |s| ==> !(Host <= s[p..])
    ensures Search(s, i).None?
    ensures i == 0 ==> ValidateRepoUrl(s) == Err(ValueError(InvalidMessage(s)))
    decreases |s| - i
  {
    if i < |s| {
      NoHostRefused(s, i + 1);
    }
  }

  /** A repository name as GitHub writes it in URLs: no '/', no '.', no newline. */
  predicate PlainName(name: string) {
    name != [] && forall c :: c in name ==> c != '/' && c != '.' && c != '\n'
  }

  /** The lazy group stops where the name ends, before any ".git" or "/". */
  lemma {:induction false} NameEndAtName(name: string, suffix: string, j: nat)
    requires PlainName(name) && IsTail(suffix)
    requires 1 <= j <= |name|
    requires forall i :: 0 <= i < j - 1 ==> (name + suffix)[i] != '/'
    ensures NameEnd(name + suffix, j) == Some(|name|)
    decreases |name| - j
  {
    var u := name + suffix;
    assert u[j - 1] == name[j - 1];
    assert u[j - 1] in name;
    if j < |name| {
      assert u[j..] == name[j..] + suffix;
      assert u[j..][0] == name[j] && name[j] in name;
      NameEndAtName(name, suffix, j + 1);
    } else {
      assert u[j..] == suffix;
    }
  }

  /** The match at the position of `github.com` in `lead + Host + [sep] + owner + "/" + name + suffix`. */
  lemma MatchAtHost(lead: string, sep: char, owner: string, name: string, suffix: string)
    requires sep == ':' || sep == '/'
    requires Segment(owner) && PlainName(name) && IsTail(suffix)
    ensures MatchFrom(lead + Host + [sep] + owner + "/" + name + suffix, |lead|) == Some(owner + "/" + name)
  {
    var rest := owner + "/" + (name + suffix);
    var s := lead + Host + [sep] + rest;
    assert s == lead + Host + [sep] + owner + "/" + name + suffix;
    var i := |lead|;
    assert s[i..] == Host + [sep] + rest;
    assert Host <= s[i..];
    assert s[i + 10] == sep;
    assert s[i + 11..] == rest;
    FirstSlashJoin(owner, name + suffix);
    assert rest[|owner| + 1..] == name + suffix;
    assert rest[..|owner|] == owner;
    NameEndAtName(name, suffix, 1);
    assert (name + suffix)[..|name|] == name;
  }

  /** Text after "https:/" holding a '/' is not owner/repo text. */
  lemma HttpsNotOwnerRepo(rest: string)
    ensures !IsOwnerRepo("https://" + Host + "/" + rest)
  {
    var s := "https://" + Host + "/" + rest;
    assert s == "https:" + "/" + ("/" + Host + "/" + rest);
    FirstSlashJoin("https:", "/" + Host + "/" + rest);
    assert s[7..][0] == '/';
  }

  /** In an https URL the search starts looking at `github.com`. */
  lemma HttpsSearch(rest: string)
    ensures Search("https://" + Host + "/" + rest, 0) == Search("https://" + Host + "/" + rest, 8)
  {
    var s := "https://" + Host + "/" + rest;
    forall p | 0 <= p < 8
      ensures !(Host <= s[p..])
    {
      assert s[p..][0] == s[p] != 'g';
    }
    SearchSkips(s, 8);
  }

  /** An https URL of a repository, with or without ".git" and a final '/', gives owner/repo. */
  lemma HttpsUrl(owner: string, name: string, suffix: string)
    requires Segment(owner) && PlainName(name)
    requires suffix in ["", ".git", "/", ".git/"]
    ensures ValidateRepoUrl("https://" + Host + "/" + owner + "/" + name + suffix) == Ok(owner + "/" + name)
  {
    var rest := owner + "/" + name + suffix;
    var s := "https://" + Host + "/" + rest;
    assert "https://" + Host + "/" + owner + "/" + name + suffix == s;
    assert IsTail(suffix);
    assert MatchFrom(s, 8) == Some(owner + "/" + name) by {
      MatchAtHost("https://", '/', owner, name, suffix);
      assert s == "https://" + Host + ['/'] + owner + "/" + name + suffix;
    }
    assert Search(s, 8) == Some(owner + "/" + name);
    HttpsNotOwnerRepo(rest);
    HttpsSearch(rest);
  }

  /**
   * The scp-style address `git@github.com:owner/repo.git` has a single '/',
   * so the owner/repo check accepts it and it comes back unchanged.
   */
  lemma SshUrlUnchanged(owner: string, name: string)
    requires Segment(owner) && Segment(name)
    ensures ValidateRepoUrl("git@" + Host + ":" + owner + "/" + name + ".git") == Ok("git@" + Host + ":" + owner + "/" + name + ".git")
  {
    var s := "git@" + Host + ":" + owner + "/" + name + ".git";
    assert s == ("git@" + Host + ":" + owner) + "/" + (name + ".git");
    OwnerRepoJoin("git@" + Host + ":" + owner, name + ".git");
  }

  // ---------------------------------------------------------------------------
  // The scp-style address normalised
  // ---------------------------------------------------------------------------

  /** The owner/repo check without ':' in the owner, which a GitHub login never holds. */
  predicate IsPlainOwnerRepo(s: string) {
    IsOwnerRepo(s) && ':' !in s[..FirstSlash(s)]
  }

  /**
   * `validate_repo_url` with the owner/repo check refusing a ':' before the
   * '/', so that an scp-style address reaches the URL pattern. Its results
   * are in owner/repo form, and ':'-free owner/repo text is kept.
   */
  function ValidateRepoUrlCorrected(s: string): (r: Result<string>)
    ensures r.Ok? ==> IsOwnerRepo(r.value)
    ensures IsPlainOwnerRepo(s) ==> r == Ok(s)
    ensures r.Err? ==> r == Err(ValueError(InvalidMessage(s)))
  {
    if IsPlainOwnerRepo(s) then Ok(s)
    else
      match Search(s, 0)
      case Some(g) => Ok(g)
      case None => Err(ValueError(InvalidMessage(s)))
  }

  /** A result whose owner holds no ':' comes back unchanged from a second call. */
  lemma CorrectedIdempotent(s: string)
    ensures ValidateRepoUrlCorrected(s).Ok? && IsPlainOwnerRepo(ValidateRepoUrlCorrected(s).value) ==>
      ValidateRepoUrlCorrected(ValidateRepoUrlCorrected(s).value) == ValidateRepoUrlCorrected(s)
  {
  }

  /** The owner part of an scp-style address ends with ':'. */
  lemma SshNotPlain(rest: string)
    ensures !IsPlainOwnerRepo("git@" + Host + ":" + rest)
  {
    var s := "git@" + Host + ":" + rest;
    if IsOwnerRepo(s) {
      assert forall i :: 0 <= i < 15 ==> s[i] != '/';
      assert s[..FirstSlash(s)][14] == ':';
    }
  }

  /** In an scp-style address the search starts looking at `github.com`. */
  lemma SshSearch(rest: string)
    ensures Search("git@" + Host + ":" + rest, 0) == Search("git@" + Host + ":" + rest, 4)
  {
    var s := "git@" + Host + ":" + rest;
    forall p | 0 <= p < 4
      ensures !(Host <= s[p..])
    {
      assert s[p..][0] == s[p];
      if p == 0 {
        assert s[p..][3] == '@';
      }
    }
    SearchSkips(s, 4);
  }

  /** With the correction the scp-style address gives owner/repo, with or without ".git" and a final '/'. */
  lemma CorrectedSshUrl(owner: string, name: string, suffix: string)
    requires Segment(owner) && PlainName(name)
    requires suffix in ["", ".git", "/", ".git/"]
    ensures ValidateRepoUrlCorrected("git@" + Host + ":" + owner + "/" + name + suffix) == Ok(owner + "/" + name)
  {
    var rest := owner + "/" + name + suffix;
    assert "git@" + Host + ":" + owner + "/" + name + suffix == "git@" + Host + ":" + rest;
    SshNotPlain(rest);
    SshSearch(rest);
    MatchAtHost("git@", ':', owner, name, suffix);
  }

  /** The https form is not owner/repo text, so the correction leaves it as it was. */
  lemma CorrectedHttpsUrl(owner: string, name: string, suffix: string)
    requires Segment(owner) && PlainName(name)
    requires suffix in ["", ".git", "/", ".git/"]
    ensures ValidateRepoUrlCorrected("https://" + Host + "/" + owner + "/" + name + suffix) == Ok(owner + "/" + name)
  {
    HttpsUrl(owner, name, suffix);
  }
}
