/**
 * The PR-processing status file kept by scripts/track_merged_prs.py and
 * scripts/update_batch_status.py: a per-repository watermark (the highest
 * pull-request number processed) and an audit log of batch operations
 * bounded to its last 100 records.
 *
 * `StatusData` is the dict both scripts update in place; the functions
 * below it say what each update leaves behind, and the lemmas state the
 * watermark and log properties on them. The clock (`now`) is a parameter.
 */
module StatusTracker {
  import opened Wrappers
  import opened Dicts

  /** One entry of `repositories`; the title and URL keys exist only once the tracker has advanced the watermark. */
  datatype RepoStatus = RepoStatus(latestProcessedPr: int, lastUpdated: Option<string>, latestPrTitle: Option<string>, latestPrUrl: Option<string>)

  /** One record of `batch_operations`. */
  datatype Operation = Operation(timestamp: string, repository: string, prNumber: int, operation: string, success: bool)

  /** The whole file; `batchOperations` is `None` when a file read from disk has no such key. */
  datatype Status = Status(repositories: Dict<RepoStatus>, lastUpdated: string, batchOperations: Option<seq<Operation>>)

  /** The fields of a merged pull request the tracker reads. */
  datatype PrInfo = PrInfo(number: int, title: string, htmlUrl: string)

  const LogLimit := 100

  const NewRepo := RepoStatus(0, None, None, None)

  /** `read_status_file`: the stored status, or the default structure when the file is missing (`None`) or unreadable (`Err`). */
  function ReadStatusFile(file: Option<Result<Status>>, now: string): (s: Status)
    ensures file.Some? && file.value.Ok? ==> s == file.value.value
    ensures !(file.Some? && file.value.Ok?) ==> s.repositories == [] && s.batchOperations == Some([]) && s.lastUpdated == now
  {
    if file.Some? && file.value.Ok? then file.value.value else Status([], now, Some([]))
  }

  /** The repository's watermark: 0 for a repository not in the file. */
  function Watermark(repos: Dict<RepoStatus>, repo: string): int {
    match Get(repos, repo)
    case Some(e) => e.latestProcessedPr
    case None => 0
  }

  /** `get_repo_status`: an unknown repository gets the entry `{latest_processed_pr: 0, last_updated: None}`. */
  function WithRepo(repos: Dict<RepoStatus>, repo: string): (r: Dict<RepoStatus>)
    ensures repo in Keys(repos) ==> r == repos
    ensures repo !in Keys(repos) ==> r == repos + [(repo, NewRepo)]
    ensures Watermark(r, repo) == Watermark(repos, repo)
  {
    if repo in Keys(repos) then repos
    else
      PutNew(repos, repo, NewRepo);
      GetPut(repos, repo, NewRepo, repo);
      Put(repos, repo, NewRepo)
  }

  /** `log[-100:]` once the log is longer than 100. */
  function Trim(log: seq<Operation>): (r: seq<Operation>)
    ensures |r| == if |log| > LogLimit then LogLimit else |log|
    ensures r == log[|log| - |r|..]
  {
    if |log| > LogLimit then log[|log| - LogLimit..] else log
  }

  /** The log with one more record: created if missing, appended to, trimmed. */
  function Logged(ops: Option<seq<Operation>>, record: Operation): seq<Operation> {
    Trim((if ops.Some? then ops.value else []) + [record])
  }

  /** The new record comes last, and at most `LogLimit` records are kept. */
  lemma LoggedShape(ops: Option<seq<Operation>>, record: Operation)
    ensures var n := if ops.Some? then |ops.value| else 0;
      |Logged(ops, record)| == (if n + 1 > LogLimit then LogLimit else n + 1)
    ensures Logged(ops, record)[|Logged(ops, record)| - 1] == record
  {
    var log := (if ops.Some? then ops.value else []) + [record];
    var r := Trim(log);
    assert r[|r| - 1] == log[|log| - 1];
  }

  /**
   * The state `update_repo_status(status, repo, pr_info, operation_name,
   * success)` leaves, and its result. `None` stands for a falsy `pr_info`.
   */
  function Track(s: Status, repo: string, pr: Option<PrInfo>, operation: Option<string>, success: bool, now: string): (Status, bool) {
    if pr.None? then (s, false)
    else
      var repos := WithRepo(s.repositories, repo);
      var n := pr.value.number;
      if n > Watermark(repos, repo) then
        var entry := Get(repos, repo).value.(latestProcessedPr := n, lastUpdated := Some(now), latestPrTitle := Some(pr.value.title), latestPrUrl := Some(pr.value.htmlUrl));
        var ops := if operation.Some? && operation.value != "" then Some(Logged(s.batchOperations, Operation(now, repo, n, operation.value, success))) else s.batchOperations;
        (Status(Put(repos, repo, entry), s.lastUpdated, ops), true)
      else (s.(repositories := repos), false)
  }

  /** The state `update_batch_status(status, repo, pr_number, operation_name, success)` leaves; it always returns True. */
  function Batch(s: Status, repo: string, prNumber: int, operation: string, success: bool, now: string): Status {
    var repos := WithRepo(s.repositories, repo);
    var repos' := if prNumber > Watermark(repos, repo) then Put(repos, repo, Get(repos, repo).value.(latestProcessedPr := prNumber, lastUpdated := Some(now))) else repos;
    Status(repos', s.lastUpdated, Some(Logged(s.batchOperations, Operation(now, repo, prNumber, operation, success))))
  }

  /** `Track` for a pull request, in terms of the entry `get_repo_status` returned. */
  lemma TrackUnfolded(s: Status, repo: string, pr: PrInfo, operation: Option<string>, success: bool, now: string, entry: RepoStatus)
    requires Get(WithRepo(s.repositories, repo), repo) == Some(entry)
    ensures var repos := WithRepo(s.repositories, repo);
      Track(s, repo, Some(pr), operation, success, now) ==
      if pr.number > entry.latestProcessedPr then
        (Status(Put(repos, repo, entry.(latestProcessedPr := pr.number, lastUpdated := Some(now), latestPrTitle := Some(pr.title), latestPrUrl := Some(pr.htmlUrl))),
           s.lastUpdated,
           if operation.Some? && operation.value != "" then Some(Logged(s.batchOperations, Operation(now, repo, pr.number, operation.value, success))) else s.batchOperations),
         true)
      else (s.(repositories := repos), false)
  {
    var repos := WithRepo(s.repositories, repo);
    assert Watermark(repos, repo) == entry.latestProcessedPr;
  }

  /** `Batch` in terms of the entry `get_repo_status` returned. */
  lemma BatchUnfolded(s: Status, repo: string, prNumber: int, operation: string, success: bool, now: string, entry: RepoStatus)
    requires Get(WithRepo(s.repositories, repo), repo) == Some(entry)
    ensures var repos := WithRepo(s.repositories, repo);
      Batch(s, repo, prNumber, operation, success, now) ==
      Status(if prNumber > entry.latestProcessedPr then Put(repos, repo, entry.(latestProcessedPr := prNumber, lastUpdated := Some(now))) else repos,
        s.lastUpdated, Some(Logged(s.batchOperations, Operation(now, repo, prNumber, operation, success))))
  {
    var repos := WithRepo(s.repositories, repo);
    assert Watermark(repos, repo) == entry.latestProcessedPr;
  }

  /** `Batch` is the state the three steps of `update_batch_status` leave behind. */
  lemma BatchIs(s: Status, repo: string, prNumber: int, operation: string, success: bool, now: string, entry: RepoStatus, repos: Dict<RepoStatus>)
    requires Get(WithRepo(s.repositories, repo), repo) == Some(entry)
    requires repos == if prNumber > entry.latestProcessedPr
      then Put(WithRepo(s.repositories, repo), repo, entry.(latestProcessedPr := prNumber, lastUpdated := Some(now)))
      else WithRepo(s.repositories, repo)
    ensures Batch(s, repo, prNumber, operation, success, now) ==
      Status(repos, s.lastUpdated, Some(Logged(s.batchOperations, Operation(now, repo, prNumber, operation, success))))
  {
    BatchUnfolded(s, repo, prNumber, operation, success, now, entry);
  }

  /** `find_unsynced_prs`: the pull requests above the watermark, in the order fetched. */
  function FindUnsynced(merged: seq<PrInfo>, watermark: int): (r: seq<PrInfo>)
    ensures forall p :: p in r <==> p in merged && p.number > watermark
    ensures |r| <= |merged|
  {
    if merged == [] then []
    else (if merged[0].number > watermark then [merged[0]] else []) + FindUnsynced(merged[1..], watermark)
  }

  class StatusData {
    var repositories: Dict<RepoStatus>
    var lastUpdated: string
    var batchOperations: Option<seq<Operation>>

    function State(): Status
      reads this
    {
      Status(repositories, lastUpdated, batchOperations)
    }

    constructor (s: Status)
      ensures State() == s
    {
      repositories, lastUpdated, batchOperations := s.repositories, s.lastUpdated, s.batchOperations;
    }

    /** `get_repo_status(status_data, repo)` */
    method GetRepoStatus(repo: string) returns (r: RepoStatus)
      modifies this
      ensures repositories == WithRepo(old(repositories), repo)
      ensures Get(repositories, repo) == Some(r)
      ensures lastUpdated == old(lastUpdated) && batchOperations == old(batchOperations)
    {
      if repo !in Keys(repositories) {
        PutNew(repositories, repo, NewRepo);
        GetPut(repositories, repo, NewRepo, repo);
        repositories := repositories + [(repo, NewRepo)];
      }
      r := Get(repositories, repo).value;
    }

    /** Appends a record to the log, creating it if needed, and keeps the last 100. */
    method Append(record: Operation)
      modifies this
      ensures batchOperations == Some(Logged(old(batchOperations), record))
      ensures repositories == old(repositories) && lastUpdated == old(lastUpdated)
    {
      if batchOperations.None? {
        batchOperations := Some([]);
      }
      var log := batchOperations.value + [record];
      if |log| > LogLimit {
        log := log[|log| - LogLimit..];
      }
      batchOperations := Some(log);
    }

    /** `update_repo_status(status_data, repo, pr_info, operation_name, success)` */
    method UpdateRepoStatus(repo: string, pr: Option<PrInfo>, operation: Option<string>, success: bool, now: string) returns (updated: bool)
      modifies this
      ensures (State(), updated) == Track(old(State()), repo, pr, operation, success, now)
    {
      if pr.None? {
        return false;
      }
      ghost var s0 := State();
      var entry := GetRepoStatus(repo);
      TrackUnfolded(s0, repo, pr.value, operation, success, now, entry);
      var n := pr.value.number;
      if n > entry.latestProcessedPr {
        entry := entry.(latestProcessedPr := n, lastUpdated := Some(now), latestPrTitle := Some(pr.value.title), latestPrUrl := Some(pr.value.htmlUrl));
        repositories := Put(repositories, repo, entry);
        if operation.Some? && operation.value != "" {
          Append(Operation(now, repo, n, operation.value, success));
        }
        return true;
      }
      return false;
    }

    /** The watermark step of `update_batch_status`: the entry is raised to `prNumber` if that is higher. */
    method RaiseWatermark(repo: string, entry: RepoStatus, prNumber: int, now: string)
      modifies this
      ensures repositories == if prNumber > entry.latestProcessedPr
        then Put(old(repositories), repo, entry.(latestProcessedPr := prNumber, lastUpdated := Some(now)))
        else old(repositories)
      ensures lastUpdated == old(lastUpdated) && batchOperations == old(batchOperations)
    {
      if prNumber > entry.latestProcessedPr {
        repositories := Put(repositories, repo, entry.(latestProcessedPr := prNumber, lastUpdated := Some(now)));
      }
    }

    /** `update_batch_status(status_data, repo, pr_number, operation_name, success)` */
    method UpdateBatchStatus(repo: string, prNumber: int, operation: string, success: bool, now: string) returns (updated: bool)
      modifies this
      ensures updated
      ensures State() == Batch(old(State()), repo, prNumber, operation, success, now)
    {
      ghost var s0 := State();
      var record := Operation(now, repo, prNumber, operation, success);
      var entry := GetRepoStatus(repo);
      RaiseWatermark(repo, entry, prNumber, now);
      Append(record);
      BatchIs(s0, repo, prNumber, operation, success, now, entry, repositories);
      return true;
    }

    /** `write_status_file`: the timestamp is refreshed before the write, whose outcome is a parameter. */
    method WriteStatusFile(now: string, writeSucceeds: bool) returns (ok: bool)
      modifies this
      ensures State() == old(State()).(lastUpdated := now)
      ensures ok == writeSucceeds
    {
      lastUpdated := now;
      ok := writeSucceeds;
    }
  }

  // ---------------------------------------------------------------------------
  // Properties of update_repo_status
  // ---------------------------------------------------------------------------

  /** A falsy `pr_info` returns False and changes nothing. */
  lemma TrackFalsyUnchanged(s: Status, repo: string, operation: Option<string>, success: bool, now: string)
    ensures Track(s, repo, None, operation, success, now) == (s, false)
  {
  }

  /** `get_repo_status` leaves the other repositories alone and makes sure the entry exists. */
  lemma WithRepoOthers(repos: Dict<RepoStatus>, repo: string)
    ensures repo in Keys(WithRepo(repos, repo))
    ensures forall k :: k != repo ==> Get(WithRepo(repos, repo), k) == Get(repos, k)
  {
    if repo !in Keys(repos) {
      KeysAppend(repos, [(repo, NewRepo)]);
      forall k | k != repo ensures Get(WithRepo(repos, repo), k) == Get(repos, k) {
        PutNew(repos, repo, NewRepo);
        GetPut(repos, repo, NewRepo, k);
      }
    }
  }

  /** Writing one repository's entry leaves the other entries alone. */
  lemma PutEntry(repos: Dict<RepoStatus>, repo: string, entry: RepoStatus)
    ensures repo in Keys(Put(repos, repo, entry))
    ensures Watermark(Put(repos, repo, entry), repo) == entry.latestProcessedPr
    ensures forall k :: k != repo ==> Get(Put(repos, repo, entry), k) == Get(repos, k)
  {
    forall k ensures Get(Put(repos, repo, entry), k) == if k == repo then Some(entry) else Get(repos, k) {
      GetPut(repos, repo, entry, k);
    }
  }

  lemma TrackWatermark(s: Status, repo: string, pr: PrInfo, operation: Option<string>, success: bool, now: string)
    ensures var (s', updated) := Track(s, repo, Some(pr), operation, success, now);
      (updated <==> pr.number > Watermark(s.repositories, repo)) &&
      Watermark(s'.repositories, repo) == (if updated then pr.number else Watermark(s.repositories, repo)) &&
      Watermark(s'.repositories, repo) >= Watermark(s.repositories, repo) &&
      repo in Keys(s'.repositories) &&
      forall k :: k != repo ==> Get(s'.repositories, k) == Get(s.repositories, k)
  {
    var repos := WithRepo(s.repositories, repo);
    WithRepoOthers(s.repositories, repo);
    if pr.number > Watermark(repos, repo) {
      var entry := Get(repos, repo).value.(latestProcessedPr := pr.number, lastUpdated := Some(now), latestPrTitle := Some(pr.title), latestPrUrl := Some(pr.htmlUrl));
      PutEntry(repos, repo, entry);
    }
  }

  /**
   * A record is appended only when the watermark advances and an operation
   * name is given; it is then the last record, and the log keeps at most
   * its last 100 records.
   */
  lemma TrackLog(s: Status, repo: string, pr: PrInfo, operation: Option<string>, success: bool, now: string)
    ensures var (s', updated) := Track(s, repo, Some(pr), operation, success, now);
      (!updated || operation.None? || operation.value == "" ==> s'.batchOperations == s.batchOperations) &&
      (updated && operation.Some? && operation.value != "" ==>
        s'.batchOperations.Some? &&
        |s'.batchOperations.value| == (if s.batchOperations.Some? && |s.batchOperations.value| >= LogLimit then LogLimit else (if s.batchOperations.Some? then |s.batchOperations.value| else 0) + 1) &&
        s'.batchOperations.value[|s'.batchOperations.value| - 1] == Operation(now, repo, pr.number, operation.value, success))
  {
    LoggedShape(s.batchOperations, Operation(now, repo, pr.number, if operation.Some? then operation.value else "", success));
  }

  /** The same pull request a second time: False, and nothing changes. */
  lemma TrackTwice(s: Status, repo: string, pr: PrInfo, operation: Option<string>, success: bool, now1: string, now2: string)
    ensures var s1 := Track(s, repo, Some(pr), operation, success, now1).0;
      Track(s1, repo, Some(pr), operation, success, now2) == (s1, false)
  {
    TrackWatermark(s, repo, pr, operation, success, now1);
    var s1 := Track(s, repo, Some(pr), operation, success, now1).0;
    assert WithRepo(s1.repositories, repo) == s1.repositories;
  }

  // ---------------------------------------------------------------------------
  // Properties of update_batch_status
  // ---------------------------------------------------------------------------

  /**
   * The watermark becomes max(old, pr_number), an unknown repository
   * starting from 0; other repositories keep their entries.
   */
  lemma BatchWatermark(s: Status, repo: string, prNumber: int, operation: string, success: bool, now: string)
    ensures var s' := Batch(s, repo, prNumber, operation, success, now);
      var w := Watermark(s.repositories, repo);
      Watermark(s'.repositories, repo) == (if prNumber > w then prNumber else w) &&
      repo in Keys(s'.repositories) &&
      forall k :: k != repo ==> Get(s'.repositories, k) == Get(s.repositories, k)
  {
    var repos := WithRepo(s.repositories, repo);
    WithRepoOthers(s.repositories, repo);
    if prNumber > Watermark(repos, repo) {
      PutEntry(repos, repo, Get(repos, repo).value.(latestProcessedPr := prNumber, lastUpdated := Some(now)));
    }
  }

  /**
   * Exactly one record is appended, as the last one, even when the
   * watermark does not move, and the log length becomes min(old + 1, 100).
   */
  lemma BatchLog(s: Status, repo: string, prNumber: int, operation: string, success: bool, now: string)
    ensures var log := Batch(s, repo, prNumber, operation, success, now).batchOperations;
      var n := if s.batchOperations.Some? then |s.batchOperations.value| else 0;
      log.Some? &&
      |log.value| == (if n + 1 > LogLimit then LogLimit else n + 1) &&
      log.value[|log.value| - 1] == Operation(now, repo, prNumber, operation, success)
  {
    LoggedShape(s.batchOperations, Operation(now, repo, prNumber, operation, success));
  }

  /** Two identical calls are not idempotent: the log holds both records. */
  lemma BatchNotIdempotent(s: Status, repo: string, prNumber: int, operation: string, success: bool, now: string)
    requires s.batchOperations.Some? && |s.batchOperations.value| < LogLimit - 1
    ensures var s2 := Batch(Batch(s, repo, prNumber, operation, success, now), repo, prNumber, operation, success, now);
      s2.batchOperations == Some(s.batchOperations.value + [Operation(now, repo, prNumber, operation, success), Operation(now, repo, prNumber, operation, success)])
  {
    var rec := Operation(now, repo, prNumber, operation, success);
    assert s.batchOperations.value + [rec] + [rec] == s.batchOperations.value + [rec, rec];
  }

  // ---------------------------------------------------------------------------
  // The tracking step of main
  // ---------------------------------------------------------------------------

  /** `find_unsynced_prs` keeps the order of the fetched list: it works on each part of a split list separately. */
  lemma {:induction false} FindUnsyncedAppend(a: seq<PrInfo>, b: seq<PrInfo>, watermark: int)
    ensures FindUnsynced(a + b, watermark) == FindUnsynced(a, watermark) + FindUnsynced(b, watermark)
  {
    if a == [] {
      assert a + b == b;
    } else {
      assert (a + b)[0] == a[0] && (a + b)[1..] == a[1..] + b;
      FindUnsyncedAppend(a[1..], b, watermark);
      var head := if a[0].number > watermark then [a[0]] else [];
      assert FindUnsynced(a + b, watermark) == head + (FindUnsynced(a[1..], watermark) + FindUnsynced(b, watermark));
    }
  }

  /**
   * One repository in `main` of scripts/track_merged_prs.py: the watermark
   * is looked up (creating the entry), and if any fetched pull request is
   * above it, the FIRST of them in fetched order is recorded.
   */
  function TrackRepository(s: Status, repo: string, merged: seq<PrInfo>, now: string): (r: (Status, bool))
    ensures var s0 := s.(repositories := WithRepo(s.repositories, repo));
      var unsynced := FindUnsynced(merged, Watermark(s.repositories, repo));
      (unsynced == [] ==> r == (s0, false)) &&
      (unsynced != [] ==> r == Track(s0, repo, Some(unsynced[0]), Some("track_merged_prs"), true, now))
    ensures r.1 <==> exists p :: p in merged && p.number > Watermark(s.repositories, repo)
  {
    var s0 := s.(repositories := WithRepo(s.repositories, repo));
    var unsynced := FindUnsynced(merged, Watermark(s0.repositories, repo));
    if unsynced == [] then (s0, false)
    else Track(s0, repo, Some(unsynced[0]), Some("track_merged_prs"), true, now)
  }

  /**
   * The new watermark is the number of the first unsynced pull request, not
   * the largest: any later unsynced one with a higher number is still above
   * the watermark and is reported again on the next run.
   */
  lemma TrackRepositoryFirst(s: Status, repo: string, merged: seq<PrInfo>, now: string)
    requires FindUnsynced(merged, Watermark(s.repositories, repo)) != []
    ensures var first := FindUnsynced(merged, Watermark(s.repositories, repo))[0];
      var (s', updated) := TrackRepository(s, repo, merged, now);
      updated && Watermark(s'.repositories, repo) == first.number &&
      forall p :: p in merged && p.number > first.number ==> p in FindUnsynced(merged, Watermark(s'.repositories, repo))
  {
    var s0 := s.(repositories := WithRepo(s.repositories, repo));
    var first := FindUnsynced(merged, Watermark(s.repositories, repo))[0];
    assert first in FindUnsynced(merged, Watermark(s.repositories, repo));
    TrackWatermark(s0, repo, first, Some("track_merged_prs"), true, now);
  }
}
