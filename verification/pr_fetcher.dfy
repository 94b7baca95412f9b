/**
 * `PRFetcher` (pipeline/pr_fetcher.py): the record the GitHub client
 * returned is completed in place (diff, fetch time, repository, a derived
 * `changes` count on every file, files sorted by it, the commit note) and
 * may then be saved, which adds `file_path` to the same record.
 *
 * The client's record, the diff (or the exception fetching it raised) and
 * the clock are inputs; the JSON write is not modelled.
 */
module PrFetcher {
  import opened Wrappers
  import opened Text
  import opened Sorting
  import opened PrData
  import opened OutputNaming

  const CommitAnalysisText := "Commit information is not available as commits data is not fetched."

  /** The keys of the record the fetcher reads or writes; the other keys `gh` printed are not touched and are not represented. */
  class PrRecord {
    var number: Field<int>
    var repository: Field<string>
    var files: Option<seq<FileChange>>
    var diff: Option<string>
    var fetchedAt: Option<string>
    var commitAnalysis: Option<string>
    var filePath: Option<seq<string>>

    /** The record as the GitHub client returned it. */
    constructor (number: Field<int>, repository: Field<string>, files: Option<seq<FileChange>>)
      ensures this.number == number && this.repository == repository && this.files == files
      ensures diff.None? && fetchedAt.None? && commitAnalysis.None? && filePath.None?
    {
      this.number := number;
      this.repository := repository;
      this.files := files;
      diff, fetchedAt, commitAnalysis, filePath := None, None, None, None;
    }
  }

  /** `file["changes"]` once the fetcher has seen the file: kept when present, otherwise additions plus deletions. */
  function WithChanges(f: FileChange): (r: FileChange)
    ensures r.changes.Some?
    ensures f.changes.Some? ==> r == f
    ensures f.changes.None? ==> r == f.(changes := Some(f.additions + f.deletions))
  {
    if f.changes.Some? then f else f.(changes := Some(f.additions + f.deletions))
  }

  function AllWithChanges(files: seq<FileChange>): (r: seq<FileChange>)
    ensures |r| == |files|
    ensures forall i :: 0 <= i < |r| ==> r[i] == WithChanges(files[i])
  {
    if files == [] then [] else [WithChanges(files[0])] + AllWithChanges(files[1..])
  }

  /** The sort key `x.get("changes", 0)`. */
  function StoredChanges(f: FileChange): int {
    if f.changes.Some? then f.changes.value else 0
  }

  /** The `files` list after `fetch_pr_info`. */
  function OrderedFiles(files: seq<FileChange>): seq<FileChange> {
    SortDesc(AllWithChanges(files), StoredChanges)
  }

  /**
   * The files after fetching are the input files, each with its `changes`
   * count, in non-increasing order of that count; files with equal counts
   * keep their input order, and a count that was already there is kept.
   */
  lemma OrderedFilesSpec(files: seq<FileChange>)
    ensures multiset(OrderedFiles(files)) == multiset(AllWithChanges(files))
    ensures SortedDesc(OrderedFiles(files), StoredChanges)
    ensures forall k :: WithKey(OrderedFiles(files), StoredChanges, k) == WithKey(AllWithChanges(files), StoredChanges, k)
    ensures forall f :: f in OrderedFiles(files) ==> f.changes.Some?
    ensures forall f :: f in files && f.changes.Some? ==> f in OrderedFiles(files)
  {
    var derived := AllWithChanges(files);
    SortDescPermutes(derived, StoredChanges);
    SortDescSorted(derived, StoredChanges);
    forall k ensures WithKey(OrderedFiles(files), StoredChanges, k) == WithKey(derived, StoredChanges, k) {
      SortDescStable(derived, StoredChanges, k);
    }
    forall f | f in OrderedFiles(files) ensures f.changes.Some? {
      assert f in multiset(derived);
    }
    forall f | f in files && f.changes.Some? ensures f in OrderedFiles(files) {
      var i :| 0 <= i < |files| && files[i] == f;
      assert derived[i] == f;
      assert f in multiset(OrderedFiles(files));
    }
  }

  /**
   * The body of `fetch_pr_info` after the two `gh` calls: `diff` and
   * `fetched_at` are set, `repository` becomes the name the caller gave,
   * every file gets its `changes` count, the files are sorted by it and the
   * commit note is added.
   */
  method Complete(pr: PrRecord, repo: string, diff: string, now: string)
    modifies pr
    ensures pr.diff == Some(diff) && pr.fetchedAt == Some(now) && pr.repository == Present(repo)
    ensures pr.commitAnalysis == Some(CommitAnalysisText)
    ensures pr.files == if old(pr.files).Some? then Some(OrderedFiles(old(pr.files).value)) else None
    ensures pr.number == old(pr.number) && pr.filePath == old(pr.filePath)
  {
    pr.diff := Some(diff);
    pr.fetchedAt := Some(now);
    pr.repository := Present(repo);
    if pr.files.Some? {
      var original := pr.files.value;
      var files := original;
      var i := 0;
      while i < |files|
        invariant 0 <= i <= |files| == |original|
        invariant forall j :: 0 <= j < i ==> files[j] == WithChanges(original[j])
        invariant forall j :: i <= j < |files| ==> files[j] == original[j]
      {
        if files[i].changes.None? {
          files := files[i := files[i].(changes := Some(files[i].additions + files[i].deletions))];
        }
        i := i + 1;
      }
      assert files == AllWithChanges(original);
      pr.files := Some(SortDesc(files, StoredChanges));
    }
    pr.commitAnalysis := Some(CommitAnalysisText);
  }

  /** `repository` and `number` are both truthy. */
  predicate Identified(repository: Field<string>, number: Field<int>) {
    repository.Present? && repository.value != "" && number.Present? && number.value != 0
  }

  /**
   * `save_pr_info(pr_data, output_dir)`: without a truthy repository and
   * number it raises ValueError and leaves the record alone; otherwise the
   * file goes to the given directory (or the configured output directory)
   * and its path is added to the record.
   */
  method SavePrInfo(pr: PrRecord, outputDir: Option<seq<string>>, configuredOutputDir: seq<string>, d: Date)
    returns (r: Result<seq<string>>)
    modifies pr
    ensures pr.number == old(pr.number) && pr.repository == old(pr.repository) && pr.files == old(pr.files)
    ensures pr.diff == old(pr.diff) && pr.fetchedAt == old(pr.fetchedAt) && pr.commitAnalysis == old(pr.commitAnalysis)
    ensures !Identified(old(pr.repository), old(pr.number)) ==>
      r == Err(ValueError("PR data missing repository or number")) && pr.filePath == old(pr.filePath)
    ensures Identified(old(pr.repository), old(pr.number)) ==>
      var dir := if outputDir.Some? then outputDir.value else configuredOutputDir;
      r == Ok(OutputPath(dir, pr.repository.value, IntToString(pr.number.value), "json", None, d)) &&
      pr.filePath == Some(r.value)
  {
    if !Identified(pr.repository, pr.number) {
      return Err(ValueError("PR data missing repository or number"));
    }
    var dir := if outputDir.Some? then outputDir.value else configuredOutputDir;
    var path := OutputPath(dir, pr.repository.value, IntToString(pr.number.value), "json", None, d);
    pr.filePath := Some(path);
    r := Ok(path);
  }

  /**
   * `fetch_pr_info(repo, pr_number, output_dir)` once the client has
   * returned the record: an exception while fetching the diff propagates
   * and leaves the record as it was; otherwise the record is completed and,
   * when an output directory is given, saved.
   */
  method FetchPrInfo(pr: PrRecord, repo: string, diff: Result<string>, now: string, outputDir: Option<seq<string>>, configuredOutputDir: seq<string>, d: Date)
    returns (r: Result<Option<seq<string>>>)
    modifies pr
    ensures pr.number == old(pr.number)
    ensures diff.Err? ==>
      r == Err(diff.error) && pr.repository == old(pr.repository) && pr.files == old(pr.files) &&
      pr.diff == old(pr.diff) && pr.fetchedAt == old(pr.fetchedAt) && pr.commitAnalysis == old(pr.commitAnalysis) &&
      pr.filePath == old(pr.filePath)
    ensures diff.Ok? ==>
      pr.diff == Some(diff.value) && pr.fetchedAt == Some(now) && pr.commitAnalysis == Some(CommitAnalysisText) &&
      pr.repository == Present(repo) &&
      pr.files == (if old(pr.files).Some? then Some(OrderedFiles(old(pr.files).value)) else None)
    ensures diff.Ok? && outputDir.None? ==> r == Ok(None) && pr.filePath == old(pr.filePath)
    ensures diff.Ok? && outputDir.Some? && !Identified(Present(repo), old(pr.number)) ==>
      r == Err(ValueError("PR data missing repository or number")) && pr.filePath == old(pr.filePath)
    ensures diff.Ok? && outputDir.Some? && Identified(Present(repo), old(pr.number)) ==>
      r == Ok(Some(OutputPath(outputDir.value, repo, IntToString(old(pr.number).value), "json", None, d))) &&
      pr.filePath == r.value
  {
    if diff.Err? {
      return Err(diff.error);
    }
    Complete(pr, repo, diff.value, now);
    if outputDir.None? {
      return Ok(None);
    }
    var saved := SavePrInfo(pr, outputDir, configuredOutputDir, d);
    if saved.Err? {
      return Err(saved.error);
    }
    r := Ok(Some(saved.value));
  }
}
