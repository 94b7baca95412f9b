/** The parts of a fetched pull-request record that the renderers read. */
module PrData {
  import opened Wrappers

  /** A JSON field that may be missing, be `null`, or hold a value. */
  datatype Field<T> = Absent | Null | Present(value: T)

  /** A user object such as `author` or `mergedBy`; `otherKeys` counts its keys besides `login`. */
  datatype Account = Account(login: Option<string>, otherKeys: nat)

  /** A dict is truthy when it has at least one key. */
  predicate AccountTruthy(a: Account) {
    a.login.Some? || a.otherKeys > 0
  }

  datatype Label = Label(name: Option<string>)

  /** One entry of the `files` list; a missing addition or deletion count reads as 0. */
  datatype FileChange = FileChange(
    filename: Option<string>,
    path: Option<string>,
    additions: nat,
    deletions: nat,
    changes: Option<int>)

  datatype PullRequest = PullRequest(
    number: Field<int>,
    title: Field<string>,
    url: Field<string>,
    author: Field<Account>,
    body: Field<string>,
    repository: Field<string>,
    state: Field<string>,
    createdAt: Field<string>,
    mergedAt: Field<string>,
    mergedBy: Field<Account>,
    labels: seq<Label>,
    files: seq<FileChange>,
    diff: string)

  /** `file.get('filename', file.get('path', 'Unknown file'))` */
  function DisplayName(f: FileChange): string {
    if f.filename.Some? then f.filename.value
    else if f.path.Some? then f.path.value
    else "Unknown file"
  }

  /** `file.get('filename', file.get('path', ''))` */
  function PathOf(f: FileChange): string {
    if f.filename.Some? then f.filename.value
    else if f.path.Some? then f.path.value
    else ""
  }

  /** The sort key of the renderers: additions plus deletions. */
  function LineDelta(f: FileChange): int {
    f.additions + f.deletions
  }

  function Paths(files: seq<FileChange>): (r: seq<string>)
    ensures |r| == |files|
    ensures forall i :: 0 <= i < |files| ==> r[i] == PathOf(files[i])
  {
    if files == [] then [] else [PathOf(files[0])] + Paths(files[1..])
  }
}
