/**
 * Grouping of changed paths by their first directory, shared by
 * `generate_architecture_context`, `_prepare_architecture_context` and
 * `fetch_module_context`: an empty path, or a path with no '/', belongs to
 * no module; otherwise the module is the text before the first '/'.
 */
module PathGroups {
  import opened Wrappers
  import opened Text
  import opened Dicts

  /** The module of a path: the text before its first '/', if it has one. */
  function TopDir(path: string): Option<string> {
    match IndexOf(path, "/")
    case None => None
    case Some(i) => Some(path[..i])
  }

  /** The same module as the loops compute it: `parts = path.split('/')`, and `parts[0]` when there is more than one part. */
  lemma TopDirSplit(path: string)
    ensures var parts := SplitOn(path, "/");
      TopDir(path) == if path != "" && |parts| > 1 then Some(parts[0]) else None
  {
  }

  /** The paths of `paths` whose module is `m`, in input order. */
  function PathsUnder(paths: seq<string>, m: string): seq<string> {
    if paths == [] then []
    else PathsUnder(paths[..|paths| - 1], m) + (if TopDir(paths[|paths| - 1]) == Some(m) then [paths[|paths| - 1]] else [])
  }

  /** One step of the grouping loop. */
  function AddPath(g: Dict<seq<string>>, p: string): Dict<seq<string>> {
    match TopDir(p)
    case None => g
    case Some(m) =>
      match Get(g, m)
      case None => Put(g, m, [p])
      case Some(ps) => Put(g, m, ps + [p])
  }

  /** The `modules` dict after the loop has seen `paths`. */
  function Groups(paths: seq<string>): Dict<seq<string>> {
    if paths == [] then [] else AddPath(Groups(paths[..|paths| - 1]), paths[|paths| - 1])
  }

  lemma {:induction false} GroupsDistinct(paths: seq<string>)
    ensures Distinct(Keys(Groups(paths)))
  {
    if paths != [] {
      var init, p := paths[..|paths| - 1], paths[|paths| - 1];
      GroupsDistinct(init);
      var g := Groups(init);
      match TopDir(p)
      case None =>
      case Some(d) =>
        var ps := if Get(g, d).Some? then Get(g, d).value + [p] else [p];
        PutDistinct(g, d, ps);
    }
  }

  lemma AddPathGet(g: Dict<seq<string>>, p: string, m: string)
    ensures Get(AddPath(g, p), m) ==
      if TopDir(p) == Some(m) then Some((if Get(g, m).Some? then Get(g, m).value else []) + [p])
      else Get(g, m)
  {
    match TopDir(p)
    case None =>
    case Some(d) =>
      var ps := (if Get(g, d).Some? then Get(g, d).value else []) + [p];
      assert [] + [p] == [p];
      assert AddPath(g, p) == Put(g, d, ps);
      GetPut(g, d, ps, m);
  }

  /** Each module holds exactly the paths under it, in input order; a module with no path is not listed. */
  lemma {:induction false} GroupsContents(paths: seq<string>, m: string)
    ensures Get(Groups(paths), m) == if PathsUnder(paths, m) == [] then None else Some(PathsUnder(paths, m))
  {
    if paths != [] {
      var init, p := paths[..|paths| - 1], paths[|paths| - 1];
      GroupsContents(init, m);
      AddPathGet(Groups(init), p, m);
      var tail := if TopDir(p) == Some(m) then [p] else [];
      assert PathsUnder(paths, m) == PathsUnder(init, m) + tail;
      if TopDir(p) != Some(m) {
        assert PathsUnder(paths, m) == PathsUnder(init, m);
      }
    }
  }

  /** One more path of the loop is one more `AddPath`. */
  lemma GroupsStep(paths: seq<string>, i: nat)
    requires i < |paths|
    ensures Groups(paths[..i + 1]) == AddPath(Groups(paths[..i]), paths[i])
  {
    assert paths[..i + 1][..i] == paths[..i];
  }

  /** The loop of the three groupers: for each non-empty path with a '/', append it under its module. */
  method GroupPaths(paths: seq<string>) returns (modules: Dict<seq<string>>)
    ensures modules == Groups(paths)
  {
    modules := [];
    var i := 0;
    while i < |paths|
      invariant 0 <= i <= |paths|
      invariant modules == Groups(paths[..i])
    {
      var path := paths[i];
      GroupsStep(paths, i);
      TopDirSplit(path);
      if path != "" {
        var parts := SplitOn(path, "/");
        if |parts| > 1 {
          var dir := parts[0];
          assert TopDir(path) == Some(dir);
          if Get(modules, dir).None? {
            modules := Put(modules, dir, []);
            PutTwice(Groups(paths[..i]), dir, [], [path]);
          }
          GetPut(Groups(paths[..i]), dir, [], dir);
          modules := Put(modules, dir, Get(modules, dir).value + [path]);
          assert [] + [path] == [path];
        }
      }
      i := i + 1;
    }
    assert paths[..|paths|] == paths;
  }
}
