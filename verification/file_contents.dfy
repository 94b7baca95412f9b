/**
 * `format_modified_file_contents` (pipeline/analyze_pr.py): the block of
 * modified file contents, at most ten files in path order, each cut to 3000
 * characters, under a 30000-character total budget.
 */
module ModifiedFileContents {
  import opened Text
  import opened Sorting
  import opened Dicts

  // ---------------------------------------------------------------------------
  // Path order
  // ---------------------------------------------------------------------------

  type Item = (string, string)

  predicate SortedByPath(s: seq<Item>) {
    forall i, j :: 0 <= i < j < |s| ==> StrLe(s[i].0, s[j].0)
  }

  function InsertByPath(s: seq<Item>, x: Item): (r: seq<Item>)
    ensures |r| == |s| + 1
  {
    if s == [] then [x]
    else if StrLe(s[|s| - 1].0, x.0) then s + [x]
    else InsertByPath(s[..|s| - 1], x) + [s[|s| - 1]]
  }

  /** `sorted(d.items())`: the entries in ascending path order (dictionary keys never tie). */
  function SortByPath(s: seq<Item>): (r: seq<Item>)
    ensures |r| == |s|
  {
    if s == [] then [] else InsertByPath(SortByPath(s[..|s| - 1]), s[|s| - 1])
  }

  lemma {:induction false} InsertByPathPermutes(s: seq<Item>, x: Item)
    ensures multiset(InsertByPath(s, x)) == multiset(s) + multiset{x}
  {
    if s != [] && !StrLe(s[|s| - 1].0, x.0) {
      InsertByPathPermutes(s[..|s| - 1], x);
      assert s == s[..|s| - 1] + [s[|s| - 1]];
    }
  }

  lemma {:induction false} InsertByPathUpperBound(s: seq<Item>, x: Item, b: string)
    requires forall i :: 0 <= i < |s| ==> StrLe(s[i].0, b)
    requires StrLe(x.0, b)
    ensures forall i :: 0 <= i < |InsertByPath(s, x)| ==> StrLe(InsertByPath(s, x)[i].0, b)
  {
    if s != [] && !StrLe(s[|s| - 1].0, x.0) {
      var init := s[..|s| - 1];
      InsertByPathUpperBound(init, x, b);
      assert InsertByPath(s, x) == InsertByPath(init, x) + [s[|s| - 1]];
    }
  }

  lemma {:induction false} InsertByPathSorted(s: seq<Item>, x: Item)
    requires SortedByPath(s)
    ensures SortedByPath(InsertByPath(s, x))
  {
    if s == [] {
    } else if StrLe(s[|s| - 1].0, x.0) {
      forall i | 0 <= i < |s| ensures StrLe(s[i].0, x.0) {
        if i < |s| - 1 {
          StrLeTrans(s[i].0, s[|s| - 1].0, x.0);
        }
      }
    } else {
      var init, last := s[..|s| - 1], s[|s| - 1];
      StrLeTotal(last.0, x.0);
      InsertByPathSorted(init, x);
      InsertByPathUpperBound(init, x, last.0);
      assert InsertByPath(s, x) == InsertByPath(init, x) + [last];
    }
  }

  lemma {:induction false} SortByPathProperties(s: seq<Item>)
    ensures SortedByPath(SortByPath(s))
    ensures multiset(SortByPath(s)) == multiset(s)
  {
    if s != [] {
      SortByPathProperties(s[..|s| - 1]);
      InsertByPathSorted(SortByPath(s[..|s| - 1]), s[|s| - 1]);
      InsertByPathPermutes(SortByPath(s[..|s| - 1]), s[|s| - 1]);
      assert s == s[..|s| - 1] + [s[|s| - 1]];
    }
  }

  // ---------------------------------------------------------------------------
  // The block
  // ---------------------------------------------------------------------------

  const MaxFiles := 10
  const FileBudget := 3000
  const TotalBudget := 30000
  const TruncationNotice := "\n...\n[content truncated]"
  const OmissionNotice := "\n### [Additional files omitted due to size constraints]"
  const NoContents := "No modified file contents available."

  /** The files considered: the first ten in path order. */
  function Candidates(contents: Dict<string>): seq<Item> {
    Take(SortByPath(contents), MaxFiles)
  }

  /** The candidates are at most ten entries of the dictionary, in ascending path order, and no path left out sorts before a kept one. */
  lemma CandidatesProperties(contents: Dict<string>)
    ensures |Candidates(contents)| == if |contents| < MaxFiles then |contents| else MaxFiles
    ensures SortedByPath(Candidates(contents))
    ensures multiset(Candidates(contents)) <= multiset(contents)
    ensures forall i, j :: 0 <= i < |Candidates(contents)| <= j < |contents| ==>
      StrLe(Candidates(contents)[i].0, SortByPath(contents)[j].0)
  {
    var sorted := SortByPath(contents);
    SortByPathProperties(contents);
    var c := Candidates(contents);
    assert sorted == c + sorted[|c|..];
    assert multiset(sorted) == multiset(c) + multiset(sorted[|c|..]);
  }

  /** A content longer than 3000 characters keeps its first 3000 and gets a notice. */
  function Cut(content: string): (r: string)
    ensures |content| <= FileBudget ==> r == content
    ensures |content| > FileBudget ==> StartsWith(r, content[..FileBudget]) && EndsWith(r, TruncationNotice)
    ensures |r| <= FileBudget + |TruncationNotice|
  {
    if |content| > FileBudget then content[..FileBudget] + TruncationNotice else content
  }

  /** `file_path.split('.')[-1] if '.' in file_path else ''` */
  function Extension(path: string): string {
    if Contains(path, ".") then Last(SplitOn(path, ".")) else ""
  }

  /** The code-fence language for an extension. */
  function FenceLanguage(ext: string): string {
    if ext in ["py", "python"] then "python"
    else if ext in ["js", "javascript"] then "javascript"
    else if ext in ["ts", "typescript"] then "typescript"
    else if ext in ["java"] then "java"
    else if ext in ["c", "cpp", "h", "hpp"] then "cpp"
    else if ext in ["go"] then "go"
    else if ext in ["rs"] then "rust"
    else if ext in ["html"] then "html"
    else if ext in ["css"] then "css"
    else if ext in ["json"] then "json"
    else if ext in ["yaml", "yml"] then "yaml"
    else if ext in ["md", "markdown"] then "markdown"
    else if ext in ["sh", "bash"] then "bash"
    else ""
  }

  function Section(path: string, content: string): string {
    "### File: `" + path + "`\n\n```" + FenceLanguage(Extension(path)) + "\n" + content + "\n```\n"
  }

  function Sections(items: seq<Item>): (r: seq<string>)
    ensures |r| == |items|
  {
    if items == [] then [] else Sections(items[..|items| - 1]) + [Section(items[|items| - 1].0, items[|items| - 1].1)]
  }

  /** The number of content characters emitted. */
  function TotalLength(items: seq<Item>): nat {
    if items == [] then 0 else TotalLength(items[..|items| - 1]) + |items[|items| - 1].1|
  }

  /** The items with their contents cut to the per-file budget. */
  function CutAll(items: seq<Item>): (r: seq<Item>)
    ensures |r| == |items|
  {
    if items == [] then [] else CutAll(items[..|items| - 1]) + [(items[|items| - 1].0, Cut(items[|items| - 1].1))]
  }

  lemma {:induction false} CutAllAt(items: seq<Item>, k: nat)
    requires k < |items|
    ensures CutAll(items)[k] == (items[k].0, Cut(items[k].1))
  {
    if k < |items| - 1 {
      CutAllAt(items[..|items| - 1], k);
    }
  }

  lemma AppendItem(items: seq<Item>, x: Item)
    ensures Sections(items + [x]) == Sections(items) + [Section(x.0, x.1)]
    ensures TotalLength(items + [x]) == TotalLength(items) + |x.1|
  {
    assert (items + [x])[..|items|] == items;
  }

  /**
   * The budget rule: `shown` is a prefix of the candidates with their
   * contents cut, its total stays within the budget, and the block stops
   * early (`omitted`) only at a file whose cut content would overflow it.
   */
  predicate WithinBudget(c: seq<Item>, shown: seq<Item>, omitted: bool) {
    |shown| <= |c| && shown == CutAll(c[..|shown|]) &&
    TotalLength(shown) <= TotalBudget &&
    (omitted ==> 0 < |shown| < |c| && TotalLength(shown) + |Cut(c[|shown|].1)| > TotalBudget) &&
    (!omitted ==> |shown| == |c|)
  }

  /** The rendered block: one section per emitted file, then the omission notice if the block stopped early. */
  function Block(shown: seq<Item>, omitted: bool): string {
    Join(Sections(shown) + (if omitted then [OmissionNotice] else []), "\n")
  }

  /**
   * `format_modified_file_contents`. The ghost results say which files were
   * emitted (`shown`, with their cut contents) and whether the omission
   * notice ended the block.
   */
  method FormatModifiedFileContents(contents: Dict<string>) returns (r: string, ghost shown: seq<Item>, ghost omitted: bool)
    ensures contents == [] ==> r == NoContents && shown == [] && !omitted
    ensures contents != [] ==> WithinBudget(Candidates(contents), shown, omitted) && r == Block(shown, omitted)
  {
    shown, omitted := [], false;
    if contents == [] {
      return NoContents, shown, omitted;
    }
    var sortedFiles := Candidates(contents);
    var currentTotal := 0;
    var formattedSections: seq<string> := [];
    var i := 0;
    while i < |sortedFiles|
      invariant 0 <= i <= |sortedFiles|
      invariant |shown| == i
      invariant shown == CutAll(sortedFiles[..i])
      invariant currentTotal == TotalLength(shown) <= TotalBudget
      invariant formattedSections == Sections(shown)
    {
      var filePath := sortedFiles[i].0;
      var content := Cut(sortedFiles[i].1);
      if currentTotal + |content| > TotalBudget {
        if formattedSections != [] {
          formattedSections := formattedSections + [OmissionNotice];
          omitted := true;
          break;
        } else {
          // The first file is at most 3024 characters long, so the
          // further truncation for an oversized first file never runs.
          assert false;
        }
      }
      formattedSections := formattedSections + [Section(filePath, content)];
      AppendItem(shown, (filePath, content));
      assert sortedFiles[..i + 1][..i] == sortedFiles[..i];
      shown := shown + [(filePath, content)];
      currentTotal := currentTotal + |content|;
      i := i + 1;
    }
    assert formattedSections == Sections(shown) + (if omitted then [OmissionNotice] else []);
    r := Join(formattedSections, "\n");
    assert WithinBudget(sortedFiles, shown, omitted);
  }
}
