/**
 * `format_code_references` (pipeline/analyze_pr.py, and the same code in
 * scripts/analyze_pr.py): a line scanner over a unified diff that cuts it
 * into (file, hunk header, changed lines) snippets and renders the first
 * three.
 */
module CodeReferences {
  import opened Text
  import opened Sorting

  /** One collected snippet; its `code` is its lines joined by newlines. */
  datatype Snippet = Snippet(file: string, header: string, lines: seq<string>)

  /**
   * The scanner's variables: the current file and hunk header (the empty
   * string standing for `None`, which is falsy just like ""), the lines of
   * the current hunk, and the snippets finished so far.
   */
  datatype Scan = Scan(file: string, header: string, section: seq<string>, snippets: seq<Snippet>)

  const Start := Scan("", "", [], [])

  const NoDiff := "No code diff available."
  const NoSnippets := "No significant code changes identified."

  predicate IsChangeLine(line: string) {
    StartsWith(line, "+") || StartsWith(line, "-")
  }

  /** "Save previous section if exists": only a truthy file and a non-empty section are saved, and only then is the section cleared. */
  function Flush(st: Scan): Scan {
    if st.file != "" && st.section != [] then
      Scan(st.file, st.header, [], st.snippets + [Snippet(st.file, st.header, st.section)])
    else st
  }

  /** `parts[-1][2:]`: the last word without its `b/` prefix. */
  function DropTwo(w: string): string {
    if |w| >= 2 then w[2..] else ""
  }

  /** One iteration of the scanner loop. */
  function Step(st: Scan, line: string): Scan {
    if StartsWith(line, "diff --git") then
      var st1 := Flush(st);
      var parts := Words(line);
      if |parts| >= 3 then st1.(file := DropTwo(parts[|parts| - 1])) else st1
    else if StartsWith(line, "@@") then
      Flush(st).(header := line)
    else if st.file != "" && st.header != "" && IsChangeLine(line) then
      st.(section := st.section + [line])
    else st
  }

  /** The scanner state after the lines `lines`. */
  function ScanAll(lines: seq<string>): Scan {
    if lines == [] then Start else Step(ScanAll(lines[..|lines| - 1]), lines[|lines| - 1])
  }

  /** The snippets of a diff: the scan of its lines and the final save. */
  function Snippets(diff: string): seq<Snippet> {
    Flush(ScanAll(SplitOn(diff, "\n"))).snippets
  }

  /** A snippet as the scanner can produce it: a named file, a hunk header and a non-empty run of changed lines. */
  predicate GoodSnippet(s: Snippet) {
    s.file != "" && StartsWith(s.header, "@@") && s.lines != [] &&
    forall k :: 0 <= k < |s.lines| ==> IsChangeLine(s.lines[k])
  }

  predicate GoodScan(st: Scan) {
    (st.header == "" || StartsWith(st.header, "@@")) &&
    (st.section != [] ==> st.header != "") &&
    (forall k :: 0 <= k < |st.section| ==> IsChangeLine(st.section[k])) &&
    (forall k :: 0 <= k < |st.snippets| ==> GoodSnippet(st.snippets[k]))
  }

  lemma FlushGood(st: Scan)
    requires GoodScan(st)
    ensures GoodScan(Flush(st))
    ensures Flush(st).header == st.header
  {
  }

  lemma StepGood(st: Scan, line: string)
    requires GoodScan(st)
    ensures GoodScan(Step(st, line))
  {
    FlushGood(st);
  }

  lemma {:induction false} ScanAllGood(lines: seq<string>)
    ensures GoodScan(ScanAll(lines))
  {
    if lines != [] {
      ScanAllGood(lines[..|lines| - 1]);
      StepGood(ScanAll(lines[..|lines| - 1]), lines[|lines| - 1]);
    }
  }

  /**
   * Every snippet names a file and a hunk header, and its code is a
   * non-empty run of lines each starting with '+' or '-'.
   */
  lemma SnippetsGood(diff: string)
    ensures forall k :: 0 <= k < |Snippets(diff)| ==> GoodSnippet(Snippets(diff)[k])
  {
    ScanAllGood(SplitOn(diff, "\n"));
    FlushGood(ScanAll(SplitOn(diff, "\n")));
  }

  /** No line before the first `@@` line is collected: until then the header is unset and nothing is gathered. */
  lemma {:induction false} NothingBeforeFirstHunk(lines: seq<string>)
    requires forall k :: 0 <= k < |lines| ==> !StartsWith(lines[k], "@@")
    ensures ScanAll(lines).header == "" && ScanAll(lines).section == [] && ScanAll(lines).snippets == []
  {
    if lines != [] {
      NothingBeforeFirstHunk(lines[..|lines| - 1]);
    }
  }

  /**
   * A `diff --git` line does not reset the hunk header: once a file and a
   * header are set, the `--- a/...` line that follows the next file's
   * `diff --git` line is collected under the new file and the old header.
   */
  lemma HeaderSurvivesNextFile(st: Scan, gitLine: string, oldPath: string)
    requires StartsWith(gitLine, "diff --git") && st.header != ""
    ensures Step(st, gitLine).header == st.header
    ensures Step(st, gitLine).file != "" ==>
      Step(Step(st, gitLine), "--- a/" + oldPath).section == Step(st, gitLine).section + ["--- a/" + oldPath]
  {
    var line := "--- a/" + oldPath;
    assert line[0] == '-';
    assert !StartsWith(line, "diff --git") && !StartsWith(line, "@@") && IsChangeLine(line);
  }

  function RenderSnippet(i: nat, s: Snippet): string {
    "**Code Snippet " + NatToString(i + 1) + "** - `" + s.file + "` " + s.header + ":\n```\n" + Join(s.lines, "\n") + "\n```"
  }

  /** The rendered snippets, numbered from 1. */
  function Rendered(snippets: seq<Snippet>): (r: seq<string>)
    ensures |r| == |snippets|
  {
    if snippets == [] then []
    else Rendered(snippets[..|snippets| - 1]) + [RenderSnippet(|snippets| - 1, snippets[|snippets| - 1])]
  }

  lemma {:induction false} RenderedAt(snippets: seq<Snippet>, k: nat)
    requires k < |snippets|
    ensures Rendered(snippets)[k] == RenderSnippet(k, snippets[k])
  {
    if k < |snippets| - 1 {
      RenderedAt(snippets[..|snippets| - 1], k);
    }
  }

  /** The snippet scan, as the loop of `format_code_references` runs it. */
  method CollectSnippets(diff: string) returns (snippets: seq<Snippet>)
    ensures snippets == Snippets(diff)
    ensures forall k :: 0 <= k < |snippets| ==> GoodSnippet(snippets[k])
  {
    var lines := SplitOn(diff, "\n");
    snippets := [];
    var currentFile := "";
    var currentSection := [];
    var sectionHeader := "";
    var i := 0;
    while i < |lines|
      invariant 0 <= i <= |lines|
      invariant Scan(currentFile, sectionHeader, currentSection, snippets) == ScanAll(lines[..i])
    {
      var line := lines[i];
      assert lines[..i + 1][..i] == lines[..i];
      if StartsWith(line, "diff --git") {
        if currentFile != "" && currentSection != [] {
          snippets := snippets + [Snippet(currentFile, sectionHeader, currentSection)];
          currentSection := [];
        }
        var parts := Words(line);
        if |parts| >= 3 {
          currentFile := DropTwo(parts[|parts| - 1]);
        }
      } else if StartsWith(line, "@@") {
        if currentFile != "" && currentSection != [] {
          snippets := snippets + [Snippet(currentFile, sectionHeader, currentSection)];
          currentSection := [];
        }
        sectionHeader := line;
      } else if currentFile != "" && sectionHeader != "" {
        if IsChangeLine(line) {
          currentSection := currentSection + [line];
        }
      }
      i := i + 1;
    }
    assert lines[..|lines|] == lines;
    if currentFile != "" && currentSection != [] {
      snippets := snippets + [Snippet(currentFile, sectionHeader, currentSection)];
    }
    SnippetsGood(diff);
  }

  /**
   * `format_code_references`: at most the first three snippets, numbered
   * from 1 and separated by blank lines, or a fallback sentence.
   */
  method FormatCodeReferences(diff: string) returns (r: string)
    ensures diff == "" ==> r == NoDiff
    ensures diff != "" && Snippets(diff) == [] ==> r == NoSnippets
    ensures diff != "" && Snippets(diff) != [] ==>
      1 <= |Take(Snippets(diff), 3)| <= 3 && r == Join(Rendered(Take(Snippets(diff), 3)), "\n\n")
  {
    if diff == "" {
      return NoDiff;
    }
    var snippets := CollectSnippets(diff);
    var top := Take(snippets, 3);
    var formatted := [];
    var i := 0;
    while i < |top|
      invariant 0 <= i <= |top|
      invariant formatted == Rendered(top[..i])
    {
      assert top[..i + 1][..i] == top[..i];
      formatted := formatted + [RenderSnippet(i, top[i])];
      i := i + 1;
    }
    assert top[..|top|] == top;
    if formatted == [] {
      return NoSnippets;
    }
    r := Join(formatted, "\n\n");
  }
}
