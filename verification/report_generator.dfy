/**
 * `ReportGenerator` (pipeline/report_generator.py): one analysis per
 * requested language, gathered into a per-language table, and the
 * multilingual report that joins the readable analyses with `---`
 * separators. The outcome of each analysis, the contents read back from
 * disk, the month directories found and the outcome of the final write
 * are inputs.
 */
module ReportGenerator {
  import opened Wrappers
  import opened Text
  import opened Dicts
  import opened OutputNaming
  import opened PrAnalyzer
  import opened LanguageMarkers
  import opened ReportSplit
  import Languages

  /** One value of `results["languages"]`; a key the source does not set is `None`. */
  datatype LanguageEntry = LanguageEntry(
    success: bool,
    languageName: string,
    analysisPath: Option<seq<string>>,
    diffPath: Option<seq<string>>,
    error: Option<string>)

  /** `if not languages: languages = self.languages` */
  function Requested(languages: seq<string>, configured: seq<string>): seq<string> {
    if languages == [] then configured else languages
  }

  /** The analysis of one language succeeded: it returned, and without an `error` key. */
  predicate Succeeded(outcome: Result<Analysis>) {
    outcome.Ok? && outcome.value.error.None?
  }

  /** Every analysis in `outcomes` succeeded. */
  predicate AllSucceeded(outcomes: seq<Result<Analysis>>)
    decreases |outcomes|
  {
    outcomes == [] || (AllSucceeded(outcomes[..|outcomes| - 1]) && Succeeded(outcomes[|outcomes| - 1]))
  }

  lemma {:induction false} AllSucceededIff(outcomes: seq<Result<Analysis>>)
    ensures AllSucceeded(outcomes) <==> forall i :: 0 <= i < |outcomes| ==> Succeeded(outcomes[i])
    decreases |outcomes|
  {
    if outcomes != [] {
      var n := |outcomes| - 1;
      AllSucceededIff(outcomes[..n]);
      assert forall i :: 0 <= i < n ==> outcomes[..n][i] == outcomes[i];
    }
  }

  /** The entry stored for `language`, from the returned result or from the exception raised. */
  function EntryFor(language: string, outcome: Result<Analysis>): (e: LanguageEntry)
    ensures e.success <==> Succeeded(outcome)
    ensures e.languageName == Languages.LanguageName(language)
    ensures e.success ==> e.error.None?
    ensures !e.success ==> e.error.Some?
    ensures outcome.Err? ==> e.analysisPath.None? && e.diffPath.None?
  {
    match outcome
    case Ok(a) => LanguageEntry(a.error.None?, Languages.LanguageName(language), a.analysisPath, a.diffPath, a.error)
    case Err(e) => LanguageEntry(false, Languages.LanguageName(language), None, None, Some(e.message))
  }

  /** `results["languages"]` after the loop over `langs`, starting from `acc`: a later duplicate of a language overwrites its entry. */
  function EntriesFrom(acc: Dict<LanguageEntry>, langs: seq<string>, outcomes: seq<Result<Analysis>>): Dict<LanguageEntry>
    requires |langs| == |outcomes|
    decreases |langs|
  {
    if langs == [] then acc
    else EntriesFrom(Put(acc, langs[0], EntryFor(langs[0], outcomes[0])), langs[1..], outcomes[1..])
  }

  function Entries(langs: seq<string>, outcomes: seq<Result<Analysis>>): Dict<LanguageEntry>
    requires |langs| == |outcomes|
  {
    EntriesFrom([], langs, outcomes)
  }

  /**
   * `generate_report`: `outcomes[i]` is what analysing the i-th requested
   * language returned or raised. Overall success holds exactly when every
   * language succeeded.
   */
  method GenerateReport(languages: seq<string>, configured: seq<string>, outcomes: seq<Result<Analysis>>)
    returns (entries: Dict<LanguageEntry>, success: bool)
    requires |outcomes| == |Requested(languages, configured)|
    ensures entries == Entries(Requested(languages, configured), outcomes)
    ensures success <==> forall i :: 0 <= i < |outcomes| ==> Succeeded(outcomes[i])
  {
    var langs := Requested(languages, configured);
    entries := [];
    success := true;
    var i := 0;
    while i < |langs|
      invariant 0 <= i <= |langs|
      invariant EntriesFrom(entries, langs[i..], outcomes[i..]) == Entries(langs, outcomes)
      invariant success == AllSucceeded(outcomes[..i])
    {
      EntriesFromStep(entries, langs, outcomes, i);
      AllSucceededStep(outcomes, i);
      entries := Put(entries, langs[i], EntryFor(langs[i], outcomes[i]));
      if !Succeeded(outcomes[i]) {
        success := false;
      }
      i := i + 1;
    }
    assert outcomes[..i] == outcomes;
    AllSucceededIff(outcomes);
  }

  /** One turn of the loop: the entry of the i-th language is put before the rest are visited. */
  lemma EntriesFromStep(acc: Dict<LanguageEntry>, langs: seq<string>, outcomes: seq<Result<Analysis>>, i: nat)
    requires |langs| == |outcomes| && i < |langs|
    ensures EntriesFrom(acc, langs[i..], outcomes[i..])
      == EntriesFrom(Put(acc, langs[i], EntryFor(langs[i], outcomes[i])), langs[i + 1..], outcomes[i + 1..])
  {
    assert langs[i..][1..] == langs[i + 1..];
    assert outcomes[i..][1..] == outcomes[i + 1..];
  }

  lemma AllSucceededStep(outcomes: seq<Result<Analysis>>, i: nat)
    requires i < |outcomes|
    ensures AllSucceeded(outcomes[..i + 1]) <==> AllSucceeded(outcomes[..i]) && Succeeded(outcomes[i])
  {
    assert outcomes[..i + 1][..i] == outcomes[..i];
  }

  /** The loop adds exactly the requested languages to the keys and keeps them distinct. */
  lemma {:induction false} EntriesFromKeys(acc: Dict<LanguageEntry>, langs: seq<string>, outcomes: seq<Result<Analysis>>)
    requires |langs| == |outcomes| && Distinct(Keys(acc))
    ensures forall l :: l in Keys(EntriesFrom(acc, langs, outcomes)) <==> l in Keys(acc) || l in langs
    ensures Distinct(Keys(EntriesFrom(acc, langs, outcomes)))
    decreases |langs|
  {
    if langs != [] {
      var next := Put(acc, langs[0], EntryFor(langs[0], outcomes[0]));
      PutDistinct(acc, langs[0], EntryFor(langs[0], outcomes[0]));
      EntriesFromKeys(next, langs[1..], outcomes[1..]);
      assert langs == [langs[0]] + langs[1..];
    }
  }

  /** Every requested language gets exactly one entry, and no other key appears. */
  lemma EntriesKeys(langs: seq<string>, outcomes: seq<Result<Analysis>>)
    requires |langs| == |outcomes|
    ensures forall l :: l in Keys(Entries(langs, outcomes)) <==> l in langs
    ensures Distinct(Keys(Entries(langs, outcomes)))
  {
    EntriesFromKeys([], langs, outcomes);
  }

  /** The loop leaves the entry of a language it does not visit alone. */
  lemma {:induction false} EntriesFromOther(acc: Dict<LanguageEntry>, langs: seq<string>, outcomes: seq<Result<Analysis>>, k: string)
    requires |langs| == |outcomes| && k !in langs
    ensures Get(EntriesFrom(acc, langs, outcomes), k) == Get(acc, k)
    decreases |langs|
  {
    if langs != [] {
      GetPut(acc, langs[0], EntryFor(langs[0], outcomes[0]), k);
      EntriesFromOther(Put(acc, langs[0], EntryFor(langs[0], outcomes[0])), langs[1..], outcomes[1..], k);
    }
  }

  lemma {:induction false} EntriesFromLast(acc: Dict<LanguageEntry>, langs: seq<string>, outcomes: seq<Result<Analysis>>, i: nat)
    requires |langs| == |outcomes| && i < |langs|
    requires langs[i] !in langs[i + 1..]
    ensures Get(EntriesFrom(acc, langs, outcomes), langs[i]) == Some(EntryFor(langs[i], outcomes[i]))
    decreases |langs|
  {
    var next := Put(acc, langs[0], EntryFor(langs[0], outcomes[0]));
    var tl, to := langs[1..], outcomes[1..];
    assert EntriesFrom(acc, langs, outcomes) == EntriesFrom(next, tl, to);
    if i == 0 {
      assert tl == langs[i + 1..];
      EntriesFromOther(next, tl, to, langs[0]);
      GetPut(acc, langs[0], EntryFor(langs[0], outcomes[0]), langs[0]);
    } else {
      assert tl[i - 1] == langs[i] && to[i - 1] == outcomes[i];
      assert tl[i..] == langs[i + 1..];
      EntriesFromLast(next, tl, to, i - 1);
    }
  }

  /** The entry of a language describes its last analysis in the requested order. */
  lemma EntriesLast(langs: seq<string>, outcomes: seq<Result<Analysis>>, i: nat)
    requires |langs| == |outcomes| && i < |langs|
    requires langs[i] !in langs[i + 1..]
    ensures Get(Entries(langs, outcomes), langs[i]) == Some(EntryFor(langs[i], outcomes[i]))
  {
    EntriesFromLast([], langs, outcomes, i);
  }

  // ---------------------------------------------------------------------------
  // The multilingual report
  // ---------------------------------------------------------------------------

  /** What follows every analysis in the combined report. */
  const Separator := "\n\n---\n\n"

  const NoReports := "No language reports available to combine"

  /** `results["multilingual"]` */
  datatype Multilingual = Saved(reportPath: seq<string>) | Failed(error: string)

  /** The entry of `language` reports success and has an `analysis_path`. */
  predicate Combinable(entries: Dict<LanguageEntry>, language: string) {
    var e := Get(entries, language);
    e.Some? && e.value.success && e.value.analysisPath.Some?
  }

  /**
   * The analyses that go into the combined report, in language order:
   * `contents[i]` is what reading the i-th language's analysis file gave
   * (`None` when the read raised).
   */
  function Readable(langs: seq<string>, entries: Dict<LanguageEntry>, contents: seq<Option<string>>): (rs: seq<string>)
    requires |contents| == |langs|
    ensures |rs| <= |langs|
    ensures forall s :: s in rs <==> exists i :: 0 <= i < |langs| && Combinable(entries, langs[i]) && contents[i] == Some(s)
    decreases |langs|
  {
    if langs == [] then []
    else
      var head := if Combinable(entries, langs[0]) && contents[0].Some? then [contents[0].value] else [];
      var rest := Readable(langs[1..], entries, contents[1..]);
      assert forall i :: 1 <= i < |langs| ==> langs[i] == langs[1..][i - 1] && contents[i] == contents[1..][i - 1];
      forall s | exists i :: 0 <= i < |langs| && Combinable(entries, langs[i]) && contents[i] == Some(s)
        ensures s in head + rest
      {
        var i :| 0 <= i < |langs| && Combinable(entries, langs[i]) && contents[i] == Some(s);
        if i > 0 {
          assert Combinable(entries, langs[1..][i - 1]) && contents[1..][i - 1] == Some(s);
        }
      }
      head + rest
  }

  /** The combined analyses keep language order: the selection works on each part of a split list separately. */
  lemma {:induction false} ReadableAppend(a: seq<string>, b: seq<string>, entries: Dict<LanguageEntry>, ca: seq<Option<string>>, cb: seq<Option<string>>)
    requires |ca| == |a| && |cb| == |b|
    ensures Readable(a + b, entries, ca + cb) == Readable(a, entries, ca) + Readable(b, entries, cb)
  {
    if a == [] {
      assert a + b == b && ca + cb == cb;
    } else {
      assert (a + b)[0] == a[0] && (a + b)[1..] == a[1..] + b;
      assert (ca + cb)[0] == ca[0] && (ca + cb)[1..] == ca[1..] + cb;
      ReadableAppend(a[1..], b, entries, ca[1..], cb);
      var head := if Combinable(entries, a[0]) && ca[0].Some? then [ca[0].value] else [];
      assert head + (Readable(a[1..], entries, ca[1..]) + Readable(b, entries, cb))
        == (head + Readable(a[1..], entries, ca[1..])) + Readable(b, entries, cb);
    }
  }

  /** One language contributes its analysis exactly when its entry is combinable and the file was read. */
  lemma ReadableSingle(lang: string, entries: Dict<LanguageEntry>, content: Option<string>)
    ensures Readable([lang], entries, [content]) == if Combinable(entries, lang) && content.Some? then [content.value] else []
  {
    assert [lang][1..] == [] && [content][1..] == [];
  }

  /** `multilingual_content`: each report followed by the separator. */
  function Pieces(rs: seq<string>): (ps: seq<string>)
    ensures |ps| == 2 * |rs|
  {
    if rs == [] then [] else [rs[0], Separator] + Pieces(rs[1..])
  }

  /** `"".join(parts)` */
  function Concat(parts: seq<string>): string {
    if parts == [] then "" else parts[0] + Concat(parts[1..])
  }

  /** The combined report. */
  function Joined(rs: seq<string>): string {
    Concat(Pieces(rs))
  }

  /** The combined report is the first report, the separator, and the rest combined. */
  lemma JoinedCons(rs: seq<string>)
    requires rs != []
    ensures Joined(rs) == rs[0] + Separator + Joined(rs[1..])
  {
    var ps := Pieces(rs);
    var rest := Pieces(rs[1..]);
    assert ps[0] == rs[0] && ps[1..] == [Separator] + rest;
    assert ps[1..][1..] == rest;
    assert Concat(ps[1..]) == Separator + Concat(rest);
    assert Concat(ps) == rs[0] + (Separator + Concat(rest));
  }

  lemma ReadableStep(langs: seq<string>, entries: Dict<LanguageEntry>, contents: seq<Option<string>>, i: nat)
    requires |contents| == |langs| && i < |langs|
    ensures Readable(langs[i..], entries, contents[i..]) ==
      (if Combinable(entries, langs[i]) && contents[i].Some? then [contents[i].value] else []) + Readable(langs[i + 1..], entries, contents[i + 1..])
  {
    assert langs[i..][1..] == langs[i + 1..];
    assert contents[i..][1..] == contents[i + 1..];
  }

  lemma PiecesCons(r: string, rs: seq<string>)
    ensures Pieces([r] + rs) == [r, Separator] + Pieces(rs)
  {
    assert ([r] + rs)[1..] == rs;
  }

  /** One iteration of the loop of `generate_multilingual_report` keeps the parts still to come in step. */
  lemma CombineStep(parts: seq<string>, langs: seq<string>, entries: Dict<LanguageEntry>, contents: seq<Option<string>>, i: nat)
    requires |contents| == |langs| && i < |langs|
    ensures var next := if Combinable(entries, langs[i]) && contents[i].Some? then parts + [contents[i].value, Separator] else parts;
      parts + Pieces(Readable(langs[i..], entries, contents[i..])) == next + Pieces(Readable(langs[i + 1..], entries, contents[i + 1..]))
  {
    ReadableStep(langs, entries, contents, i);
    var rest := Readable(langs[i + 1..], entries, contents[i + 1..]);
    if Combinable(entries, langs[i]) && contents[i].Some? {
      PiecesCons(contents[i].value, rest);
      assert parts + ([contents[i].value, Separator] + Pieces(rest)) == (parts + [contents[i].value, Separator]) + Pieces(rest);
    } else {
      assert [] + rest == rest;
    }
  }

  /**
   * `generate_multilingual_report`: the per-language reports, then the
   * combined report written to the multilingual path. `saveError` is the
   * exception the write raised, if any.
   */
  method GenerateMultilingualReport(
    languages: seq<string>, configured: seq<string>, outcomes: seq<Result<Analysis>>,
    contents: seq<Option<string>>, outputDir: seq<string>, repo: string, number: string,
    monthDirs: seq<string>, saveError: Option<string>)
    returns (entries: Dict<LanguageEntry>, success: bool, multilingual: Multilingual, report: string)
    requires |outcomes| == |Requested(languages, configured)|
    requires |contents| == |Requested(languages, configured)|
    ensures entries == Entries(Requested(languages, configured), outcomes)
    ensures success <==> forall i :: 0 <= i < |outcomes| ==> Succeeded(outcomes[i])
    ensures report == Joined(Readable(Requested(languages, configured), entries, contents))
    ensures Readable(Requested(languages, configured), entries, contents) == [] ==> multilingual == Failed(NoReports)
    ensures Readable(Requested(languages, configured), entries, contents) != [] && monthDirs == [] ==>
      multilingual == Failed("No month directories found for " + repo)
    ensures Readable(Requested(languages, configured), entries, contents) != [] && monthDirs != [] ==>
      multilingual == if saveError.Some? then Failed(saveError.value) else Saved(MultilingualPath(outputDir, repo, number, monthDirs).value)
  {
    var langs := Requested(languages, configured);
    entries, success := GenerateReport(languages, configured, outcomes);
    var parts: seq<string> := [];
    var i := 0;
    while i < |langs|
      invariant 0 <= i <= |langs|
      invariant parts + Pieces(Readable(langs[i..], entries, contents[i..])) == Pieces(Readable(langs, entries, contents))
    {
      var combinable := Combinable(entries, langs[i]) && contents[i].Some?;
      CombineStep(parts, langs, entries, contents, i);
      if combinable {
        parts := parts + [contents[i].value, Separator];
      }
      i := i + 1;
    }
    assert parts == Pieces(Readable(langs, entries, contents));
    report := Concat(parts);
    if parts == [] {
      multilingual := Failed(NoReports);
    } else {
      match MultilingualPath(outputDir, repo, number, monthDirs)
      case Err(e) => multilingual := Failed(e.message);
      case Ok(path) =>
        multilingual := if saveError.Some? then Failed(saveError.value) else Saved(path);
    }
  }

  // ---------------------------------------------------------------------------
  // Splitting the combined report
  // ---------------------------------------------------------------------------

  /**
   * `r` can be recognised as the report in language `code`: its first line
   * carries a marker of `code` and of no other expected language of the
   * registry, and its text holds no delimiter.
   */
  predicate Heads(r: string, code: string, languages: seq<string>) {
    && code in languages
    && IsMarkedLanguage(code)
    && !Contains(r, Delimiter)
    && AnyMarker(FirstLine(r), Markers(code))
    && forall l :: l in languages && l != code && IsMarkedLanguage(l) ==> !AnyMarker(FirstLine(r), Markers(l))
  }

  /** Each report stripped, stored under its code, in order. */
  function Zip(cs: seq<string>, rs: seq<string>): (d: Dict<string>)
    requires |cs| == |rs|
    ensures Keys(d) == cs
  {
    if rs == [] then [] else [(cs[0], Strip(rs[0]))] + Zip(cs[1..], rs[1..])
  }

  /** The pieces `split('---')` cuts the combined report into, the first preceded by `pre`. */
  function Sections(pre: string, rs: seq<string>): seq<string>
    decreases |rs|
  {
    if rs == [] then [pre] else [pre + rs[0] + "\n\n"] + Sections("\n\n", rs[1..])
  }

  lemma FirstLineBlank(s: string)
    ensures AllSpace(s) ==> FirstLine(s) == ""
  {
    if AllSpace(s) {
      assert Strip(s) == "";
      assert IndexOf("", "\n") == None;
    }
  }

  /** A recognisable report is not blank. */
  lemma HeadsNotBlank(r: string, code: string, languages: seq<string>)
    requires Heads(r, code, languages)
    ensures !AllSpace(r)
  {
    var m :| m in Markers(code) && Contains(FirstLine(r), m);
    MarkersNonEmpty(code);
    assert |FirstLine(r)| > 0;
    FirstLineBlank(r);
  }

  /** The expected language whose marker alone occurs is the one identified. */
  lemma {:induction false} FirstMarkedUnique(line: string, langs: seq<string>, code: string)
    requires code in langs && IsMarkedLanguage(code) && AnyMarker(line, Markers(code))
    requires forall l :: l in langs && l != code && IsMarkedLanguage(l) ==> !AnyMarker(line, Markers(l))
    ensures FirstMarked(line, langs) == code
    decreases |langs|
  {
    if langs[0] != code {
      assert code in langs[1..];
      FirstMarkedUnique(line, langs[1..], code);
    }
  }

  /** The first delimiter of `x + "---" + y` is the one after `x`, when `x` holds none and does not end in '-'. */
  lemma IndexAfter(x: string, y: string)
    requires !Contains(x, Delimiter) && (x == [] || x[|x| - 1] != '-')
    ensures IndexOf(x + Delimiter + y, Delimiter) == Some(|x|)
  {
    var s := x + Delimiter + y;
    assert s[|x|..][..3] == Delimiter;
    assert OccursAt(s, Delimiter, |x|);
    forall j | 0 <= j < |x|
      ensures !OccursAt(s, Delimiter, j)
    {
      if j + 3 <= |x| {
        assert s[j..][..3] == x[j..][..3];
        assert !OccursAt(x, Delimiter, j);
      } else {
        assert s[j..][|x| - 1 - j] == x[|x| - 1];
      }
    }
  }

  /** A report between the padding the separator leaves holds no delimiter. */
  lemma NoDelimiterPadded(pre: string, r: string)
    requires pre == "" || pre == "\n\n"
    requires !Contains(r, Delimiter)
    ensures !Contains(pre + r + "\n\n", Delimiter)
  {
    var t := pre + r + "\n\n";
    forall j | 0 <= j <= |t|
      ensures !OccursAt(t, Delimiter, j)
    {
      if j < |pre| {
        assert t[j] == '\n';
      } else if j + 3 <= |pre| + |r| {
        assert t[j..][..3] == r[j - |pre|..][..3];
        assert !OccursAt(r, Delimiter, j - |pre|);
      } else if j + 3 <= |t| {
        assert t[j + 2] == '\n';
      }
    }
  }

  /** The separator is a delimiter between blank lines. */
  lemma SeparatorAround(pre: string, a: string, b: string)
    ensures pre + (a + Separator + b) == (pre + a + "\n\n") + Delimiter + ("\n\n" + b)
  {
    assert Separator == "\n\n" + Delimiter + "\n\n";
    var l := pre + (a + Separator + b);
    var r := (pre + a + "\n\n") + Delimiter + ("\n\n" + b);
    assert |l| == |r|;
    forall i | 0 <= i < |l| ensures l[i] == r[i] {
      if i < |pre| + |a| + |Separator| {
      }
    }
  }

  /** `split('---')` of the combined report. */
  lemma {:induction false} SplitJoined(pre: string, rs: seq<string>)
    requires pre == "" || pre == "\n\n"
    requires forall i :: 0 <= i < |rs| ==> !Contains(rs[i], Delimiter)
    ensures SplitOn(pre + Joined(rs), Delimiter) == Sections(pre, rs)
    decreases |rs|
  {
    if rs == [] {
      assert pre + Joined(rs) == pre;
      PaddingUnsplit(pre);
    } else {
      SplitJoinedFirst(pre, rs);
      SplitJoined("\n\n", rs[1..]);
    }
  }

  /** The first delimiter of the combined report is the one after the first report. */
  lemma SplitJoinedFirst(pre: string, rs: seq<string>)
    requires pre == "" || pre == "\n\n"
    requires rs != [] && !Contains(rs[0], Delimiter)
    ensures SplitOn(pre + Joined(rs), Delimiter) == [pre + rs[0] + "\n\n"] + SplitOn("\n\n" + Joined(rs[1..]), Delimiter)
  {
    var x := pre + rs[0] + "\n\n";
    var y := "\n\n" + Joined(rs[1..]);
    JoinedCons(rs);
    SeparatorAround(pre, rs[0], Joined(rs[1..]));
    NoDelimiterPadded(pre, rs[0]);
    IndexAfter(x, y);
    SplitAtDelimiter(x, y);
  }

  /** A text whose first delimiter follows `x` splits into `x` and the pieces of the rest. */
  lemma SplitAtDelimiter(x: string, y: string)
    requires IndexOf(x + Delimiter + y, Delimiter) == Some(|x|)
    ensures SplitOn(x + Delimiter + y, Delimiter) == [x] + SplitOn(y, Delimiter)
  {
    var s := x + Delimiter + y;
    assert s[..|x|] == x;
    assert s[|x| + 3..] == y;
  }

  /** The padding alone holds no delimiter. */
  lemma PaddingUnsplit(pre: string)
    requires pre == "" || pre == "\n\n"
    ensures SplitOn(pre, Delimiter) == [pre]
  {
    forall j | 0 <= j <= |pre|
      ensures !OccursAt(pre, Delimiter, j)
    {
      if j < |pre| {
        assert pre[j] == '\n';
      }
    }
    assert IndexOf(pre, Delimiter) == None;
  }

  /** A piece of the combined report is identified by the code its report heads. */
  lemma IdentifiedPiece(pre: string, r: string, code: string, languages: seq<string>)
    requires pre == "" || pre == "\n\n"
    requires Heads(r, code, languages)
    ensures Identified(pre + r + "\n\n", languages) == code
  {
    PaddedFirstLine(pre, r);
    FirstMarkedUnique(FirstLine(r), languages, code);
  }

  /** Padding a report with blank lines leaves its first line as it was. */
  lemma PaddedFirstLine(pre: string, r: string)
    requires pre == "" || pre == "\n\n"
    ensures FirstLine(pre + r + "\n\n") == FirstLine(r)
  {
    StripPadded(pre, r, "\n\n");
  }

  /** What a report that heads its code gives once padded into a piece of the combined report. */
  lemma HeadedPiece(pre: string, r: string, code: string, languages: seq<string>)
    requires pre == "" || pre == "\n\n"
    requires Heads(r, code, languages)
    ensures Strip(pre + r + "\n\n") == Strip(r) && !AllSpace(pre + r + "\n\n")
    ensures Identified(pre + r + "\n\n", languages) == code
    ensures code != "" && code in languages
  {
    HeadsNotBlank(r, code, languages);
    PaddedPiece(pre, r);
    IdentifiedPiece(pre, r, code, languages);
  }

  /** The padding around a report that is not blank changes neither its stripped text nor its blankness. */
  lemma PaddedPiece(pre: string, r: string)
    requires pre == "" || pre == "\n\n"
    requires !AllSpace(r)
    ensures Strip(pre + r + "\n\n") == Strip(r) && !AllSpace(pre + r + "\n\n")
  {
    StripPadded(pre, r, "\n\n");
  }

  /** One piece of the combined report is stored, stripped, under its code. */
  lemma SectionStep(acc: Dict<string>, piece: string, r: string, code: string, languages: seq<string>)
    requires Strip(piece) == Strip(r) && !AllSpace(piece)
    requires Identified(piece, languages) == code && code != "" && code in languages
    requires code !in Keys(acc)
    ensures SplitStep(acc, piece, languages) == acc + [(code, Strip(r))]
  {
    assert KeyFor(code, languages) == code;
    PutNew(acc, code, Strip(r));
  }

  /** Storing the first code keeps the others fresh. */
  lemma FreshTail(acc: Dict<string>, cs: seq<string>, v: string)
    requires cs != [] && Distinct(cs)
    requires forall i :: 0 <= i < |cs| ==> cs[i] !in Keys(acc)
    ensures Distinct(cs[1..])
    ensures forall i :: 0 <= i < |cs| - 1 ==> cs[1..][i] !in Keys(acc + [(cs[0], v)])
  {
    var next := acc + [(cs[0], v)];
    assert Keys(next) == Keys(acc) + [cs[0]];
    forall i | 0 <= i < |cs| - 1
      ensures cs[1..][i] !in Keys(next)
    {
      assert cs[1..][i] == cs[i + 1] && cs[i + 1] != cs[0];
    }
  }

  lemma ZipCons(acc: Dict<string>, cs: seq<string>, rs: seq<string>)
    requires |cs| == |rs| && rs != []
    ensures acc + Zip(cs, rs) == (acc + [(cs[0], Strip(rs[0]))]) + Zip(cs[1..], rs[1..])
  {
  }

  /** Each of `rs` heads the code at the same position of `cs`. */
  predicate AllHead(rs: seq<string>, cs: seq<string>, languages: seq<string>)
    requires |rs| == |cs|
    decreases |rs|
  {
    rs == [] || (Heads(rs[0], cs[0], languages) && AllHead(rs[1..], cs[1..], languages))
  }

  lemma {:induction false} AllHeadFrom(rs: seq<string>, cs: seq<string>, languages: seq<string>)
    requires |rs| == |cs|
    requires forall i :: 0 <= i < |rs| ==> Heads(rs[i], cs[i], languages)
    ensures AllHead(rs, cs, languages)
    decreases |rs|
  {
    if rs != [] {
      forall i | 0 <= i < |rs| - 1
        ensures Heads(rs[1..][i], cs[1..][i], languages)
      {
        assert rs[1..][i] == rs[i + 1] && cs[1..][i] == cs[i + 1];
      }
      AllHeadFrom(rs[1..], cs[1..], languages);
    }
  }

  lemma SplitFromCons(acc: Dict<string>, section: string, rest: seq<string>, languages: seq<string>)
    ensures SplitFrom(acc, [section] + rest, languages) == SplitFrom(SplitStep(acc, section, languages), rest, languages)
  {
    assert ([section] + rest)[1..] == rest;
  }

  /** The first piece of the combined report is stored under its code before the rest is split. */
  lemma SplitFirstSection(acc: Dict<string>, pre: string, r: string, code: string, rest: seq<string>, languages: seq<string>)
    requires pre == "" || pre == "\n\n"
    requires Heads(r, code, languages) && code !in Keys(acc)
    ensures SplitFrom(acc, [pre + r + "\n\n"] + rest, languages) == SplitFrom(acc + [(code, Strip(r))], rest, languages)
  {
    HeadedPiece(pre, r, code, languages);
    SectionStep(acc, pre + r + "\n\n", r, code, languages);
    SplitFromCons(acc, pre + r + "\n\n", rest, languages);
  }

  /** The loop of the splitter over the pieces of the combined report stores each report under its code. */
  lemma {:induction false} SplitSections(acc: Dict<string>, pre: string, rs: seq<string>, cs: seq<string>, languages: seq<string>)
    requires pre == "" || pre == "\n\n"
    requires |rs| == |cs| && Distinct(cs) && AllHead(rs, cs, languages)
    requires forall i :: 0 <= i < |cs| ==> cs[i] !in Keys(acc)
    ensures SplitFrom(acc, Sections(pre, rs), languages) == acc + Zip(cs, rs)
    decreases |rs|
  {
    if rs == [] {
      assert AllSpace(pre);
      SplitFromCons(acc, pre, [], languages);
    } else {
      var next := acc + [(cs[0], Strip(rs[0]))];
      SplitFirstSection(acc, pre, rs[0], cs[0], Sections("\n\n", rs[1..]), languages);
      FreshTail(acc, cs, Strip(rs[0]));
      SplitSections(next, "\n\n", rs[1..], cs[1..], languages);
      ZipCons(acc, cs, rs);
    }
  }

  /**
   * The splitter undoes the joiner: a combined report of reports each
   * recognisable as a distinct expected language splits back into each
   * report, stripped, under its own code, in order.
   */
  lemma SplitJoinRoundTrip(rs: seq<string>, cs: seq<string>, languages: seq<string>)
    requires |rs| == |cs| && Distinct(cs)
    requires forall i :: 0 <= i < |rs| ==> Heads(rs[i], cs[i], languages)
    ensures Split(Joined(rs), languages) == Zip(cs, rs)
  {
    SplitJoined("", rs);
    assert "" + Joined(rs) == Joined(rs);
    AllHeadFrom(rs, cs, languages);
    SplitSections([], "", rs, cs, languages);
    assert [] + Zip(cs, rs) == Zip(cs, rs);
    if rs == [] {
      assert Joined(rs) == "";
    }
  }
}
