/**
 * `split_multilingual_report` (scripts/analyze_pr.py): a report holding
 * several language versions separated by `---` is cut into one text per
 * language code. Each section is recognised by the heading markers of the
 * language registry in its first line; sections in a language that is not
 * expected, and sections that cannot be recognised, fall back to the first
 * expected language.
 *
 * `identified_lang` is a string here, the empty string standing for `None`
 * (both are falsy, and an empty code is falsy as well).
 */
module ReportSplit {
  import opened Wrappers
  import opened Text
  import opened Dicts
  import opened LanguageMarkers

  const Delimiter := "---"

  /** `any(marker in line for marker in markers)` */
  predicate AnyMarker(line: string, markers: seq<string>) {
    exists m :: m in markers && Contains(line, m)
  }

  /** `section.strip().split('\n')[0].strip()` */
  function FirstLine(section: string): string {
    Strip(SplitOn(Strip(section), "\n")[0])
  }

  /** The first of `langs` that is in the registry and whose markers occur in `line`; "" when there is none. */
  function FirstMarked(line: string, langs: seq<string>): (r: string)
    ensures r != "" ==> r in langs && IsMarkedLanguage(r) && AnyMarker(line, Markers(r))
    ensures r == "" ==> forall l :: l in langs && IsMarkedLanguage(l) ==> !AnyMarker(line, Markers(l))
  {
    if langs == [] then ""
    else if IsMarkedLanguage(langs[0]) && AnyMarker(line, Markers(langs[0])) then langs[0]
    else FirstMarked(line, langs[1..])
  }

  /** The first of `langs` occurring in `text`; "" when none does (or when the first that does is ""). */
  function FirstContained(text: string, langs: seq<string>): (r: string)
    ensures r != "" ==> r in langs && Contains(text, r)
  {
    if langs == [] then ""
    else if Contains(text, langs[0]) then langs[0]
    else FirstContained(text, langs[1..])
  }

  /**
   * The language a section is identified as, before the remapping: a marker
   * of an expected language, else a marker of any registered language, else
   * an expected code occurring in the lower-cased first line, else the first
   * expected language. Only the registry step can give a code outside
   * `languages`.
   */
  function Identified(section: string, languages: seq<string>): (r: string)
    ensures r != "" && r !in languages ==> IsMarkedLanguage(r)
    ensures languages != [] && languages[0] != "" ==> r != ""
  {
    var line := FirstLine(section);
    var expected := FirstMarked(line, languages);
    if expected != "" then expected
    else
      var registered := FirstMarked(line, Codes);
      if registered != "" then registered
      else
        var guessed := FirstContained(Lower(line), languages);
        if guessed != "" then guessed
        else if languages != [] then languages[0]
        else ""
  }

  /** The key a section is stored under: a code outside `languages` is mapped to the first expected language. */
  function KeyFor(id: string, languages: seq<string>): (k: string)
    ensures languages != [] ==> k in languages
    ensures languages == [] ==> k == id
  {
    if id !in languages && languages != [] then languages[0] else id
  }

  /** One iteration of the loop over the sections. */
  function SplitStep(acc: Dict<string>, section: string, languages: seq<string>): Dict<string> {
    if AllSpace(section) then acc
    else
      var id := Identified(section, languages);
      if id == "" then acc else Put(acc, KeyFor(id, languages), Strip(section))
  }

  /** The loop over `sections`, starting from `acc`. */
  function SplitFrom(acc: Dict<string>, sections: seq<string>, languages: seq<string>): Dict<string>
    decreases |sections|
  {
    if sections == [] then acc else SplitFrom(SplitStep(acc, sections[0], languages), sections[1..], languages)
  }

  /** The key used for a report in which no section was stored. */
  function FallbackKey(languages: seq<string>): string {
    if languages != [] then languages[0] else "en"
  }

  /** The result of `split_multilingual_report(report, languages)`. */
  function Split(report: string, languages: seq<string>): Dict<string> {
    var r := SplitFrom([], SplitOn(report, Delimiter), languages);
    if r == [] && !AllSpace(report) then [(FallbackKey(languages), Strip(report))] else r
  }

  /** `split_multilingual_report`, with the identification written as the source reassigns `identified_lang`. */
  method SplitMultilingualReport(report: string, languages: seq<string>) returns (result: Dict<string>)
    ensures result == Split(report, languages)
  {
    result := [];
    var sections := SplitOn(report, Delimiter);
    var i := 0;
    while i < |sections|
      invariant 0 <= i <= |sections|
      invariant SplitFrom(result, sections[i..], languages) == SplitFrom([], sections, languages)
    {
      var section := sections[i];
      assert sections[i..] == [section] + sections[i + 1..];
      var stripped := Strip(section);
      if stripped != [] {
        var firstLine := Strip(SplitOn(stripped, "\n")[0]);
        var identifiedLang := FirstMarked(firstLine, languages);
        if identifiedLang == "" {
          identifiedLang := FirstMarked(firstLine, Codes);
        }
        if identifiedLang == "" {
          identifiedLang := FirstContained(Lower(firstLine), languages);
          if identifiedLang == "" && languages != [] {
            identifiedLang := languages[0];
          }
        }
        assert identifiedLang == Identified(section, languages);
        if identifiedLang != "" {
          if identifiedLang !in languages && languages != [] {
            identifiedLang := languages[0];
          }
          result := Put(result, identifiedLang, stripped);
        }
      }
      i := i + 1;
    }
    if result == [] && Strip(report) != [] {
      result := [(FallbackKey(languages), Strip(report))];
    }
  }

  // ---------------------------------------------------------------------------
  // Keys
  // ---------------------------------------------------------------------------

  /** A key the split may produce: an expected language, or a registered one when none is expected. */
  predicate KeyAllowed(k: string, languages: seq<string>) {
    if languages != [] then k in languages else IsMarkedLanguage(k)
  }

  lemma {:induction false} SplitFromKeys(acc: Dict<string>, sections: seq<string>, languages: seq<string>)
    requires forall k :: k in Keys(acc) ==> KeyAllowed(k, languages)
    ensures forall k :: k in Keys(SplitFrom(acc, sections, languages)) ==> KeyAllowed(k, languages)
    decreases |sections|
  {
    if sections != [] {
      SplitFromKeys(SplitStep(acc, sections[0], languages), sections[1..], languages);
    }
  }

  /**
   * With expected languages, every key is one of them; without, every key
   * is a registered language (the whole-report fallback uses "en").
   */
  lemma SplitKeys(report: string, languages: seq<string>)
    ensures languages != [] ==> forall k :: k in Keys(Split(report, languages)) ==> k in languages
    ensures languages == [] ==> forall k :: k in Keys(Split(report, languages)) ==> IsMarkedLanguage(k)
  {
    SplitFromKeys([], SplitOn(report, Delimiter), languages);
  }

  // ---------------------------------------------------------------------------
  // Values
  // ---------------------------------------------------------------------------

  /** A stored text: a non-blank stripped section. */
  predicate Stripped(v: string) {
    v != [] && !IsSpace(v[0]) && !IsSpace(v[|v| - 1])
  }

  lemma {:induction false} SplitFromValues(acc: Dict<string>, sections: seq<string>, languages: seq<string>)
    requires forall e :: e in acc ==> Stripped(e.1) && !Contains(e.1, Delimiter)
    requires forall s :: s in sections ==> !Contains(s, Delimiter)
    ensures forall e :: e in SplitFrom(acc, sections, languages) ==> Stripped(e.1) && !Contains(e.1, Delimiter)
    decreases |sections|
  {
    if sections != [] {
      var s := sections[0];
      if !AllSpace(s) && Identified(s, languages) != "" {
        PutEntries(acc, KeyFor(Identified(s, languages), languages), Strip(s));
        if Contains(Strip(s), Delimiter) {
          StripContains(s, Delimiter);
        }
      }
      SplitFromValues(SplitStep(acc, s, languages), sections[1..], languages);
    }
  }

  /** With expected languages (the first not empty), a non-blank section is always stored, so the result is never empty. */
  lemma {:induction false} SplitFromStores(acc: Dict<string>, sections: seq<string>, languages: seq<string>)
    requires languages != [] && languages[0] != ""
    requires acc != [] || exists s :: s in sections && !AllSpace(s)
    ensures SplitFrom(acc, sections, languages) != []
    decreases |sections|
  {
    if sections != [] {
      var next := SplitStep(acc, sections[0], languages);
      assert next != [] || exists s :: s in sections[1..] && !AllSpace(s) by {
        if !AllSpace(sections[0]) {
          var k := KeyFor(Identified(sections[0], languages), languages);
          assert k in Keys(next);
        } else if acc != [] {
          assert Keys(next) == Keys(acc);
        } else {
          var s :| s in sections && !AllSpace(s);
          assert s != sections[0];
          assert s in sections[1..];
        }
      }
      SplitFromStores(next, sections[1..], languages);
    }
  }

  /**
   * Every stored text is a non-blank section without its surrounding
   * whitespace. With expected languages and at least one non-blank section
   * between the delimiters, no stored text contains the delimiter; only a
   * report made of delimiters and whitespace reaches the whole-report
   * fallback, which keeps its delimiters.
   */
  lemma SplitValues(report: string, languages: seq<string>)
    ensures forall e :: e in Split(report, languages) ==> Stripped(e.1)
    ensures languages != [] && languages[0] != "" && (exists s :: s in SplitOn(report, Delimiter) && !AllSpace(s)) ==>
      forall e :: e in Split(report, languages) ==> !Contains(e.1, Delimiter)
  {
    var sections := SplitOn(report, Delimiter);
    SplitOnPiecesNoSep(report, Delimiter);
    SplitFromValues([], sections, languages);
    if languages != [] && languages[0] != "" && exists s :: s in sections && !AllSpace(s) {
      SplitFromStores([], sections, languages);
    }
  }

  /** A report of whitespace only gives an empty result. */
  lemma WhitespaceOnly(report: string, languages: seq<string>)
    requires AllSpace(report)
    ensures Split(report, languages) == []
  {
    assert forall j :: 0 <= j < |report| ==> report[j] != Delimiter[0];
    assert !Contains(report, Delimiter);
    IndexOfContains(report, Delimiter);
    assert SplitOn(report, Delimiter) == [report];
    assert SplitStep([], report, languages) == [];
    assert SplitFrom([], [report], languages) == SplitFrom([], [], languages);
  }

  /**
   * Without expected languages, a section with no registered marker in its
   * first line is dropped; when no section is stored, the stripped report
   * is stored under "en".
   */
  lemma {:induction false} UnmarkedDropped(acc: Dict<string>, sections: seq<string>)
    requires forall s :: s in sections ==> FirstMarked(FirstLine(s), Codes) == ""
    ensures SplitFrom(acc, sections, []) == acc
    decreases |sections|
  {
    if sections != [] {
      UnmarkedDropped(acc, sections[1..]);
    }
  }

  lemma NoLanguagesFallback(report: string)
    requires forall s :: s in SplitOn(report, Delimiter) ==> FirstMarked(FirstLine(s), Codes) == ""
    requires !AllSpace(report)
    ensures Split(report, []) == [("en", Strip(report))]
  {
    UnmarkedDropped([], SplitOn(report, Delimiter));
  }

  // ---------------------------------------------------------------------------
  // Overwriting
  // ---------------------------------------------------------------------------

  lemma {:induction false} SplitFromSnoc(acc: Dict<string>, sections: seq<string>, s: string, languages: seq<string>)
    ensures SplitFrom(acc, sections + [s], languages) == SplitStep(SplitFrom(acc, sections, languages), s, languages)
    decreases |sections|
  {
    if sections == [] {
      assert sections + [s] == [s];
    } else {
      assert (sections + [s])[1..] == sections[1..] + [s];
      SplitFromSnoc(SplitStep(acc, sections[0], languages), sections[1..], s, languages);
    }
  }

  /** A later section identified as some language replaces whatever an earlier section stored under that key. */
  lemma LaterSectionWins(sections: seq<string>, s: string, languages: seq<string>)
    requires !AllSpace(s) && Identified(s, languages) != ""
    ensures Get(SplitFrom([], sections + [s], languages), KeyFor(Identified(s, languages), languages)) == Some(Strip(s))
  {
    SplitFromSnoc([], sections, s, languages);
    var k := KeyFor(Identified(s, languages), languages);
    GetPut(SplitFrom([], sections, languages), k, Strip(s), k);
  }
}
