/**
 * The language registry shared by the analysis scripts: the heading
 * markers that identify each language's section of a report, and the
 * display names used in the language instruction.
 */
module LanguageMarkers {
  /** The keys of the registry, in its declaration order. */
  const Codes: seq<string> := ["en", "zh-cn", "ja", "ko", "fr", "de", "es"]

  predicate IsMarkedLanguage(code: string) {
    code in Codes
  }

  /** `LANGUAGE_MARKERS[code]`; empty for a code outside the registry. */
  function Markers(code: string): seq<string> {
    if code == "en" then ["# English Version", "# English"]
    else if code == "zh-cn" then ["# 中文版本", "# Chinese Version", "# 中文版本 (Chinese Version)", "# Chinese"]
    else if code == "ja" then ["# 日本語版", "# Japanese Version", "# 日本語版 (Japanese Version)", "# Japanese"]
    else if code == "ko" then ["# 한국어 버전", "# Korean Version", "# 한국어 버전 (Korean Version)", "# Korean"]
    else if code == "fr" then ["# Version Française", "# French Version", "# Version Française (French Version)", "# French", "# Français"]
    else if code == "de" then ["# Deutsche Version", "# German Version", "# Deutsche Version (German Version)", "# German", "# Deutsch"]
    else if code == "es" then ["# Versión en Español", "# Spanish Version", "# Versión en Español (Spanish Version)", "# Spanish", "# Español"]
    else []
  }

  /** `LANGUAGE_NAMES.get(code, code)` */
  function DisplayName(code: string): string {
    if code == "en" then "English"
    else if code == "zh-cn" then "中文 (Chinese)"
    else if code == "ja" then "日本語 (Japanese)"
    else if code == "ko" then "한국어 (Korean)"
    else if code == "fr" then "Français (French)"
    else if code == "de" then "Deutsch (German)"
    else if code == "es" then "Español (Spanish)"
    else code
  }

  /** Every registered language has markers, and only registered languages do. */
  lemma MarkersExactlyForRegistry(code: string)
    ensures Markers(code) != [] <==> IsMarkedLanguage(code)
  {
  }

  /** No marker is empty, so an empty line holds none. */
  lemma MarkersNonEmpty(code: string)
    ensures forall m :: m in Markers(code) ==> m != []
  {
  }
}
