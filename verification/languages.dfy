/**
 * pipeline/utils/languages.py: the map from language codes to language
 * names used by the newer pipeline, and the two lookups on it. Its codes
 * differ from the registry of the analysis scripts: Japanese is "jp" here.
 */
module Languages {
  /** The keys of `LANGUAGE_MAP`, in its declaration order (`SUPPORTED_LANGUAGES`). */
  const SupportedLanguages: seq<string> := ["en", "zh-cn", "zh-tw", "jp", "es", "fr", "de", "ru", "ko", "ar", "pt"]

  /** `LANGUAGE_MAP.get(code)`, "" standing for a missing entry. */
  function MappedName(code: string): string {
    if code == "en" then "English"
    else if code == "zh-cn" then "Chinese"
    else if code == "zh-tw" then "Traditional Chinese"
    else if code == "jp" then "Japanese"
    else if code == "es" then "Spanish"
    else if code == "fr" then "French"
    else if code == "de" then "German"
    else if code == "ru" then "Russian"
    else if code == "ko" then "Korean"
    else if code == "ar" then "Arabic"
    else if code == "pt" then "Portuguese"
    else ""
  }

  /** `get_language_name`: the mapped name, or "Unknown" for a code outside the map. */
  function LanguageName(code: string): (r: string)
    ensures code !in SupportedLanguages ==> r == "Unknown"
  {
    var name := MappedName(code);
    if name == "" then "Unknown" else name
  }

  /** `is_supported_language` */
  predicate IsSupported(code: string) {
    code in SupportedLanguages
  }

  /** A code is supported exactly when the map names it, and no mapped name is "Unknown". */
  lemma SupportedIffNamed(code: string)
    ensures IsSupported(code) <==> MappedName(code) != ""
    ensures IsSupported(code) <==> LanguageName(code) != "Unknown"
  {
  }

  /** Japanese is listed as "jp", so the ISO code "ja" is not supported. */
  lemma JapaneseCode()
    ensures IsSupported("jp") && LanguageName("jp") == "Japanese"
    ensures !IsSupported("ja") && LanguageName("ja") == "Unknown"
  {
  }
}
