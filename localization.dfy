/** The culture mapping and string lookup of the localisation service. */
module Localization {
  import opened Text

  /** The five interface languages, as `GetAvailableLanguages` lists them. */
  datatype LanguageInfo = LanguageInfo(code: string, displayName: string)

  function AvailableLanguages(): (ls: seq<LanguageInfo>)
    ensures |ls| == 5
  {
    [LanguageInfo("zh-TW", "繁體中文 (Traditional Chinese)"),
     LanguageInfo("zh-CN", "简体中文 (Simplified Chinese)"),
     LanguageInfo("en-US", "English"),
     LanguageInfo("ja-JP", "日本語 (Japanese)"),
     LanguageInfo("ko-KR", "한국어 (Korean)")]
  }

  predicate IsTraditionalChinese(n: string) {
    StartsWith(n, "zh-tw") || StartsWith(n, "zh-hant") || StartsWith(n, "zh-hk") || StartsWith(n, "zh-mo")
  }

  predicate IsSimplifiedChinese(n: string) {
    StartsWith(n, "zh-cn") || StartsWith(n, "zh-hans") || StartsWith(n, "zh-sg")
  }

  /** `MapToSupportedLanguage`: a cascade of prefix tests on the lower-cased
      culture name, the first match winning; everything unmatched, and the
      empty name of the invariant culture, is English. */
  function MapToSupportedLanguage(cultureName: string): (code: string)
    ensures cultureName == "" ==> code == "en-US"
    ensures cultureName != "" ==>
      var n := ToLower(cultureName);
      (code == "zh-TW" <==> IsTraditionalChinese(n))
      && (code == "zh-CN" <==> !IsTraditionalChinese(n) && IsSimplifiedChinese(n))
      && (code == "ja-JP" <==> !IsTraditionalChinese(n) && !IsSimplifiedChinese(n) && StartsWith(n, "ja"))
      && (code == "ko-KR" <==> !IsTraditionalChinese(n) && !IsSimplifiedChinese(n)
                               && !StartsWith(n, "ja") && StartsWith(n, "ko"))
      && (code == "en-US" <==> !IsTraditionalChinese(n) && !IsSimplifiedChinese(n)
                               && !StartsWith(n, "ja") && !StartsWith(n, "ko"))
  {
    if cultureName == [] then "en-US"
    else
      var n := ToLower(cultureName);
      if IsTraditionalChinese(n) then "zh-TW"
      else if IsSimplifiedChinese(n) then "zh-CN"
      else if StartsWith(n, "ja") then "ja-JP"
      else if StartsWith(n, "ko") then "ko-KR"
      else "en-US"
  }

  /** Every culture maps to one of the listed languages. */
  lemma MappedIsAvailable(cultureName: string)
    ensures exists i :: 0 <= i < |AvailableLanguages()| && AvailableLanguages()[i].code == MapToSupportedLanguage(cultureName)
  {
    var code := MapToSupportedLanguage(cultureName);
    var ls := AvailableLanguages();
    if code == "zh-TW" { assert ls[0].code == code; }
    else if code == "zh-CN" { assert ls[1].code == code; }
    else if code == "en-US" { assert ls[2].code == code; }
    else if code == "ja-JP" { assert ls[3].code == code; }
    else { assert ls[4].code == code; }
  }

  /** Names that differ only in ASCII case map alike. */
  lemma MappingIgnoresCase(a: string, b: string)
    requires EqualsIgnoreCase(a, b)
    ensures MapToSupportedLanguage(a) == MapToSupportedLanguage(b)
  {
    if a == [] {
      assert |b| == 0;
    } else {
      assert |b| != 0;
    }
  }

  /** The traditional-Chinese test comes first: Hong Kong, Macau and the
      Hant script map to traditional Chinese. */
  lemma TraditionalVariants()
    ensures MapToSupportedLanguage("zh-HK") == "zh-TW"
    ensures MapToSupportedLanguage("zh-Hant-CN") == "zh-TW"
  {
    assert ToLower("zh-HK")[..5] == "zh-hk";
    assert ToLower("zh-Hant-CN")[..7] == "zh-hant";
  }

  /** Which prefixes a name can have is decided by its first two
      characters. */
  lemma PrefixesByHead(n: string)
    requires |n| >= 2
    ensures n[0] != 'z' ==> !IsTraditionalChinese(n) && !IsSimplifiedChinese(n)
    ensures n[1] != 'h' ==> !IsTraditionalChinese(n) && !IsSimplifiedChinese(n)
    ensures StartsWith(n, "ja") <==> n[0] == 'j' && n[1] == 'a'
    ensures StartsWith(n, "ko") <==> n[0] == 'k' && n[1] == 'o'
  {
    assert "ja" == ['j', 'a'] && "ko" == ['k', 'o'];
    assert n[..2] == [n[0], n[1]];
  }

  /** A bare "zh" names no region or script, so it falls back to English. */
  lemma BareChineseIsEnglish()
    ensures MapToSupportedLanguage("zh") == "en-US"
  {
    var n := ToLower("zh");
    assert n[0] == 'z' && n[1] == 'h' && |n| == 2;
    PrefixesByHead(n);
  }

  /** Any English variant maps to American English, and the POSIX
      spelling with an underscore and an encoding is recognised. */
  lemma VariantExamples()
    ensures MapToSupportedLanguage("en-GB") == "en-US"
    ensures MapToSupportedLanguage("ko_KR.UTF-8") == "ko-KR"
  {
    var e := ToLower("en-GB");
    assert e[0] == 'e' && e[1] == 'n';
    PrefixesByHead(e);
    var k := ToLower("ko_KR.UTF-8");
    assert k[0] == 'k' && k[1] == 'o';
    PrefixesByHead(k);
  }

  /** What the resource lookup does for a key. */
  datatype Lookup = Found(value: string) | Missing | Threw

  /** `GetString(key)`: the looked-up text, or the key itself when there
      is none or the lookup fails. */
  function GetString(key: string, lookup: Lookup): (s: string)
    ensures lookup.Found? ==> s == lookup.value
    ensures !lookup.Found? ==> s == key
  {
    match lookup
    case Found(v) => v
    case Missing => key
    case Threw => key
  }
}
