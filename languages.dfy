/**
 * The language pair of ListenTranslateSpeak: the direction in which the user
 * translates, the locale the speech recognizer listens in, and the language of
 * the voice that speaks the translation.
 */
module Languages {

  /** `FromArabic`: the user speaks Arabic; `ToArabic`: the user speaks English. */
  datatype Usage = FromArabic | ToArabic {

    /** The opposite direction. Swift's mutating `toggle()` reassigns `self` with it. */
    function Toggle(): (r: Usage)
      ensures r != this
      ensures r.LocaleIdentifier() != LocaleIdentifier()
    {
      match this
      case FromArabic => ToArabic
      case ToArabic => FromArabic
    }

    /**
     * The locale identifier the speech recognizer is built with: Arabic as
     * spoken in Saudi Arabia, or English with no region.
     */
    function LocaleIdentifier(): (locale: string)
      ensures LanguageCode(locale) == (if this == FromArabic then "ar" else "en")
      ensures this == FromArabic <==> '-' in locale
    {
      LiteralLanguageCodes();
      match this
      case FromArabic => "ar-SA"
      case ToArabic => "en"
    }
  }

  /** Toggling twice gives back the original direction. */
  lemma ToggleInvolution(u: Usage)
    ensures u.Toggle().Toggle() == u
  {
  }

  /** The two directions never share a recognizer locale. */
  lemma LocalesDistinct(a: Usage, b: Usage)
    ensures a != b <==> a.LocaleIdentifier() != b.LocaleIdentifier()
  {
  }

  /** The language subtag of a locale identifier: everything before the first '-'. */
  function LanguageCode(locale: string): (code: string)
    ensures |code| <= |locale| && code == locale[..|code|]
    ensures '-' !in code
    ensures |code| < |locale| ==> locale[|code|] == '-'
  {
    if locale == [] || locale[0] == '-' then []
    else [locale[0]] + LanguageCode(locale[1..])
  }

  /** The language subtags of the two locale literals. */
  lemma {:induction false} LiteralLanguageCodes()
    ensures LanguageCode("ar-SA") == "ar"
    ensures LanguageCode("en") == "en"
  {
    var ar := "ar-SA";
    assert ar[1..][1..] == "-SA";
    assert LanguageCode(ar[1..][1..]) == [];
    assert LanguageCode(ar[1..]) == "r";
    var en := "en";
    assert en[1..][1..] == [];
    assert LanguageCode(en[1..]) == "n";
  }

  /**
   * The language of the voice that speaks the translation: English when the
   * user speaks Arabic, Arabic otherwise (the raw values of `NLLanguage`).
   * It is the language of the opposite direction's locale and never the
   * language the user speaks.
   */
  function VoiceLanguage(u: Usage): (lang: string)
    ensures lang == LanguageCode(u.Toggle().LocaleIdentifier())
    ensures lang != LanguageCode(u.LocaleIdentifier())
  {
    if u == FromArabic then "en" else "ar"
  }
}
