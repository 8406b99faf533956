/** The date hook of hooks/useDateFormatter.ts: the locale of a language, the
    `YYYY-MM-DD` key of a timestamp, and the relative labels "today" and
    "yesterday". A calendar day in the device's time zone is a day number
    (consecutive days differ by 1); the current day is given as `today`. */
module DateFormatter {
  import opened Wrappers
  import opened ApiTypes
  import AppConstants
  import I18n

  /** The hook's own `localeMap`. */
  const LocaleMap: map<string, string> := map[
    "en" := "en-US", "fr" := "fr-FR", "es" := "es-ES",
    "de" := "de-DE", "it" := "it-IT", "pt" := "pt-BR"]

  /** `getLocale(language)`: an absent or empty argument stands for the current
      language; a code outside the table gives `en-US`. */
  function GetLocale(language: Option<string>, currentLanguage: string): (locale: string)
    ensures var lang := if language.None? || language.value == "" then currentLanguage else language.value;
      && (lang in LocaleMap ==> locale == LocaleMap[lang])
      && (lang !in LocaleMap ==> locale == "en-US")
  {
    var lang := if language.Some? && language.value != "" then language.value else currentLanguage;
    if lang in LocaleMap then LocaleMap[lang] else "en-US"
  }

  /** The hook's table is the application's, so both give every language the
      same locale. */
  lemma GetLocaleMatchesConstants(language: Option<string>, currentLanguage: string)
    ensures GetLocale(language, currentLanguage) ==
      AppConstants.LocaleForLanguage(if language.Some? && language.value != "" then language.value else currentLanguage)
  {
    assert LocaleMap == AppConstants.LocaleMap;
  }

  /** Without an argument, the locale follows the current language, which the
      translation service keeps among its six. */
  lemma CurrentLanguageLocale(currentLanguage: string)
    requires I18n.IsValidLanguage(currentLanguage)
    ensures GetLocale(None, currentLanguage) == LocaleMap[currentLanguage]
    ensures GetLocale(Some(""), currentLanguage) == LocaleMap[currentLanguage]
  {
    AppConstants.LanguageTablesAgree();
    assert LocaleMap == AppConstants.LocaleMap;
  }

  /** `getDateKey`, given the date's `toISOString()`: the part before the
      first `T`. */
  function GetDateKey(iso: string): (key: string)
    ensures 'T' !in key && |key| <= |iso| && key == iso[..|key|]
    ensures |key| < |iso| ==> iso[|key|] == 'T'
  {
    DateKey(iso)
  }

  /** The key of `YYYY-MM-DDTHH:mm:ss.sssZ` is `YYYY-MM-DD`. */
  lemma DateKeyOfIso(day: string, time: string)
    requires 'T' !in day
    ensures GetDateKey(day + "T" + time) == day
  {
    DateKeyOfTimestamp(day, time);
  }

  /** `isToday`: the same calendar day as now. */
  predicate IsToday(day: int, today: int) {
    day == today
  }

  /** `isYesterday`: the calendar day before now. */
  predicate IsYesterday(day: int, today: int) {
    day == today - 1
  }

  /** For one reading of the clock, no date is both today and yesterday. */
  lemma TodayIsNotYesterday(day: int, today: int)
    ensures !(IsToday(day, today) && IsYesterday(day, today))
  {
  }

  /** What `formatDate` shows: a translated relative label, or the date in a
      locale's own format. */
  datatype Shown = Label(key: string) | LocaleDate(day: int, locale: string)

  /** `formatDate`: "today" is checked first, then "yesterday"; only other
      dates are formatted, in the current language's locale. */
  function FormatDate(day: int, today: int, currentLanguage: string): (shown: Shown)
    ensures shown == Label("history.today") <==> IsToday(day, today)
    ensures shown == Label("history.yesterday") <==> IsYesterday(day, today)
    ensures shown.LocaleDate? <==> !IsToday(day, today) && !IsYesterday(day, today)
    ensures shown.LocaleDate? ==> shown.day == day && shown.locale == GetLocale(None, currentLanguage)
  {
    if day == today then Label("history.today")
    else if day == today - 1 then Label("history.yesterday")
    else LocaleDate(day, GetLocale(None, currentLanguage))
  }

  /** Only two days get a label, and those labels differ. */
  lemma LabelledDays(day: int, today: int, currentLanguage: string)
    requires FormatDate(day, today, currentLanguage).Label?
    ensures day == today || day == today - 1
    ensures FormatDate(today, today, currentLanguage) != FormatDate(today - 1, today, currentLanguage)
  {
  }
}
