/**
 * Locale selection on the server (`i18n/request.ts`): the locale comes from the
 * `NEXT_LOCALE` cookie, is narrowed to the supported locales, and names the
 * message file to load.
 *
 * The cookie store is a parameter (the cookie's value, or `None` when there is
 * no such cookie); loading the JSON file is left to the caller, who gets its path.
 */
module I18nRequest {
  import opened Common

  const DefaultLocale := "en"
  const SupportedLocales: seq<string> := ["en", "kor"]

  /** `cookieStore.get('NEXT_LOCALE')?.value || 'en'`: an absent or empty value gives "en". */
  function CookieLocale(cookie: Option<string>): (locale: string)
    ensures cookie.None? || cookie.value == "" ==> locale == DefaultLocale
    ensures cookie.Some? && cookie.value != "" ==> locale == cookie.value
  {
    if cookie.Some? && cookie.value != "" then cookie.value else DefaultLocale
  }

  /** `supportedLocales.includes(locale) ? locale : 'en'`. */
  function SafeLocale(locale: string): (safe: string)
    ensures safe in SupportedLocales
    ensures locale in SupportedLocales ==> safe == locale
    ensures locale !in SupportedLocales ==> safe == DefaultLocale
  {
    if locale in SupportedLocales then locale else DefaultLocale
  }

  /** Normalising twice is normalising once. */
  lemma SafeLocaleIdempotent(locale: string)
    ensures SafeLocale(SafeLocale(locale)) == SafeLocale(locale)
  {
  }

  /** The module path imported for a locale's messages. */
  function MessageFile(locale: string): (path: string)
    ensures |path| == |locale| + 17
    ensures path[..12] == "../messages/" && path[12..12 + |locale|] == locale
    ensures path[12 + |locale|..] == ".json"
  {
    "../messages/" + locale + ".json"
  }

  /** Different locales load different message files. */
  lemma MessageFileInjective(a: string, b: string)
    requires MessageFile(a) == MessageFile(b)
    ensures a == b
  {
    assert |a| == |b|;
    assert a == MessageFile(a)[12..12 + |a|];
  }

  datatype RequestConfig = RequestConfig(locale: string, messagesPath: string)

  /** The configuration returned for a request: a supported locale, the cookie's
      own when it is supported, and the message file named after it. */
  function GetRequestConfig(cookie: Option<string>): (c: RequestConfig)
    ensures c.locale in SupportedLocales
    ensures c.locale == SafeLocale(CookieLocale(cookie))
    ensures cookie.None? ==> c.locale == DefaultLocale
    ensures cookie.Some? && cookie.value in SupportedLocales ==> c.locale == cookie.value
    ensures cookie.Some? && cookie.value !in SupportedLocales ==> c.locale == DefaultLocale
    ensures c.messagesPath == MessageFile(c.locale)
  {
    var safe := SafeLocale(CookieLocale(cookie));
    RequestConfig(safe, MessageFile(safe))
  }

  /** Only two message files are ever loaded. */
  lemma TwoMessageFiles(cookie: Option<string>)
    ensures GetRequestConfig(cookie).messagesPath in {MessageFile("en"), MessageFile("kor")}
  {
    var locale := GetRequestConfig(cookie).locale;
    assert locale == "en" || locale == "kor";
  }
}
