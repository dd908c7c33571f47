/**
 * `POST /api/set-language?lang=…` (`app/api/set-language/route.ts`): answers
 * `{ success: true }` and sets the `NEXT_LOCALE` cookie to the requested
 * language for a year.
 *
 * The `lang` query parameter arrives already decoded (`None` when it is absent).
 */
module SetLanguageRoute {
  import opened Common
  import I18nRequest

  const CookieName := "NEXT_LOCALE"
  /** 60 * 60 * 24 * 365 seconds. */
  const OneYear := 60 * 60 * 24 * 365

  datatype Cookie = Cookie(name: string, value: string, path: string, maxAge: nat)

  datatype Response = Response(success: bool, cookie: Cookie)

  /** `searchParams.get('lang') || 'en'`. */
  function LangParam(lang: Option<string>): (l: string)
    ensures l != ""
    ensures lang.None? || lang.value == "" ==> l == "en"
    ensures lang.Some? && lang.value != "" ==> l == lang.value
  {
    if lang.Some? && lang.value != "" then lang.value else "en"
  }

  /** The response: always a success body, and one cookie carrying the language
      verbatim (it is not checked against the supported locales) for path "/"
      and one year. */
  function Post(lang: Option<string>): (r: Response)
    ensures r.success
    ensures r.cookie.name == CookieName && r.cookie.value == LangParam(lang)
    ensures r.cookie.path == "/" && r.cookie.maxAge == 31536000
  {
    Response(true, Cookie(CookieName, LangParam(lang), "/", OneYear))
  }

  /** A language the server does not support is stored as asked, and the next
      request's locale selection turns it into "en"; a supported one is kept. */
  lemma StoredLanguageIsNormalisedLater(lang: Option<string>)
    ensures var stored := Post(lang).cookie.value;
      && (stored in I18nRequest.SupportedLocales ==> I18nRequest.GetRequestConfig(Some(stored)).locale == stored)
      && (stored !in I18nRequest.SupportedLocales ==> I18nRequest.GetRequestConfig(Some(stored)).locale == "en")
  {
  }
}
