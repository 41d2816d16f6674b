/**
 * The supported locales, their display tables, and the fallback applied to a requested
 * locale (src/i18n.ts).
 */
module I18n {
  import opened Wrappers

  datatype Locale = En | Tl | Pl

  /** The locale's code as it appears in URLs and in the request. */
  function Code(l: Locale): string {
    match l
    case En => "en"
    case Tl => "tl"
    case Pl => "pl"
  }

  /** `locales`, in the order the switcher shows them. */
  const Locales: seq<Locale> := [En, Tl, Pl]

  const LocaleNames: map<Locale, string> := map[En := "English", Tl := "Tagalog", Pl := "Polski"]

  const LocaleFlags: map<Locale, string> :=
    map[En := "\U{1F1FA}\U{1F1F8}", Tl := "\U{1F1F5}\U{1F1ED}", Pl := "\U{1F1F5}\U{1F1F1}"]

  /** Both display tables have an entry for every locale the site supports. */
  lemma LocaleTablesTotal()
    ensures forall l :: l in Locales ==> l in LocaleNames && l in LocaleFlags
  {
  }

  /** `locales.includes(s)`, giving the matching locale. */
  function ParseLocale(s: string): (r: Option<Locale>)
    ensures r.Some? ==> r.value in Locales && Code(r.value) == s
    ensures r.None? ==> forall l :: l in Locales ==> Code(l) != s
  {
    if s == "en" then Some(En)
    else if s == "tl" then Some(Tl)
    else if s == "pl" then Some(Pl)
    else None
  }

  lemma CodeRoundTrip(l: Locale)
    ensures ParseLocale(Code(l)) == Some(l)
  {
  }

  /**
   * The locale used for a request: the requested one when it is a supported code,
   * otherwise (missing, empty or unknown) English.
   */
  function ResolveLocale(requested: Option<string>): (l: Locale)
    ensures l in Locales
    ensures requested.Some? && ParseLocale(requested.value).Some? ==> Code(l) == requested.value
    ensures requested.None? || ParseLocale(requested.value).None? ==> l == En
  {
    if requested.None? || requested.value == "" then En
    else match ParseLocale(requested.value)
      case Some(l) => l
      case None => En
  }

  /** Resolving an already resolved locale changes nothing. */
  lemma ResolveIdempotent(requested: Option<string>)
    ensures ResolveLocale(Some(Code(ResolveLocale(requested)))) == ResolveLocale(requested)
  {
    CodeRoundTrip(ResolveLocale(requested));
  }
}
