/**
 * The path computed when the visitor picks another language
 * (`handleLocaleChange` in src/app/LanguageSwitcher.tsx). English pages carry no
 * locale prefix; every other locale's pages live under `/<code>`.
 */
module LanguageSwitcher {
  import opened Wrappers
  import opened I18n

  function LocalePrefix(l: Locale): string {
    "/" + Code(l)
  }

  /** The path with the current locale's prefix removed, if it carries one. */
  function StripLocale(path: string, current: Locale): (r: string)
    ensures path == LocalePrefix(current) ==> r == "/"
    ensures path != LocalePrefix(current) && LocalePrefix(current) + "/" <= path ==>
              path == LocalePrefix(current) + r && "/" <= r
    ensures path != LocalePrefix(current) && !(LocalePrefix(current) + "/" <= path) ==> r == path
  {
    var prefix := LocalePrefix(current);
    if path == prefix then "/"
    else if prefix + "/" <= path then
      var rest := path[|prefix|..];
      assert path == prefix + rest;
      rest
    else path
  }

  /**
   * The full path to load for `target`, or `None` when `target` is already active
   * (the handler returns without navigating). The hash is carried over verbatim.
   */
  function SwitchLocalePath(current: Locale, target: Locale, path: string, hash: string): (r: Option<string>)
    ensures r.None? <==> target == current
    ensures r.Some? && target == En ==> r.value == StripLocale(path, current) + hash
    ensures r.Some? && target != En ==> r.value == LocalePrefix(target) + StripLocale(path, current) + hash
  {
    if target == current then None
    else
      var bare := StripLocale(path, current);
      var newPath := if target == En then bare else LocalePrefix(target) + bare;
      Some(newPath + hash)
  }

  /** The path of page `p` (which starts with `/`) in locale `l`. */
  function Localize(l: Locale, p: string): string {
    if l == En then p else LocalePrefix(l) + p
  }

  /** `p` is a page path that does not itself look like an English-prefixed path. */
  predicate IsPagePath(p: string) {
    "/" <= p && p != LocalePrefix(En) && !(LocalePrefix(En) + "/" <= p)
  }

  /**
   * Switching language keeps the visitor on the same page: from the page's path in the
   * current locale, the switcher produces that page's path in the target locale.
   */
  lemma SwitchKeepsPage(current: Locale, target: Locale, p: string, hash: string)
    requires IsPagePath(p) && current != target
    ensures SwitchLocalePath(current, target, Localize(current, p), hash) == Some(Localize(target, p) + hash)
  {
    var prefix := LocalePrefix(current);
    var path := Localize(current, p);
    if current != En {
      assert path == prefix + p;
      assert |path| > |prefix|;
      assert (prefix + "/") <= path by {
        assert path[..|prefix| + 1] == prefix + "/";
      }
      assert path[|prefix|..] == p;
    }
    assert StripLocale(path, current) == p;
  }

  /** The bare locale root `/<code>` maps to the target's root, with a trailing slash. */
  lemma LocaleRootSwitch(current: Locale, target: Locale, hash: string)
    requires current != target && current != En && target != En
    ensures SwitchLocalePath(current, target, LocalePrefix(current), hash) == Some(LocalePrefix(target) + "/" + hash)
  {
  }

  /** A path such as `/plx` is not under `/pl`: the trailing slash is required. */
  lemma LookalikeKept()
    ensures StripLocale("/plx", Pl) == "/plx"
  {
    assert !("/pl/" <= "/plx") by {
      assert "/plx"[3] != "/pl/"[3];
    }
  }
}
