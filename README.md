# J&M Prestige property site — verified model of its client-side logic

This project models, in Dafny, the few pieces of sequential logic in the brokerage's
marketing site:

- **the image carousel** of the property cards and detail pages: a working list of
  image URLs and the index of the image on display, with next/previous/indicator
  navigation and eviction of images that fail to load, falling back to the site logo;
- **image URL resolution** of catalog properties (Cloudinary URLs or the logo) and the
  **inquiry message templates** that embed a property name;
- **the language switcher's path rewrite** (strip the current locale prefix, add the
  new one unless English, keep the hash) and **locale resolution** (unknown or missing
  locales become English);
- **the property listing**: category selection from the query string, the filtered
  list of published properties, the URL written for a category, and the home page's
  featured selection;
- **the home page's session-storage protocol**: a pending contact scroll is consumed
  first and wins; otherwise a saved scroll offset is restored once and deleted; leaving
  the page saves the offset; plus the mobile menu toggle.

Modules, one per source file: `Content` (content.dfy), `I18n` (i18n.dfy),
`LanguageSwitcher` (language_switcher.dfy), `Carousel` (carousel.dfy), `Listing`
(listing.dfy, with the featured selection of the home page), `Home` (home.dfy), and the
`Wrappers` helper (`Option`, standing for `undefined`/`null`). The carousel, the home page
and the listing page are classes whose fields the handlers update (`ImageCarousel`,
`HomePage`, `ListingPage`); each state-changing method is specified by a pure function
(`AfterError`, `NextIndex`, `OnMount`, ...) about which the lemmas are proved.
Browser effects — `setTimeout`/`scrollIntoView`, `window.scrollTo` — are recorded as
`Action` values; `window.scrollY` and the current path and hash are parameters.

Points where the code's behaviour is easy to misread:

- An image failure removes every entry equal to the failed URL, not a single slot;
  with duplicate URLs the list shrinks by more than one (`Carousel.Without`).
- Hence "N failures reach the logo, never fewer" holds only when the N images are
  distinct and none is the logo itself (`Carousel.NoEarlyFallback`); in general at most
  N failures are needed (`Carousel.ConvergesWithinLength`).
- The home page modelled here consumes only the `scrollToContact` flag; it reads no
  inquiry record and pre-fills nothing.

## Model

| member | source | states |
|---|---|---|
| `Content.PropertyImagePath` | src/app/content.ts:13-18 | a non-empty folder gives base URL + "/" + folder + "/" + name; an empty folder gives base URL + "/" + name |
| `Content.PathIsNotFallback` | src/app/content.ts:5-17 | a resolved Cloudinary URL is never the local fallback logo path |
| `Content.PathInjective` | src/app/content.ts:13-18 | within one folder, two image names give the same URL if and only if they are the same name |
| `Content.MapPaths` | src/app/content.ts:46 | mapping the name list yields one URL per name |
| `Content.MapPathsAt` | src/app/content.ts:46 | URL i of the mapped list is the resolution of name i |
| `Content.PropertyImages` | src/app/content.ts:22-47 | never empty; exactly `[FALLBACK_IMAGE]` when images are switched off, absent, or the folder is undefined; otherwise as long as the name list |
| `Content.PropertyImagesAt` | src/app/content.ts:39-46 | with images enabled, present and a folder defined (empty allowed), element i is `getPropertyImagePath(folder, images[i])` |
| `Content.PropertyImagesFallbackIff` | src/app/content.ts:28-46 | the result is the fallback list if and only if one of the three fallback rules applies |
| `Content.InquiryMessage` | src/app/content.ts:627-629 | a message is the kind's fixed prefix, the property name verbatim, then the kind's fixed suffix |
| `Content.PropertyNameOf` | src/app/content.ts:627-629 | any name it extracts re-generates the message it was read from |
| `Content.InquiryMessageRoundTrip` | src/app/content.ts:627-629 | the property name can always be read back from its message |
| `Content.TemplatesDistinct` | src/app/content.ts:628-629 | a booking message never equals an information message, whatever the names |
| `I18n.LocaleTablesTotal` | src/i18n.ts:5-18 | `localeNames` and `localeFlags` have an entry for every supported locale |
| `I18n.ParseLocale` | src/i18n.ts:5 | a string is recognised exactly when it is the code of a supported locale, and then yields that locale |
| `I18n.CodeRoundTrip` | src/i18n.ts:5 | every locale's code parses back to that locale |
| `I18n.ResolveLocale` | src/i18n.ts:22-27 | the result is always a supported locale; a supported requested code is kept; a missing, empty or unknown one becomes `en` |
| `I18n.ResolveIdempotent` | src/i18n.ts:25-27 | resolving an already resolved locale changes nothing |
| `LanguageSwitcher.StripLocale` | src/app/LanguageSwitcher.tsx:19-27 | `/<locale>` becomes `/`; a path under `/<locale>/` loses exactly the `/<locale>` prefix and still starts with `/`; any other path (such as `/plx` for `pl`) is unchanged |
| `LanguageSwitcher.SwitchLocalePath` | src/app/LanguageSwitcher.tsx:11-35 | choosing the active locale does nothing; `en` gets no prefix, any other target gets `/<target>` before the stripped path; the hash is appended unchanged |
| `LanguageSwitcher.SwitchKeepsPage` | src/app/LanguageSwitcher.tsx:19-35 | switching from the page's path in one locale yields that same page's path in the target locale, followed by the hash |
| `LanguageSwitcher.LocaleRootSwitch` | src/app/LanguageSwitcher.tsx:23-32 | the bare root `/<a>` becomes `/<b>/` between two non-English locales |
| `LanguageSwitcher.LookalikeKept` | src/app/LanguageSwitcher.tsx:23-27 | `/plx` is not treated as under `/pl`, because the trailing slash is required |
| `Carousel.WorkingList` | src/app/components.tsx:34 | the working list is the given images when there are any, else exactly the fallback logo; never empty |
| `Carousel.NextIndex` | src/app/components.tsx:46-48 | next stays within the list |
| `Carousel.PrevIndex` | src/app/components.tsx:50-52 | previous stays within the list |
| `Carousel.PrevAfterNext` | src/app/components.tsx:46-52 | previous after next restores the index, for every list length |
| `Carousel.NextAfterPrev` | src/app/components.tsx:46-52 | next after previous restores the index |
| `Carousel.Without` | src/app/components.tsx:59 | the filtered list contains exactly the old images other than the failed one |
| `Carousel.WithoutShrinks` | src/app/components.tsx:59 | removing a present image strictly shortens the list |
| `Carousel.WithoutConcat` | src/app/components.tsx:59 | the filter acts piecewise on a concatenation, so the survivors keep their relative order |
| `Carousel.WithoutAbsent` | src/app/components.tsx:59 | filtering out an image that is not there changes nothing |
| `Carousel.WithoutCounts` | src/app/components.tsx:59 | every other image keeps its number of occurrences |
| `Carousel.WithoutDistinct` | src/app/components.tsx:57-59 | in a list without duplicates only the failed slot is removed |
| `Carousel.AfterError` | src/app/components.tsx:56-72 | the carousel invariant (non-empty list, index inside it) holds after a failure |
| `Carousel.AfterErrorSpec` | src/app/components.tsx:56-72 | if another image remains, the failed URL is gone, all others stay, and the index is kept unless past the end, where it becomes the last; otherwise the state is exactly the logo at index 0 |
| `Carousel.FallbackIsFixedPoint` | src/app/components.tsx:61-64 | a failure of the logo-only state leaves it unchanged |
| `Carousel.SuccessorTakesSlot` | src/app/components.tsx:57-70 | with distinct images, the image after the failed one is shown in its place |
| `Carousel.Failures` | src/app/components.tsx:56-72 | the invariant holds after any number of successive failures |
| `Carousel.AfterErrorProgress` | src/app/components.tsx:56-72 | every failure outside the logo-only state brings the carousel strictly closer to it |
| `Carousel.FailuresConverge` | src/app/components.tsx:56-72 | enough successive failures always end in the logo-only list |
| `Carousel.ConvergesWithinLength` | src/app/components.tsx:56-72 | at most as many failures as there are images reach the logo-only list |
| `Carousel.NoEarlyFallback` | src/app/components.tsx:57-70 | with distinct non-logo images, k failures leave exactly n − k images, so fewer than n never show the logo |
| `Carousel.ShowsNavigation` | src/app/components.tsx:88 | navigation is shown exactly when stepping actually moves the index |
| `Carousel.MiddleFailureExample` | src/app/components.tsx:56-70 | `[A, B, C]` at index 1 becomes `[A, C]` at index 1 when B fails |
| `Carousel.ImageCarousel.constructor` | src/app/components.tsx:19-29 | the first render holds the given images unchanged at index 0, with the given indicator placement props |
| `Carousel.ImageCarousel.ImagesChanged` | src/app/components.tsx:33-37 | a new `images` prop installs the working list and resets the index to 0; the invariant holds |
| `Carousel.ImageCarousel.ClampIndex` | src/app/components.tsx:40-44 | an out-of-range index over a non-empty list resets to 0; otherwise the index is unchanged |
| `Carousel.ImageCarousel.Next` | src/app/components.tsx:46-48 | the index becomes (index + 1) mod n; the list is unchanged and the invariant kept |
| `Carousel.ImageCarousel.Prev` | src/app/components.tsx:50-52 | the index becomes (index − 1 + n) mod n; the list is unchanged and the invariant kept |
| `Carousel.ImageCarousel.JumpTo` | src/app/components.tsx:113-118 | an indicator click selects that indicator's image, whose position is inside the list |
| `Carousel.ImageCarousel.HandleImageError` | src/app/components.tsx:56-72 | the new state is the failure step of the old one, and the invariant is kept |
| `Carousel.ImageCarousel.NavigationVisible` | src/app/components.tsx:88 | the previous/next buttons are shown exactly when a step forward, or back, would show another image |
| `Carousel.ImageCarousel.OuterIndicatorsVisible` | src/app/components.tsx:135 | the indicators below the image are shown exactly when indicators are enabled, placed outside, and the list has more than one image |
| `Carousel.ImageCarousel.IndicatorsShownOnce` | src/app/components.tsx:88-135 | at most one row of indicators is drawn, and one is drawn exactly when indicators are enabled and a step would show another image |
| `Listing.Filter` | src/app/properties/page.tsx:35-36 | a filtered list is no longer than its input and keeps only input elements that pass the test |
| `Listing.FilterConcat` | src/app/properties/page.tsx:35-36 | the filter acts piecewise on a concatenation, so kept elements stay in input order, duplicates included |
| `Listing.FilterCounts` | src/app/properties/page.tsx:35-36 | an element that passes keeps its number of occurrences; one that fails does not occur |
| `Listing.FilterNone` | src/app/properties/page.tsx:35-36 | when no element passes, the result is empty |
| `Listing.FilterKeeps` | src/app/properties/page.tsx:35-36 | every input element that passes the test is kept |
| `Listing.FilterFusion` | src/app/properties/page.tsx:33-36 | filtering by one test and then another equals one pass with both tests |
| `Listing.FilterEquivalent` | src/app/properties/page.tsx:33-36 | tests that agree everywhere give the same filtered list |
| `Listing.FilteredProperties` | src/app/properties/page.tsx:33-36 | only published properties of the selected category (any for "all") are listed |
| `Listing.FilteredIsCatalogOrder` | src/app/properties/page.tsx:33-36 | the listing equals one pass over the catalog keeping published properties of the category, in catalog order |
| `Listing.FilteredComplete` | src/app/properties/page.tsx:33-36 | every published property of the selected category is listed |
| `Listing.UnknownCategoryEmpty` | src/app/properties/page.tsx:35-36 | a category no property has yields an empty listing |
| `Listing.ShowsEmptyState` | src/app/properties/page.tsx:124 | the empty-state message is shown exactly when no catalog property is published in the selected category |
| `Listing.CategoryUrl` | src/app/properties/page.tsx:26-30 | "all" gives `/properties`; any other category gives `/properties?category=<c>` |
| `Listing.CategoryParam` | src/app/properties/page.tsx:16 | any category read from a URL is the rest of a `/properties?category=` URL |
| `Listing.SelectAfterQuery` | src/app/properties/page.tsx:15-19 | a present, non-empty query value replaces the selection; otherwise the selection is kept |
| `Listing.CategoryUrlRoundTrip` | src/app/properties/page.tsx:13-30 | opening the listing afresh at the URL written for a non-empty category of lower-case letters and hyphens (every tab id) selects that category again |
| `Listing.ListingPage.constructor` | src/app/properties/page.tsx:13 | the selection starts as "all" |
| `Listing.ListingPage.ApplyCategoryParam` | src/app/properties/page.tsx:15-20 | the query-parameter effect sets the selection as described above |
| `Listing.ListingPage.HandleCategoryChange` | src/app/properties/page.tsx:22-31 | a tab click selects its category and yields the category's URL |
| `Listing.FeaturedProperties` | src/app/page.tsx:241-243 | the first two published and featured properties in catalog order, or all of them when fewer than two qualify |
| `Home.GetItem` | src/app/page.tsx:39 | a stored key yields its value, a missing key yields nothing |
| `Home.NatToString` | src/app/page.tsx:59 | a saved offset is a non-empty string of decimal digits |
| `Home.LeadingDigits` | src/app/page.tsx:53 | counts exactly the leading decimal digits |
| `Home.ParseInt` | src/app/page.tsx:53 | the value is `NaN` exactly when the string does not start with a digit |
| `Home.ParseNatToString` | src/app/page.tsx:53-59 | a saved offset parses back to the same offset |
| `Home.OnMount` | src/app/page.tsx:37-62 | a `scrollToContact` of `"true"` is removed and a contact scroll scheduled, nothing else is touched and no leave handler is installed; any other flag installs the handlers and schedules no contact scroll |
| `Home.RestorePath` | src/app/page.tsx:40-55 | without a pending contact scroll the flag is left alone; a non-empty saved offset is scrolled to and deleted; an absent or empty one is neither |
| `Home.ContactPathKeepsOffset` | src/app/page.tsx:39-49 | the contact path neither reads nor removes `homeScrollPosition`, and clears the flag |
| `Home.ContactScrollAtMostOnce` | src/app/page.tsx:39-49 | a second mount never schedules a contact scroll |
| `Home.OffsetRestoredOnce` | src/app/page.tsx:51-55 | a restored offset is consumed: the next mount, with nothing saved since, requests no scroll and leaves storage as the first mount left it |
| `Home.LeaveThenReturn` | src/app/page.tsx:51-70 | leaving at offset y and coming back scrolls to exactly y and clears the key |
| `Home.HomePage.constructor` | src/app/page.tsx:10 | the page starts with the given storage, no actions, no handlers and the menu closed |
| `Home.HomePage.Mount` | src/app/page.tsx:37-62 | the storage, recorded actions and handler state become those of the mount decision |
| `Home.HomePage.Unmount` | src/app/page.tsx:72-75 | the cleanup removes the leave handlers |
| `Home.HomePage.BeforeUnload` | src/app/page.tsx:58-62 | with the handlers installed, unloading saves the current offset; otherwise nothing changes |
| `Home.HomePage.LinkClick` | src/app/page.tsx:65-70 | with the handlers installed, a click on a `/`-prefixed link saves the current offset; other clicks change nothing |
| `Home.HomePage.ToggleMenu` | src/app/page.tsx:107 | the menu button flips `mobileMenuOpen` |
| `Home.HomePage.CloseMenu` | src/app/page.tsx:124 | a mobile-menu link closes the menu |

## Left out

- Rendering: JSX, styling, `next/image`, `Link`, `Suspense`, and the loading flag of the carousel, which no modelled rule reads.
- The IntersectionObserver that writes the visible section into the URL hash (src/app/page.tsx:12-34): a browser callback API.
- `setTimeout`, `scrollIntoView` and `window.scrollTo` are recorded as `Action` values, not performed; the 100 ms delay is not modelled.
- `Home.ParseInt`: models `parseInt` only on leading decimal digits; leading whitespace, a sign and a `0x` prefix are not modelled, because the offsets the page writes are always digit strings.
- `Home.NatToString`: `window.scrollY` is taken to be a whole number of pixels; fractional offsets are not modelled.
- `window.location.replace`, `router.replace`, `router.back`, `useTransition` and `useLocale` are navigation side effects; only the computed path or URL is modelled.
- `Listing.CategoryUrlRoundTrip`: stated only for categories of lower-case letters and hyphens, the alphabet of the page's own tabs; the page writes the category unencoded, and a browser's URL parsing cuts the value at `&` or `#`, decodes `+` and `%` escapes, removes tabs and newlines and trims leading and trailing spaces and control characters, so other categories need not come back unchanged.
- `Listing.CategoryParam`: reads the whole rest of `/properties?category=...`; URL decoding and other query parameters are not modelled, and the source does not encode the category either.
- The asynchronous `getRequestConfig` and the loading of message files (src/i18n.ts:20-33): framework and file loading; only the locale decision is modelled.
- The static catalog data, the Formspree endpoint and the `mailto:` form: content, with no logic in the modelled files.
- The property-inquiry record and form pre-fill: the modelled home page consumes only the `scrollToContact` flag and has no such logic.
- `Carousel.ImageCarousel`: navigation and failure handling are modelled only once the reset effect has run (the invariant holds); the very first render, before any effect, with an empty `images` prop is not modelled.
- React's batching and effect scheduling: each handler or effect is taken to run to completion, one at a time.
