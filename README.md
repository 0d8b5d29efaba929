# Nemwood site core in Dafny

This project models the logic of the Nemwood furniture site, a bilingual Next.js site (French `fr`, Dutch `nl`). It covers:

- **Locale routing.** The route-translation tables, `getLocalizedRoute`, the navigation menu and the request middleware, which reads the locale from the path or from `Accept-Language` and redirects unlocalized paths.
- **The translation provider.** Dotted-key lookup in a JSON dictionary (`t`), `translateRoute`, the initial-language rule, URL sync, `changeLanguage` and `toggleLanguage`.
- **List and record computations.** Previous/next service links, the blog's de-duplicated category list and its filter, the sitemap entries and the SEO metadata builder.
- **Guarded UI state.**
  - The services carousel: drag bounds, arrow targets, and the visibility/timeline/draggable life cycle.
  - The flip board: per-tile hover cooldown, column tilt and flip-all.
  - The FAQ accordions.
- **The loader and page-transition protocol.**
  - The first-load page loader with its 100 ms and 500 ms timers and its exit timeline.
  - The client layout, which forwards the loader's two callbacks into class-list changes and a window event.
  - The block-wipe page transition: the route-change guard, the cover and reveal animations, the `navigated` session flag and the scroll lock.

One Dafny module per source file:

| file | module | models |
|---|---|---|
| wrappers.dfy | Wrappers | `Option` |
| strings.dfy | Strings | JavaScript `split`, `join`, `filter(Boolean)`, `startsWith`, `includes` |
| route_translations.dfy | RouteTranslations | src/utils/routeTranslations.ts |
| navigation.dfy | Navigation | src/utils/navigation.ts |
| menu.dfy | Menu | src/data/menu.ts |
| use_translation.dfy | UseTranslation | src/hooks/useTranslation.tsx |
| middleware.dfy | Middleware | src/middleware.ts |
| service_navigation.dfy | ServiceNavigation | src/components/ServiceNavigation.tsx |
| blog_section.dfy | BlogSection | src/components/BlogSection.tsx |
| sitemap.dfy | Sitemap | src/app/sitemap.ts |
| metadata.dfy | SeoMetadata | src/app/metadata.ts |
| services_carousel.dfy | ServicesCarousel | src/components/ServicesCarousel.tsx |
| flip_board.dfy | FlipBoard | src/components/FlipBoard.tsx |
| faq.dfy | Faq | src/components/FAQ.tsx, src/components/FAQ2.tsx |
| page_loader.dfy | PageLoader | src/components/PageLoader2.tsx |
| client_layout.dfy | ClientLayout | src/components/ClientLayout.tsx |
| page_transition.dfy | PageTransition | src/components/PageTransition4.tsx |

Pure code is modelled as datatypes, functions and lemmas. Code with state, such as React refs and state, DOM styles, class lists and timers, is modelled as classes whose methods state the whole new state:

- `TranslationProvider`, `Request`, `Carousel`, `Board`, `Accordion`, `Loader`, `Layout`, `Transition`.
- Timers, animation completions and browser events are method calls made in the order they would fire.
- A React effect runs once state has settled after a render.

Where the code and its comments or documentation disagree, the model follows the code:

- The comments at src/data/menu.ts:11-12 promise the Dutch hrefs `/nl/over-ons` and `/nl/services`. The code gives the opposite on both lines: the nl table has no `about` entry, so the "about" link is `/nl/about`, and it does translate `services`, so that link is `/nl/diensten` (`Menu.DutchMenuHrefs`).
- `translateRoute` strips any two lower-case letters after the first slash, not only a locale: `/contact` becomes `/fr/ntact` (`UseTranslation.StripsAnyTwoLetters`).
- The sitemap lists unlocalized URLs such as `/services` and `/blog/<slug>`, which the middleware answers with a redirect (`Sitemap.StaticPathsAreUnlocalized`).
- Every page lives under `/<locale>/`, since the middleware redirects the other paths, and `usePathname` reports that prefix. Both the services layout's gate `pathname.startsWith("/services/")` (src/app/[locale]/services/layout.tsx:16-19) and ServiceNavigation's exact match of `pathname` against `/services/` followed by the slug (src/components/ServiceNavigation.tsx:29-31) compare against unprefixed paths, so on `/fr/services/escaliers` and the like neither holds and the previous and next links never appear (`ServiceNavigation.LocalizedServicePagesShowNothing`).
- On a viewport wider than 2366 px the carousel's drag bounds invert (`minX > maxX`), and the right arrow then moves the strip to a positive offset (`ServicesCarousel.WideViewportOvershoots`).
- In the page transition, a reveal that finishes while a cover is running clears the route-change guard and unlocks scrolling during that cover. A second navigation can then start a second cover (`PageTransition.RevealEndsDuringCover`).
- All three `useGSAP` calls that return cleanups pass `dependencies` without `revertOnUpdate`, so their cleanups wait for unmount: the carousel's timeline effect (src/components/ServicesCarousel.tsx:92-156), its draggable effect (src/components/ServicesCarousel.tsx:255-269) and the page transition's effect (src/components/PageTransition4.tsx:49-207). The timeline effect kills the previous timeline in its own body, so for it the deferral only means that `Carousel.Unmount` kills the last one. The page transition's listeners and the carousel's draggables pile up across re-runs; see "## Findings".
- After one navigation, a language switch rewrites the pathname, so the page transition's effect runs again: it plays a reveal with scrolling locked and adds one more listener to the layout's links (`PageTransition.LanguageSwitchReplaysReveal`).

## Model

| member | source | states |
|---|---|---|
| Strings.Split | src/hooks/useTranslation.tsx:72 | `key.split(".")`: at least one piece, and the whole string when the separator is absent; SplitPiecesFree and SplitJoin carry the rest |
| Strings.Join | src/hooks/useTranslation.tsx:103 | `remainingSegments.join("/")`; SplitJoin shows that splitting a join of separator-free parts gives the parts back |
| RouteTranslations.Lang.Code | src/utils/routeTranslations.ts:19 | each locale's code is two lower-case letters |
| RouteTranslations.LocaleCodes | src/utils/routeTranslations.ts:19 | the locale list, as codes, in order |
| RouteTranslations.Localize | src/utils/routeTranslations.ts:1-17 | `table[slug] \|\| slug`: a present non-empty entry replaces the slug; a missing key keeps it |
| RouteTranslations.LocalesExact | src/utils/routeTranslations.ts:19-20 | the locales are exactly "fr" and "nl"; the default is fr |
| RouteTranslations.FrTableEntries | src/utils/routeTranslations.ts:2-9 | the French table sends the Dutch slugs to their French ones |
| RouteTranslations.NlTableEntries | src/utils/routeTranslations.ts:10-16 | the Dutch table sends the French slugs to their Dutch ones |
| RouteTranslations.NlUndoneByFr | src/utils/routeTranslations.ts:1-17 | every nl translation is undone by the fr table |
| RouteTranslations.FrNotUndoneByNl | src/utils/routeTranslations.ts:7-12 | the converse fails: fr maps "services" to itself, and nl then turns it into "diensten" |
| RouteTranslations.TableValuesAreSegments | src/utils/routeTranslations.ts:1-17 | every table value is a non-empty path segment with no slash |
| RouteTranslations.NlThenFr | src/utils/routeTranslations.ts:1-17 | apart from the two Dutch slugs, translating to nl and then to fr gives the slug back |
| RouteTranslations.FrFixes | src/utils/routeTranslations.ts:2-9 | the fr table changes only the two Dutch slugs |
| RouteTranslations.LocalizeIdempotent | src/utils/routeTranslations.ts:1-17 | localizing twice is localizing once |
| RouteTranslations.LocalizeIsSegment | src/utils/routeTranslations.ts:1-17 | a segment stays a non-empty segment with no slash |
| Navigation.GetLocalizedRoute | src/utils/navigation.ts:3-13 | the href starts with `/` and the locale; it is the bare locale prefix iff the route is empty |
| Navigation.HrefSlug | src/utils/navigation.ts:8-12 | a non-empty route gives `/<code>/` followed by a non-empty slug that is the route itself or a value of the locale's table |
| Navigation.HrefSegments | src/utils/navigation.ts:4-12 | a one-segment route's href splits into `["", code]` or `["", code, slug]` |
| Navigation.ConcreteRoutes | src/utils/navigation.ts:3-13 | examples: services to /nl/diensten, a-propos to /nl/over-ons, about to /nl/about, "" to /fr |
| Menu.LocalizeItems | src/data/menu.ts:20-23 | every item is kept in order, with its fields, and given `getLocalizedRoute(route, l)` as href |
| Menu.GetLocalizedNavigationItems | src/data/menu.ts:17-24 | five items, in menu order, each localized |
| Menu.RouteHrefs | src/utils/routeTranslations.ts:1-17 | the hrefs of the five menu routes in both languages, computed from the tables: only `services` changes, to `diensten`, in Dutch |
| Menu.MenuRoutes | src/data/menu.ts:9-24 | item k of the localized menu carries the href of the k-th route of `navigationItems`, in that order |
| Menu.FrenchMenuHrefs | src/data/menu.ts:9-15 | the French hrefs /fr, /fr/about, /fr/services, /fr/contact, /fr/blog |
| Menu.DutchMenuHrefs | src/data/menu.ts:9-15 | the Dutch hrefs /nl, /nl/about, /nl/diensten, /nl/contact, /nl/blog (not /nl/over-ons, unlike the comment) |
| UseTranslation.T | src/hooks/useTranslation.tsx:71-84 | the key-walking loop returns what the reference `Translate` gives |
| UseTranslation.Step | src/hooks/useTranslation.tsx:76-80 | one step of the walk goes into an object entry or an array element, or fails; every string inside the child is a string inside the value |
| UseTranslation.Resolve | src/hooks/useTranslation.tsx:75-81 | the walk over the dotted parts ends inside the dictionary: every string under the value reached occurs in the dictionary |
| UseTranslation.Translate | src/hooks/useTranslation.tsx:71-84 | `t` never invents text: the result is the key itself or a string that occurs in the dictionary |
| UseTranslation.EmptyDictionaryShowsKeys | src/hooks/useTranslation.tsx:43-84 | before the dictionary loads, every key shows as itself |
| UseTranslation.KeyPath | src/hooks/useTranslation.tsx:72-81 | joining non-empty dot-free parts and splitting again gives the parts back; the lookup follows them |
| UseTranslation.NestedFound | src/hooks/useTranslation.tsx:75-83 | `a.b` in `{a: {b: s}}` gives s |
| UseTranslation.NestedStopsOnObject | src/hooks/useTranslation.tsx:82-83 | a key that reaches an object, not a string, shows as the key |
| UseTranslation.NestedMissing | src/hooks/useTranslation.tsx:76-80 | a missing step shows the key |
| UseTranslation.NestedPastString | src/hooks/useTranslation.tsx:76-80 | stepping past a string shows the key |
| UseTranslation.PathWithoutLocale | src/hooks/useTranslation.tsx:90 | the stripped path is never empty (falls back to `/`) |
| UseTranslation.PathSegments | src/hooks/useTranslation.tsx:91 | the segments are non-empty and slash-free |
| UseTranslation.TranslateRoute | src/hooks/useTranslation.tsx:86-106 | `translateRoute`; NoSegmentsGivesHome, TranslateRouteAsJoin and UrlSegmentOfTranslated put the result under the target locale, TranslatedSegments gives its segments, and TranslateRouteIdempotent, RoundTripFrNlFr and RoundTripExact its round trips |
| UseTranslation.NoSegmentsGivesHome | src/hooks/useTranslation.tsx:93-95 | the result is the bare target prefix iff the path has no segments |
| UseTranslation.StripsAnyTwoLetters | src/hooks/useTranslation.tsx:90 | any two lower-case letters are stripped: /contact gives /fr/ntact |
| UseTranslation.TranslateRouteAsJoin | src/hooks/useTranslation.tsx:97-103 | the result is `/<code>/` followed by the slash-joined segments, only the first one localized |
| UseTranslation.SplitLeadingSlash | src/hooks/useTranslation.tsx:91 | splitting a path with a leading slash yields a leading empty piece |
| UseTranslation.SegmentsOfHome | src/hooks/useTranslation.tsx:90-91 | `/xx` has no segments |
| UseTranslation.SegmentsOfLocalizedPath | src/hooks/useTranslation.tsx:90-91 | `/xx/` + joined parts has exactly those parts as segments |
| UseTranslation.TranslatedSegments | src/hooks/useTranslation.tsx:86-106 | the translated path's segments are the original ones, the first localized |
| UseTranslation.TranslateRouteIdempotent | src/hooks/useTranslation.tsx:86-106 | translating an already translated path to the same locale changes nothing |
| UseTranslation.RoundTripFrNlFr | src/hooks/useTranslation.tsx:86-106 | fr to nl to fr returns the French path unless the first segment is a Dutch slug |
| UseTranslation.TranslateLocalized | src/hooks/useTranslation.tsx:86-106 | translating a localized path replaces its prefix and localizes its first part |
| UseTranslation.LocalizedParts | src/hooks/useTranslation.tsx:97-100 | the localized parts stay non-empty slash-free segments |
| UseTranslation.RoundTripExact | src/hooks/useTranslation.tsx:86-106 | `/fr/` + parts survives a trip through nl |
| UseTranslation.RoundTripNlFrNlFails | src/hooks/useTranslation.tsx:86-106 | `/nl/services/...` does not survive a trip through fr: it comes back as `/nl/diensten/...` |
| UseTranslation.InitialLanguage | src/hooks/useTranslation.tsx:31-41 | a saved "fr"/"nl" wins; the result is never empty |
| UseTranslation.UrlSegmentOf | src/hooks/useTranslation.tsx:39-56 | the segment after the first slash is what the URL rule reads |
| UseTranslation.InitialFromUrl | src/hooks/useTranslation.tsx:39-40 | without a saved locale, the first path segment is taken unvalidated |
| UseTranslation.InitialDefault | src/hooks/useTranslation.tsx:39-40 | without a saved locale or a segment, the language is fr |
| UseTranslation.Toggled | src/hooks/useTranslation.tsx:119-122 | the toggle target is nl iff the current language is fr |
| UseTranslation.SyncedLanguage | src/hooks/useTranslation.tsx:55-65 | the sync effect switches only to a valid code that differs from the current language and is the URL's segment |
| UseTranslation.UrlSegmentOfTranslated | src/hooks/useTranslation.tsx:94-103 | a translated path's URL segment is the target code |
| UseTranslation.TranslationProvider.constructor | src/hooks/useTranslation.tsx:29-43 | initial language by the initial rule, an empty dictionary |
| UseTranslation.TranslationProvider.SyncWithUrl | src/hooks/useTranslation.tsx:55-65 | the language follows a valid, different URL segment and is saved; nothing else changes |
| UseTranslation.TranslationProvider.Navigate | src/hooks/useTranslation.tsx:55-65 | a new pathname followed by the sync effect |
| UseTranslation.TranslationProvider.LoadTranslations | src/hooks/useTranslation.tsx:45-52 | a successful load replaces the dictionary; a failed one keeps it |
| UseTranslation.TranslationProvider.Lookup | src/hooks/useTranslation.tsx:71-84 | `t(key)` on the current dictionary |
| UseTranslation.TranslationProvider.ChangeLanguage | src/hooks/useTranslation.tsx:108-117 | sets and saves the language, replaces the URL with the translated path, after which the sync effect changes nothing |
| UseTranslation.TranslationProvider.ToggleLanguage | src/hooks/useTranslation.tsx:119-122 | fr becomes nl and anything else becomes fr, with the URL translated accordingly |
| Middleware.HasLocale | src/middleware.ts:7-9 | `pathnameHasLocale` as `locales.some(...)` over fr then nl; HasLocaleIff spells it out and PrefixIsNotLocale gives its edge cases |
| Middleware.HasLocaleIff | src/middleware.ts:7-9 | `hasLocale` holds iff the path is `/fr`, `/nl` or starts with `/fr/` or `/nl/` |
| Middleware.PrefixIsNotLocale | src/middleware.ts:7-9 | `/french` and `/nlx/a` have no locale; `/fr/` and `/nl/diensten` do |
| Middleware.LocalizedSegment | src/middleware.ts:7-12 | a localized path's second split piece is its code, and its locale is unique |
| Middleware.PathLocale | src/middleware.ts:7-12 | the locale found in the path |
| Middleware.GetLocale | src/middleware.ts:5-23 | the path's locale if it has one; else nl iff the header contains "nl"; else fr |
| Middleware.GetLocaleIgnoresHeader | src/middleware.ts:11-13 | with a locale in the path, the header does not matter |
| Middleware.HeaderSubstring | src/middleware.ts:16-22 | examples: "nl-BE,..." gives nl; "en-US" and no header give fr |
| Middleware.RedirectTarget | src/middleware.ts:25-40 | redirect iff the path has no locale, to `/<code>` + path |
| Middleware.RedirectLocale | src/middleware.ts:36-37 | the redirect's code follows the header rule |
| Middleware.RedirectIdempotent | src/middleware.ts:29-37 | a redirected path starting with `/` is never redirected again |
| Middleware.RedirectWithoutSlash | src/middleware.ts:37 | a path without a leading slash is glued on (`x` to `/frx`) and redirected again |
| Middleware.HrefsPassThrough | src/middleware.ts:29-33 | every `getLocalizedRoute` href passes, and its locale is read back |
| Middleware.TranslatedPassThrough | src/middleware.ts:29-33 | every `translateRoute` result passes, with the target locale |
| Middleware.Request.constructor | src/middleware.ts:25-26 | a request with its pathname and header |
| Middleware.Request.Middleware | src/middleware.ts:25-40 | returns the redirect and rewrites the pathname to it |
| ServiceNavigation.FindIndex | src/components/ServiceNavigation.tsx:30-32 | the index of the first service whose href is the path, or -1 iff there is none |
| ServiceNavigation.CurrentIndex | src/components/ServiceNavigation.tsx:30-32 | the index of the first service whose href is the path, in range, or -1 exactly when no service page matches |
| ServiceNavigation.Prev | src/components/ServiceNavigation.tsx:38-41 | the previous index, wrapping, stays in range |
| ServiceNavigation.Next | src/components/ServiceNavigation.tsx:43-46 | the next index, wrapping, stays in range |
| ServiceNavigation.PrevNextModular | src/components/ServiceNavigation.tsx:38-46 | previous and next are `(i - 1) mod 7` and `(i + 1) mod 7` |
| ServiceNavigation.PrevNextInverse | src/components/ServiceNavigation.tsx:38-46 | previous and next undo each other |
| ServiceNavigation.SlugsDistinct | src/components/ServiceNavigation.tsx:8-24 | the seven slugs and hrefs are pairwise distinct |
| ServiceNavigation.CurrentIndexOfPage | src/components/ServiceNavigation.tsx:30-32 | each service page finds its own index |
| ServiceNavigation.Navigation | src/components/ServiceNavigation.tsx:30-46 | no links iff the path is no service page; otherwise the wrapped neighbours |
| ServiceNavigation.NoLinksOffServicePages | src/components/ServiceNavigation.tsx:30-35 | /services and a trailing-slash variant get no links |
| ServiceNavigation.LocalizedServicePagesShowNothing | src/components/ServiceNavigation.tsx:26-35 | on a locale-prefixed service page `/<code>/services/<slug>` the component's exact match finds no service, so no links are rendered; the services layout's gate (layout.tsx:16-19 of the services route) fails there too |
| ServiceNavigation.NeighboursDistinct | src/components/ServiceNavigation.tsx:38-46 | previous, current and next are three different services |
| ServiceNavigation.NextThenPrevious | src/components/ServiceNavigation.tsx:38-54 | following "next" and then "previous" comes back to the page |
| BlogSection.Flatten | src/components/BlogSection.tsx:30-33 | every post's categories, in post order, a post without categories adding none; FlattenSnoc, FlattenAppend, UncategorisedContributesNothing and FlattenHasPost carry its properties |
| BlogSection.Dedup | src/components/BlogSection.tsx:34-36 | keep-first de-duplication by id; DedupNoDuplicates, DedupCoversIds, DedupFromInput, DedupKeepsFirst and DedupFirstOrder carry its properties |
| BlogSection.AllCategories | src/components/BlogSection.tsx:30-42 | the reduce loop equals keep-first de-duplication by id of the flattened categories |
| BlogSection.DedupSnoc | src/components/BlogSection.tsx:34-36 | one more category is appended iff its id is new |
| BlogSection.FlattenSnoc | src/components/BlogSection.tsx:31-33 | one more post appends its categories |
| BlogSection.DedupNoDuplicates | src/components/BlogSection.tsx:34-36 | the list has no repeated id |
| BlogSection.DedupCoversIds | src/components/BlogSection.tsx:30-42 | an id is listed iff some post carries it |
| BlogSection.DedupFromInput | src/components/BlogSection.tsx:34-35 | every listed category comes from a post |
| BlogSection.FirstOf | src/components/BlogSection.tsx:34 | the position of the first category with an id |
| BlogSection.FirstOfPrefix | src/components/BlogSection.tsx:34 | a first occurrence in a prefix is the first overall |
| BlogSection.PrefixPositions | src/components/BlogSection.tsx:34-36 | the prefix's listed ids keep their first positions |
| BlogSection.NewIsFirst | src/components/BlogSection.tsx:34-36 | an appended new id first occurs at the end |
| BlogSection.DedupKeepsFirst | src/components/BlogSection.tsx:34-36 | each listed category is the first one seen with its id |
| BlogSection.DedupFirstOrder | src/components/BlogSection.tsx:30-42 | the list is ordered by first appearance |
| BlogSection.UncategorisedContributesNothing | src/components/BlogSection.tsx:32 | a post without categories adds nothing |
| BlogSection.FlattenAppend | src/components/BlogSection.tsx:30-42 | flattening distributes over concatenation |
| BlogSection.FilterByCategory | src/components/BlogSection.tsx:46-48 | a filter keeps no more posts than it is given |
| BlogSection.FilterMembers | src/components/BlogSection.tsx:46-48 | a post is kept iff it carries the category |
| BlogSection.FilterAppend | src/components/BlogSection.tsx:46-48 | the filter keeps order and distributes over concatenation |
| BlogSection.FilteredPosts | src/components/BlogSection.tsx:45-49 | the shown posts are never more than the posts; NoSelectionShowsAll and SelectionShowsCarriers say which they are |
| BlogSection.NoSelectionShowsAll | src/components/BlogSection.tsx:45-49 | no selection, or "", shows every post |
| BlogSection.SelectionShowsCarriers | src/components/BlogSection.tsx:45-48 | a selection shows exactly the posts carrying it |
| BlogSection.ListedCategoryShowsPosts | src/components/BlogSection.tsx:30-49 | a listed category never filters to an empty grid |
| BlogSection.FlattenHasPost | src/components/BlogSection.tsx:30-38 | a flattened category belongs to some post |
| Sitemap.StaticUrls | src/app/sitemap.ts:9-64 | nine static entries on the base URL, dated now |
| Sitemap.StaticPriorities | src/app/sitemap.ts:9-64 | priorities 1.0, 0.9 and 0.7 where listed, 0.8 elsewhere |
| Sitemap.BlogUrls | src/app/sitemap.ts:80-85 | fails iff some post has no `slug` object (`post.slug.current` throws); otherwise one entry per post, in order, at `/blog/<slug.current>` (the text "undefined" when `current` is missing), dated by the post's `_updatedAt`, monthly, priority 0.6 |
| Sitemap.Sitemap | src/app/sitemap.ts:66-88 | a failed fetch gives the nine static entries alone; a fetched list gives no sitemap iff some post lacks its slug, and otherwise the nine static entries followed by exactly the post entries of BlogUrls; every URL starts with the base URL |
| Sitemap.StaticPathsAreUnlocalized | src/app/sitemap.ts:9-64 | no static path carries a locale |
| Sitemap.BlogPathsAreUnlocalized | src/app/sitemap.ts:81 | no blog path carries a locale |
| SeoMetadata.Or | src/app/metadata.ts:40-45 | `a \|\| b`: a present non-empty a, else b |
| SeoMetadata.GenerateMetadata | src/app/metadata.ts:40-103 | the metadata object built from the optional arguments; CanonicalPrecedence, TopLevelFallback, SocialTitlesAgree, PageUrlAgrees, ImageFallback, ConstantFields and EmptyIsAbsent carry its properties |
| SeoMetadata.CanonicalPrecedence | src/app/metadata.ts:40-54 | canonical beats url, which beats the site URL |
| SeoMetadata.TopLevelFallback | src/app/metadata.ts:44-45 | title and description fall back to the site's |
| SeoMetadata.SocialTitlesAgree | src/app/metadata.ts:55-99 | Open Graph, Twitter and the extra tags share the title and description |
| SeoMetadata.PageUrlAgrees | src/app/metadata.ts:63-95 | Open Graph and the extra tags share the page URL |
| SeoMetadata.ImageFallback | src/app/metadata.ts:64-79 | the image falls back to the site image everywhere alike |
| SeoMetadata.ConstantFields | src/app/metadata.ts:43-102 | the same for all calls: keywords, authors, creator, publisher, robots and the base URL; the OpenGraph type, locale, site name, and image width, height and alt; the Twitter card; the set of tags in `other` and the value of every tag but `og:url`, `og:title` and `og:description` |
| SeoMetadata.EmptyIsAbsent | src/app/metadata.ts:40-99 | an empty title, url or canonical is the same as none |
| SeoMetadata.DefaultMetadata | src/app/metadata.ts:106 | the exported default, `generateMetadata()` with every argument absent; DefaultMetadataFields gives its fields |
| SeoMetadata.DefaultMetadataFields | src/app/metadata.ts:106 | the default metadata uses the site's title, URL and image |
| ServicesCarousel.TotalSliderWidth | src/components/ServicesCarousel.tsx:164-171 | seven cards, six gaps and the padding: 2416 px |
| ServicesCarousel.CalculateBounds | src/components/ServicesCarousel.tsx:160-184 | no bounds iff an element is missing; else minX = width - 2366, maxX = 0 |
| ServicesCarousel.BoundsOrder | src/components/ServicesCarousel.tsx:174-182 | minX <= maxX iff the viewport is at most 2366 px wide |
| ServicesCarousel.ScrollLeftTarget | src/components/ServicesCarousel.tsx:227-228 | one card to the right, capped at 0 |
| ServicesCarousel.ScrollRightTarget | src/components/ServicesCarousel.tsx:244-245 | one card to the left, capped at minX |
| ServicesCarousel.ArrowsStayInBounds | src/components/ServicesCarousel.tsx:223-252 | from inside the bounds, both arrows stay inside and move at most one card |
| ServicesCarousel.ArrowsUndoEachOther | src/components/ServicesCarousel.tsx:223-252 | away from the edges, left and right undo each other |
| ServicesCarousel.WideViewportOvershoots | src/components/ServicesCarousel.tsx:170-245 | at 2500 px, minX is 134 and the right arrow moves to +134 |
| ServicesCarousel.Carousel.constructor | src/components/ServicesCarousel.tsx:75-121 | mount: with the cards mounted the timeline for the initial prop (entrance if visible, else exit) runs; no timer, no draggable |
| ServicesCarousel.Carousel.RunDraggableEffect | src/components/ServicesCarousel.tsx:255-269 | as written (`useGSAP` with dependencies, cleanups deferred to unmount), a re-run only adds a 100 ms timer under the gate and leaves the earlier timer and draggable alive; with cleanups on every re-run it first clears the timer and kills the draggable |
| ServicesCarousel.Carousel.SetVisible | src/components/ServicesCarousel.tsx:92-157 | an unchanged prop changes nothing; a changed one kills the running timeline, starts the entrance or exit timeline when the cards are mounted and closes the gate; as written the draggable, its count of unkilled instances and pending timers survive |
| ServicesCarousel.Carousel.TimelineComplete | src/components/ServicesCarousel.tsx:105-128 | a running timeline completes: entrance sets `animationComplete`, exit clears it, both clear `isAnimating`; the effect re-run adds a timer exactly when the gate opens, the old draggable untouched as written |
| ServicesCarousel.Carousel.TimerFires | src/components/ServicesCarousel.tsx:187-260 | a pending timer creates a draggable with the bounds measured when it fires, whatever the visibility then is; the one it replaces is not killed, so one more instance is unkilled |
| ServicesCarousel.Carousel.ScrollLeft | src/components/ServicesCarousel.tsx:223-235 | returns early iff the carousel or the draggable is missing; otherwise the target is one card to the right, capped at 0 |
| ServicesCarousel.Carousel.ScrollRight | src/components/ServicesCarousel.tsx:237-252 | returns early iff the carousel or the draggable is missing; otherwise the target is one card to the left, floored at minX |
| ServicesCarousel.Carousel.ClickArrow | src/components/ServicesCarousel.tsx:323-350 | a click on a disabled arrow (`!isVisible \|\| !animationComplete`) does nothing; an enabled one runs the scroll handler |
| ServicesCarousel.Carousel.Unmount | src/components/ServicesCarousel.tsx:151-269 | the collected cleanups kill the timeline, clear the timers and kill only the draggable the ref still holds; with cleanups on every re-run nothing is left unkilled |
| ServicesCarousel.ReshowKeepsDraggable | src/components/ServicesCarousel.tsx:92-269 | as written: after the entrance, a hide and a re-show before the exit ends keep the first draggable, so during the re-entrance the arrows are enabled and the left arrow still scrolls |
| ServicesCarousel.ReshowDuringExit | src/components/ServicesCarousel.tsx:92-269 | with cleanups on every re-run, the same hide and re-show kill the draggable, and the left arrow does nothing until a new one is created |
| ServicesCarousel.TimerAfterHide | src/components/ServicesCarousel.tsx:255-269 | as written: a timer set before a hide still fires and creates a live draggable on the hidden carousel, while the disabled arrows do nothing |
| ServicesCarousel.SecondEntranceLeaks | src/components/ServicesCarousel.tsx:255-269 | as written: two entrances create two draggables and unmount kills only the one in the ref, so one stays unkilled |
| ServicesCarousel.SecondEntranceReleased | src/components/ServicesCarousel.tsx:255-269 | with cleanups on every re-run, the same sequence leaves no draggable unkilled |
| FlipBoard.Tilt | src/components/FlipBoard.tsx:74-81 | the tilt is the column rule applied to `index % 6`, one of six values |
| FlipBoard.TiltTable | src/components/FlipBoard.tsx:75-81 | columns 0 to 5 tilt by -40, -20, -10, 10, 20, 40 |
| FlipBoard.TiltAntisymmetric | src/components/FlipBoard.tsx:75-81 | mirrored columns tilt oppositely |
| FlipBoard.TiltPerColumn | src/components/FlipBoard.tsx:75 | tiles in one column tilt alike |
| FlipBoard.AnimateTile | src/components/FlipBoard.tsx:19-42 | a spin starts at 0 or 180 (flipped) and ends one full turn later, facing the same way |
| FlipBoard.FlipTarget | src/components/FlipBoard.tsx:44-55 | flip-all turns every tile to the face a hover would start from |
| FlipBoard.Board.constructor | src/components/FlipBoard.tsx:57-65 | one zeroed time slot per tile found |
| FlipBoard.Board.MouseEnter | src/components/FlipBoard.tsx:69-85 | a hover animates iff more than 1000 ms passed since the tile's last accepted hover; only that tile's time changes |
| FlipBoard.Board.FlipAll | src/components/FlipBoard.tsx:44-55 | negates the flag and turns to the new side |
| FlipBoard.CooldownScenario | src/components/FlipBoard.tsx:69-85 | hovers at 3000, 4000 and 5000 ms spin, are ignored, then spin; other tiles are untouched |
| Faq.Toggled | src/components/FAQ.tsx:27-29 | clicking the open item closes it; any other opens alone |
| Faq.LineRotation | src/components/FAQ.tsx:73 | the line turns 90 degrees iff its answer is shown |
| Faq.ChevronRotation | src/components/FAQ2.tsx:64 | the chevron turns 180 degrees iff its answer is shown |
| Faq.AtMostOneShown | src/components/FAQ.tsx:83 | at most one answer is shown |
| Faq.ToggleShows | src/components/FAQ2.tsx:27-76 | a toggle shows its item iff it was hidden, and hides every other |
| Faq.ToggleTwice | src/components/FAQ.tsx:27-29 | a double toggle restores a closed or same-item state, and closes another open item |
| Faq.Accordion.constructor | src/components/FAQ.tsx:25 | all closed |
| Faq.Accordion.Toggle | src/components/FAQ2.tsx:25-29 | the new state is the toggle rule |
| Faq.Accordion.Render | src/components/FAQ.tsx:73-83 | the answer and both indicators follow the open index |
| Faq.OpenTwoThenFour | src/components/FAQ2.tsx:25-29 | opening 2 then 4 shows only 4; toggling 4 again closes all |
| PageLoader.TimelineEnd | src/components/PageLoader2.tsx:119-164 | a timeline's end is the latest end of its tweens, placed by their offsets |
| PageLoader.StaggeredDuration | src/components/PageLoader2.tsx:154-164 | a staggered tween lasts one tween plus the stagger for each later block |
| PageLoader.ExitDuration | src/components/PageLoader2.tsx:119-164 | the exit timeline lasts 2185 ms |
| PageLoader.CreateBlocks | src/components/PageLoader2.tsx:46-67 | twenty blocks in order when the overlay exists, else none |
| PageLoader.Overflow | src/components/PageLoader2.tsx:25-42 | scrolling is locked iff the loader is mounted and visible |
| PageLoader.Loader.constructor | src/components/PageLoader2.tsx:22-177 | visible, scroll locked, blocks created, the 100 ms timer pending |
| PageLoader.Loader.Hide | src/components/PageLoader2.tsx:114-122 | hides the loader and unlocks scrolling |
| PageLoader.Loader.StartExitAnimation | src/components/PageLoader2.tsx:104-165 | missing elements: hide and complete at once; else start the exit timeline |
| PageLoader.Loader.Step | src/components/PageLoader2.tsx:69-177 | each timer or timeline event does its one transition and the rank of the pending task falls: the 100 ms check sets the 600 ms check (or gives up), the 600 ms check starts the exit at 600 ms when the document is loaded (else sets the 2100 ms timer), the 2100 ms timer starts the exit at 2100 ms, and the exit timeline's end hides the loader |
| PageLoader.Loader.Unmount | src/components/PageLoader2.tsx:38-41 | the cleanup unlocks scrolling |
| PageLoader.Loader.Render | src/components/PageLoader2.tsx:183 | renders iff visible |
| PageLoader.Loader.Settle | src/components/PageLoader2.tsx:69-177 | from mount, the chain ends with exactly one completion, after a ready call iff the loader ran, by 4285 ms, with the exit started at 600 ms when the document is loaded and at 2100 ms otherwise (never when the loader gave up), and scrolling unlocked when hidden |
| ClientLayout.Layout.constructor | src/components/ClientLayout.tsx:17-18 | no loader, content not loaded |
| ClientLayout.Layout.Mount | src/components/ClientLayout.tsx:20-28 | shows the loader and adds `page-loader-active` |
| ClientLayout.Layout.HandleReady | src/components/ClientLayout.tsx:30-33 | adds `page-loader-ready` to the html element |
| ClientLayout.Layout.HandleComplete | src/components/ClientLayout.tsx:35-48 | hides the loader, swaps the body classes, sets the html flag, then dispatches the event |
| ClientLayout.Layout.RendersLoader | src/components/ClientLayout.tsx:52-57 | the loader is rendered iff `showLoader` |
| ClientLayout.FlagBeforeEventAppend | src/components/ClientLayout.tsx:44-47 | a dispatch after setting the flag keeps every event's flag |
| ClientLayout.FirstLoad | src/components/ClientLayout.tsx:20-57 | the first load always ends with the content loaded, exactly one event with the flag set, `page-loader-ready` iff the loader ran, and scrolling unlocked |
| PageTransition.CreateBlocks | src/components/PageTransition4.tsx:51-72 | twenty blocks in order when the overlay exists, else the blocks stay as they were |
| PageTransition.AttachOnPage | src/components/PageTransition4.tsx:193-197 | every attached listener closes over the run's pathname and sits on an anchor of the page; at most one per anchor |
| PageTransition.AttachCovers | src/components/PageTransition4.tsx:193-197 | every anchor whose href starts with `/` gets a listener |
| PageTransition.AttachSnoc | src/components/PageTransition4.tsx:193-197 | one more anchor adds a listener on it iff its href starts with `/` |
| PageTransition.AttachListeners | src/components/PageTransition4.tsx:193-197 | the `forEach` loop attaches exactly the listeners of `Attach`: one per internal anchor, in document order |
| PageTransition.Prune | src/components/PageTransition4.tsx:193-206 | after a route change the older listeners left are exactly those on anchors still in the document |
| PageTransition.PathOf | src/components/PageTransition4.tsx:187 | the path is the href up to any `?` or `#` |
| PageTransition.PathOfPlain | src/components/PageTransition4.tsx:187 | a plain path is its own path |
| PageTransition.AllInternal | src/components/PageTransition4.tsx:193-197 | a page whose anchors are all internal gets one listener per anchor, in order |
| PageTransition.Transition.constructor | src/components/PageTransition4.tsx:24-207 | mount: refs false and scroll free, then the effect's first run: blocks built, a reveal iff the session flag says "true", listeners on every internal anchor |
| PageTransition.Transition.SetBlockScroll | src/components/PageTransition4.tsx:27-47 | the overflow effect locks both elements iff scroll is blocked |
| PageTransition.Transition.EffectRun | src/components/PageTransition4.tsx:162-197 | builds the blocks, reveals iff navigated or the session flag is set, marks mounted and attaches listeners; the listeners of earlier runs stay |
| PageTransition.Transition.RevealIfNavigated | src/components/PageTransition4.tsx:168-174 | with `hasNavigated` or the session flag "true" the scroll locks, a reveal starts and the flag is removed; otherwise nothing changes |
| PageTransition.Transition.HandleRouteChange | src/components/PageTransition4.tsx:92-182 | accepted iff not transitioning and mounted; then flag set and either an immediate push or a cover with scrolling locked |
| PageTransition.Transition.LinkClick | src/components/PageTransition4.tsx:184-191 | the default is prevented iff some listener sits on the anchor, always for an internal one; a route change is accepted iff some listener there closes over a path other than the clicked one and the guard is open; with cleanups on every re-run an accepted click always changes the path |
| PageTransition.Transition.CoverComplete | src/components/PageTransition4.tsx:107-113 | clears the guard, records the navigation, pushes the URL and keeps scrolling locked |
| PageTransition.Transition.RevealComplete | src/components/PageTransition4.tsx:85-88 | clears the guard and unlocks scrolling |
| PageTransition.Transition.CommitNavigation | src/components/PageTransition4.tsx:162-206 | the router takes the oldest push and hands it to PathChanged: a pushed path equal to the pathname changes nothing else; a new one replaces the document, keeps the older listeners on surviving anchors (none with cleanups on every re-run) and re-runs the effect |
| PageTransition.Transition.PathChanged | src/components/PageTransition4.tsx:49-206 | any change of the pathname (a push, a language switch's `replaceState`, back or forward) re-runs the effect: the document is replaced, the older listeners on surviving anchors stay, the current run's listeners are attached, and the page is revealed with scrolling locked iff a navigation happened; with `revertOnUpdate` the context revert first drops the older listeners and kills the running reveals, so only the new one runs; the same pathname changes nothing |
| PageTransition.Transition.Unmount | src/components/PageTransition4.tsx:42-204 | the collected cleanups remove every listener of every run and unmount the handlers, the context revert kills the running reveals, and scrolling is released; the guard, the session flag, the blocks, the covers and the pushes are unchanged |
| PageTransition.NavigateOnce | src/components/PageTransition4.tsx:75-197 | click, cover, push, reveal: the new page is shown with scrolling unlocked; as written the link keeps the first run's listener beside the new run's, and with cleanups on every re-run only the new one is left |
| PageTransition.MissingRefsNavigation | src/components/PageTransition4.tsx:93-103 | without blocks the push is immediate and the guard stays set until the reveal, so a second click is ignored |
| PageTransition.RevealEndsDuringCover | src/components/PageTransition4.tsx:75-182 | a reveal ending during a cover unlocks scrolling and lets a second cover start |
| PageTransition.ClickDuringFirstReveal | src/components/PageTransition4.tsx:75-206 | a click during the reveal that follows a reload with the session flag set: after the navigation two reveals are counted as written, one with the context reverted on every re-run |
| PageTransition.LanguageSwitchReplaysReveal | src/components/PageTransition4.tsx:162-206 | after one navigation, a `replaceState` to another pathname plays a reveal with scrolling locked, and the layout link then carries three listeners, one per run |
| PageTransition.PruneSameAnchor | src/components/PageTransition4.tsx:184-204 | listeners on an anchor the new document keeps all survive the route change |
| PageTransition.SameLinkTwiceStaysCovered | src/components/PageTransition4.tsx:184-206 | as written: after one navigation, a second click on the same link starts a cover and pushes the current path; nothing reveals the page, which stays covered with the scroll locked |
| PageTransition.SameLinkTwiceIgnored | src/components/PageTransition4.tsx:184-206 | with cleanups on every re-run the same second click is prevented and ignored, and scrolling stays free |

## Left out

- Rendering, styling, GSAP easing and staggered offsets are left out. The loader's exit timeline is kept as tween offsets and durations, which give its end time. Other animations are completion events only.
- The 3D canvases, scroll effects, animated text, the theme toggle, the contact form and the analytics are not part of this model. They have no logic beyond presentation.
- The variants that the layout does not use are not modelled: src/components/PageTransition.tsx, src/components/PageTransition3.tsx, src/components/PageLoader.tsx and the navigation menus.
- The CMS fetch in the sitemap is a parameter (a post list or a failure). `new Date()` is the constant `Now`.
- `localStorage`, `sessionStorage`, the router and the history are fields of the classes. Pushes are a queue that `CommitNavigation` takes from. Any other change of the pathname is a `PathChanged` call.
- UseTranslation.Translate: JavaScript's prototype-chain lookups are not modelled. A key such as `constructor` would reach a function and still show as the key.
- RouteTranslations.Localize, Navigation.GetLocalizedRoute, UseTranslation.TranslateRoute: `routeTranslations[language][slug]` also indexes a plain object, so a slug such as `constructor` reaches `Object`'s constructor and gives an href like `/fr/function Object() { [native code] }`. The model looks only at the table's own keys and keeps such a slug.
- UseTranslation.TranslationProvider.LoadTranslations: the asynchronous race between two loads is not modelled. A load completes with the dictionary or fails.
- The crash of `routeTranslations[language]` for an unvalidated initial language is not modelled. `changeLanguage` and `translateRoute` take a `Lang`.
- A null `usePathname()` is not modelled.
- UseTranslation.TranslationProvider.ChangeLanguage: `window.history.replaceState` (src/hooks/useTranslation.tsx:111) is taken to update the pathname `usePathname` reports at once.
- PageLoader.Loader.Unmount: the cleanup only releases the scroll. The pending timer or exit timeline is left in place, as the source does not cancel it, and later `Step` calls let it fire. What React does with state updates after unmount is not modelled.
- PageTransition.Transition.EffectRun: effects run at settled-state granularity. React's batching order within one render is not modelled.
- `useGSAP` is modelled with a per-instance flag `revertOnUpdate`. False is the code as written: with `dependencies` and no `revertOnUpdate: true`, the cleanups a callback returns are collected and run only at unmount. True is `revertOnUpdate: true`: before every re-run the context is reverted, which runs the returned cleanup and kills the tweens the previous run created (the page transition's reveals). The findings below use it as the corrected version.
- ServicesCarousel.Carousel.ScrollLeft, ServicesCarousel.Carousel.ScrollRight: the handlers alone do not promise to do nothing while the arrows are disabled, because they do not check. `ClickArrow` carries the `disabled` attribute.
- ServicesCarousel.Carousel.TimerFires: whether `Draggable.create` on an element that already has a draggable replaces or stacks it inside GSAP is not modelled. The model counts every created instance that nothing kills.
- PageTransition.Transition.Valid: it does not require the older listeners to sit on the current page's anchors. `CommitNavigation` states that of the listeners surviving a route change through `Prune`.
- The sitemap's `post.slug.current` on a post without a `slug` object throws outside the `try`, so no sitemap is produced. The model returns `None` for it. A `slug` object without `current` gives the text "undefined".
- Listener removal on the flip board is not modelled. Hovers are method calls on a mounted board.
- ServicesCarousel.CalculateBounds: pixels are integers. `offsetWidth` is an integer in the DOM too, but the `currentX` that `gsap.getProperty` reads (src/components/ServicesCarousel.tsx:226, 243) can be fractional, and that is not modelled.
- ServicesCarousel.Carousel: the container's `offsetWidth` is a constant for the component's life; a resize is not modelled. In the source a resize leaves the draggable with the bounds measured when it was created, while `scrollRight` measures again on every click (src/components/ServicesCarousel.tsx:240). `Valid`'s `draggable == CalculateBounds(...)` and `ScrollRight`'s floor at `draggable.value.minX` hold only because the width is fixed.
- SeoMetadata.GenerateMetadata: `metadataBase` is kept as the URL string.
- An anchor element is an identity and its `href` attribute. Which anchors a route change keeps (those of the layout) and which it replaces is the `anchors` argument of `PathChanged`, which `CommitNavigation` calls for a push.
- PageTransition.Transition.LinkClick: anchors added to the document after the effect's last run, by a render that does not change the pathname, are not modelled. In the source they have no listener and navigate through Next's `<Link>` with no cover. `page` holds only the anchors present at the last run, so `StartsWith(a.href, "/") ==> prevented` speaks only of those.
- PageTransition.Transition.PathChanged: the language switch of `TranslationProvider.ChangeLanguage` and the browser's back and forward buttons reach it as method calls; the two classes are not composed into one model of the page.
- PageLoader.Loader, PageTransition.Transition: both components write the same `document.body.style.overflow` and `document.documentElement.style.overflow` (src/components/PageLoader2.tsx:25-42, src/components/PageTransition4.tsx:30-47), and the last write wins. The model gives each class its own copy of the two fields, so that interaction is not modelled. For example, after a reload with the session flag set, the transition's reveal ends after about 885 ms and unlocks scrolling while the loader still covers the page.
- Middleware.Request.Middleware, Middleware.RedirectTarget: the `config.matcher` (src/middleware.ts:42-44) is not modelled. It keeps the middleware away from paths under `_next`, `api` and `favicon.ico` and from any path with a dot, such as `/a.png`. The model applies the middleware to every path.
- PageTransition.PathOf: `new URL(href).pathname` is modelled only for site-relative hrefs. It strips the query and the fragment. Absolute URLs, `..` segments and percent-encoding are not covered.
- PageTransition.RevealEndsDuringCover shows that the scroll lock and the guard can be released during a cover. That a lock is eventually released under overlapping transitions is not proved.

## Findings

| source | as written | input that shows it | evidently intended | confidence | as-written member | corrected member |
|---|---|---|---|---|---|---|
| src/components/PageTransition4.tsx:184-206 | the listeners of every effect run stay on the layout's links until unmount, each closing over the pathname of its own run | visit `/fr`, click the menu link to `/fr/about`, then click the same link again | a click on a link to the current page is ignored, as `url !== pathname` means to do | medium, not executed | PageTransition.SameLinkTwiceStaysCovered | PageTransition.SameLinkTwiceIgnored |
| src/components/ServicesCarousel.tsx:255-269 | the draggable effect's cleanup (clear the timer, kill the draggable) runs only at unmount | mount visible; let the entrance and its 100 ms timer finish; hide and let the exit finish; show and let the entrance and the timer finish; unmount | each re-run first undoes the previous run, so one draggable at most is alive and none after unmount | low, not executed | ServicesCarousel.SecondEntranceLeaks | ServicesCarousel.SecondEntranceReleased |
