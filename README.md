# Subdomain routing and sitemaps of a multi-city marketing site

This project is a Dafny model of the non-visual logic of a Next.js site that serves one
page tree per US state (`az.<root>`) and per city (`american-canyon-ca.<root>`) from a
single deployment:

- **Two host routers.** `middleware.ts` and its variant `proxy.ts` read the Host header
  and turn each request into a pass-through, an internal rewrite into `/state-sites/<code>…`
  or `/city-sites/<slug>…`, or an answer for a direct hit on those internal paths: a hard
  404 from the middleware, or a 308 redirect to the matching subdomain from the proxy.
  The proxy also serves three legacy sitemap names from the city's `sitemap.xml`.
- **Host classifiers.** The per-host sitemap (`app/sitemap.ts`) and robots handler
  (`app/robot.ts`) each have their own copy. Both lower-case the host first.
- **City data queries** (`lib/city-data.ts`) over a directory of JSON files:
  - slugs from the listing;
  - lookup by slug;
  - all cities;
  - grouping by upper-cased state code;
  - per-state summaries sorted by name;
  - the cities of one state.
- **Per-host URL list** (`app/sitemap.ts`).
- **Two XML documents** served on the root domain: `main-sitemap.xml` and
  `sitemap-index.xml`.

The files follow the modules of the source:

| file | module | models |
|---|---|---|
| `wrappers.dfy` | `Wrappers` | `Option` |
| `text.dfy` | `Text` | string operations: prefix and suffix tests, ASCII case mapping, `split`/`join`, `filter(Boolean)`, `replace` of a first occurrence, `join("")`, lexicographic order |
| `hosts.dfy` | `Hosts` | the 50 state codes, port stripping with `replace(/:.*$/, "")`, the `.<root>` suffix test and slice, the environment fallbacks |
| `middleware.dfy` | `MiddlewareRouter` | `middleware` as a total function to a `Decision` |
| `proxy.dfy` | `ProxyRouter` | `proxy`, and how it differs from `middleware` |
| `city_data.dfy` | `CityStore` | `lib/city-data.ts`; the `reduce` that fills a dictionary is a method with a loop |
| `sitemap.dfy` | `HostSitemap` | `getSubdomainInfo` and the `sitemap` method with its two `push` loops |
| `robots.dfy` | `Robots` | `detectSubdomainType` and `robots` |
| `lastmod.dfy` | `Lastmod` | the `.replace(/\.\d{3}Z$/, "+00:00")` applied to ISO timestamps |
| `main_sitemap.dfy` | `MainSitemapXml` | the `GET` handler of `main-sitemap.xml`, as a method with its loop |
| `sitemap_index.dfy` | `SitemapIndexXml` | the `GET` handler of `sitemap-index.xml`, as a method with its loop |

## Inputs

Request and environment data become parameters:

- The Host header is an `Option<string>`; a missing header reads as `""`.
- `NEXT_PUBLIC_ROOT_DOMAIN` is an `Option<string>`; unset or empty selects the handler's
  own fallback.
- The request path is a `string`.

The data directory is a value `DataDir`:
- `listing` is `None` when `readdirSync` throws.
- `files` maps a file name to `Some(city)` when the file reads and parses, and to `None`
  when reading or parsing fails.

The clock is an input:
- The `now` of `sitemap()` is an `int`.
- The random or current instants of the XML handlers are passed as the ISO strings that
  `toISOString` would give for them.

## Model

| member | source | states |
|---|---|---|
| Hosts.StripPort | middleware.ts:27-28 | the result is a prefix of the input; on input without a line terminator it holds no ':' and, when shorter, stops exactly at the input's first ':' |
| Hosts.StripPortOfNamePort | middleware.ts:27-28 | `name:port` is stripped to `name` for any port without a line terminator |
| Hosts.StripPortNoColon | middleware.ts:27-28 | a name without ':' is unchanged |
| Hosts.StripPortLower | app/sitemap.ts:19-20 | lower-casing commutes with port stripping |
| Hosts.RootDomain | app/robot.ts:30 | an unset or empty variable selects the fallback, any other value is used as is |
| Hosts.HostHeader | app/robot.ts:29 | a missing Host header reads as the empty string |
| Hosts.SubdomainOf | middleware.ts:43-48 | a subdomain exists iff the host ends with `.`+root, and the host is then exactly subdomain + `.` + root |
| Hosts.SubdomainOfLabel | middleware.ts:43-48 | the subdomain of `name.root` is `name`, for every name |
| Hosts.UsStateListShape | middleware.ts:13-19 | the state list has 50 codes, each of two characters |
| MiddlewareRouter.RoutedSubdomain | middleware.ts:41-55 | no routed subdomain iff the host lacks the suffix, is `www.`+root or is `.`+root; a routed one is non-empty, not `www`, and host = sub + `.` + root |
| MiddlewareRouter.SubdomainOfRootCases | middleware.ts:50 | the extracted subdomain is `www` iff the host is `www.`+root, and empty iff the host is `.`+root |
| MiddlewareRouter.Middleware | middleware.ts:21-84 | a raw path starting with `/city-sites` or `/state-sites` gets the 404 rewrite whatever the host; any other path passes through or is rewritten into one of the two namespaces, ending with the original path unless that is `/`; the middleware never redirects |
| MiddlewareRouter.RewriteTarget | middleware.ts:64-67 | the rewritten path starts with prefix + sub and, for a path other than `/`, ends with the path |
| MiddlewareRouter.PassThroughCases | middleware.ts:41-55 | off the internal paths, a request passes through iff the stripped host lacks `.`+root, is `www.`+root, or is `.`+root |
| MiddlewareRouter.SubdomainRewrite | middleware.ts:57-83 | for a host `sub.root`, the lower-cased sub selects `/state-sites/` when it is a 2-character listed code and `/city-sites/` otherwise; path `/` maps to the bare prefix+sub, any other path is appended |
| ProxyRouter.Proxy | proxy.ts:20-107 | an internal path with fewer than two non-empty segments gets the 404 rewrite; with two or more, a 308 to `<second segment>.<rootWithoutPort>` whose path splits back into the segments after the second; any other path passes through or is rewritten into one of the two namespaces, and a city rewrite never ends in a legacy sitemap name |
| ProxyRouter.InternalRedirect | proxy.ts:35-51 | a redirect iff there are at least two segments, else the 404 rewrite; the redirect is a 308 to `parts[1].<rootWithoutPort>`, and for clean segments its path splits back into `parts[2..]` |
| ProxyRouter.RedirectPathParts | proxy.ts:37-43 | `/` + non-empty slash-free segments joined by `/` splits back into those segments |
| ProxyRouter.PathPartsAreSegments | proxy.ts:35 | every piece of `split("/").filter(Boolean)` is non-empty and holds no `/` |
| ProxyRouter.CityRewrite | proxy.ts:91-103 | the city target starts with `/city-sites/<sub>`, never ends in a legacy sitemap name, and equals the middleware's target whenever that does not |
| ProxyRouter.SitemapIsNotLegacy | proxy.ts:97-102 | `<home>/sitemap.xml` ends in none of the three legacy names, so folding is final |
| ProxyRouter.InternalDirPrefix | proxy.ts:30-33 | a first segment starting with `city-sites` or `state-sites` makes the path internal |
| ProxyRouter.InternalPathRedirects | proxy.ts:30-46 | `/<dir>/<slug><tail>`, for any slash-free first segment starting with `city-sites` or `state-sites`, redirects with 308 to `<slug>.<rootWithoutPort>` and path `/` + the non-empty segments of the tail joined by `/` |
| ProxyRouter.RedirectKeepsCleanTail | proxy.ts:35-43 | when the rest of the path has no empty segment, the redirect path is `/` + that rest verbatim |
| ProxyRouter.RepeatedSlashIgnored | proxy.ts:35 | doubling any slash after the internal prefix does not change the decision |
| ProxyRouter.PartsAround | proxy.ts:35 | splitting on `/` and dropping empty parts distributes over a `/`-joined pair |
| ProxyRouter.InternalPathParts | proxy.ts:35-37 | the segments of `/<dir>/<slug><tail>` are dir, slug, then the tail's segments |
| Text.SplitWithoutSeparator | proxy.ts:35 | a string without `/` splits into itself alone |
| ProxyRouter.ProxySubdomainRewrite | proxy.ts:71-106 | for a host `sub.root`, the lower-cased sub selects the state rewrite or the city rewrite with legacy sitemap folding |
| ProxyRouter.AgreesWithMiddleware | proxy.ts:54-95 | off the internal paths the two routers pass through the same requests, every middleware rewrite is a proxy rewrite, and they are equal for state rewrites and for city rewrites that do not end in a legacy sitemap name |
| ProxyRouter.CityTargetIsNotState | proxy.ts:91-94 | a city rewrite never starts with `/state-sites/`, so state rewrites are never folded |
| ProxyRouter.LegacySitemapFolded | proxy.ts:97-103 | on a city host, a path ending in `/main-sitemap.xml`, `/services-sitemap.xml` or `/sitemap-index.xml` is served from `/city-sites/<sub>/sitemap.xml` by the proxy and rewritten verbatim by the middleware |
| HostSitemap.GetSubdomainInfo | app/sitemap.ts:15-27 | on the lower-cased, port-stripped host and root, root (sub `""`) iff the suffix is missing or the host is `www.`+root; otherwise host = sub + `.` + root, and state iff sub is a 2-character listed code |
| HostSitemap.ClassifyComposedHost | app/sitemap.ts:22-26 | a host `name.root` other than `www` is a state or city by `name`, including the empty name |
| HostSitemap.EmptySubdomainDisagreement | app/sitemap.ts:24-26 | the host `.<root>` is a city with sub `""` for the classifier while the middleware (middleware.ts:53) passes it through |
| HostSitemap.ClassifierAgreesWithMiddleware | app/sitemap.ts:15-27 | on hosts and roots without capitals, the middleware passes through iff the classifier says root or city `""`, and otherwise rewrites by the classifier's sub into the namespace of its kind |
| HostSitemap.UpperCaseWwwDisagreement | app/sitemap.ts:19-22 | `WWW.<root>` is root for the classifier but rewritten to `/city-sites/www` by the middleware, which tests `www` before lower-casing (middleware.ts:50-57) |
| HostSitemap.Sitemap | app/sitemap.ts:29-84 | a state host gets its home (weekly, 1.0) then `https://<slug>.<ROOT_DOMAIN>` per city of the state in order (weekly, 0.8); a city host gets nothing when its record is missing, else home, `/about`, `/contact` then `/services/<id>` per service, with absent services counting as none; the root gets its home only (monthly, 1.0); every entry carries the same `now` |
| HostSitemap.WwwLabelIsCity | middleware.ts:50-83 | a label that is not `www` but lower-cases to `www` is rewritten to `/city-sites/www` at path `/` |
| HostSitemap.StateUrls | app/sitemap.ts:40-53 | the loop over cities produces 1 + |cities| entries: the home, then one per city in order, all with the same `now` |
| HostSitemap.CityUrls | app/sitemap.ts:62-77 | the loop over services produces 3 + |services| entries: the three fixed pages, then one per service in order, all with the same `now` |
| HostSitemap.StateSitemapCoversGroup | app/sitemap.ts:40 | the cities a state sitemap lists are exactly that state's `getCitiesByState` group, or none |
| Robots.DetectSubdomainType | app/robot.ts:13-25 | root iff the lower-cased, port-stripped host lacks `.`+root or is `www.`+root; otherwise state iff the part before the suffix is a 2-character listed code |
| Robots.DetectAgreesWithSubdomainInfo | app/robot.ts:13-25 | `detectSubdomainType` returns the kind `getSubdomainInfo` returns, for every host and root |
| Robots.RobotsFor | app/robot.ts:27-54 | whatever the kind, allow `/` for every agent, disallow `/city-sites/` and `/state-sites/`, sitemap `https://<raw host>/sitemap.xml` |
| Robots.RobotsIndependentOfKind | app/robot.ts:33-54 | the record does not depend on the root domain setting, and so not on the kind of host |
| Robots.RobotsKeepsPort | app/robot.ts:42-53 | the sitemap link keeps the raw host, port included |
| Robots.DisallowedPathsAreNotFound | app/robot.ts:33 | every disallowed prefix is answered with the middleware's 404 |
| CityStore.JsonSlugs | lib/city-data.ts:92-95 | filter-then-map yields at most one slug per listed name; which slugs and in what order are the two lemmas below |
| CityStore.GetAllCitySlugs | lib/city-data.ts:90-99 | a failed listing gives `[]`; otherwise at most one slug per listed name |
| CityStore.JsonSlugsAppend | lib/city-data.ts:92-95 | filter-then-map preserves listing order: the slugs of two listings in a row are the slugs of each |
| CityStore.JsonSlugsMembership | lib/city-data.ts:94-95 | a slug is produced iff some listed name ends in `.json` and loses its first `.json` to give the slug |
| CityStore.SlugOfJsonName | lib/city-data.ts:94-95 | `name.json`, for a name without `.json`, is kept and gives `name` back |
| CityStore.FirstJsonRemoved | lib/city-data.ts:95 | only the first `.json` is removed: for a name without `.json`, `name.json<rest>` gives `name<rest>`, whatever the rest |
| CityStore.GetCityBySlug | lib/city-data.ts:79-87 | a city is returned iff the file `lower(slug).json` exists and parses, and it is that file's record; every failure gives none |
| CityStore.LookupIgnoresCase | lib/city-data.ts:81 | the slug's case does not matter |
| CityStore.ListedFileFound | lib/city-data.ts:81-95 | a slug from a lower-case `name.json` looks up that very file |
| CityStore.LookupAll | lib/city-data.ts:103-105 | map-then-filter yields at most one city per slug; which cities and in what order are the lemmas below |
| CityStore.GetAllCities | lib/city-data.ts:102-106 | at most one city per slug |
| CityStore.LookupAllAppend | lib/city-data.ts:103-105 | the successful lookups keep slug order |
| CityStore.LookupAllMembership | lib/city-data.ts:103-105 | a city is listed iff some slug looks it up |
| CityStore.LookupAllComplete | lib/city-data.ts:103-105 | when every lookup succeeds, there is one city per slug |
| CityStore.GetCitiesByState | lib/city-data.ts:109-117 | the loop that fills the dictionary builds the left fold of the cities, and the result is well formed: distinct keys in insertion order, one non-empty group per key |
| CityStore.GroupByState | lib/city-data.ts:111-116 | the fold builds a well-formed grouping: distinct keys, each with a non-empty group, and no group without a key |
| CityStore.GroupsAreFilters | lib/city-data.ts:111-116 | the group of a code is the order-preserving filter of the cities by `upper(state)`, and a code without a group matches no city |
| CityStore.CityInOwnGroup | lib/city-data.ts:112-114 | each city is in the group keyed by its upper-cased state, and in no other |
| CityStore.KeysInFirstAppearanceOrder | lib/city-data.ts:113 | the keys are the upper-cased state codes in the order of their first appearance |
| CityStore.GroupSizesSum | lib/city-data.ts:109-117 | the group sizes sum to the number of cities |
| CityStore.Summaries | lib/city-data.ts:122-127 | one summary per key, in key order, with the group's size and its first city's state name |
| CityStore.SortByName | lib/city-data.ts:128 | the sort gives a permutation of its input, ascending by state name |
| CityStore.InsertSorted | lib/city-data.ts:128 | inserting into a sorted list keeps it sorted and adds exactly that element |
| CityStore.GetAllStates | lib/city-data.ts:120-129 | sorted by state name, one summary per group and a summary for every group, each with the group's size and its first city's state name |
| CityStore.SortedSummaries | lib/city-data.ts:122-128 | sorting the summaries of a well-formed grouping keeps exactly one summary per group, with its size and first state name |
| CityStore.GetCitiesForState | lib/city-data.ts:132-136 | a city is returned iff it is among all cities and its upper-cased state equals the upper-cased code; never more cities than there are |
| CityStore.FilterCodeComplete | lib/city-data.ts:133-135 | the filter misses no city of the code |
| CityStore.CitiesForStateIsGroup | lib/city-data.ts:132-136 | the cities of a code are exactly the `getCitiesByState` group of its upper-cased form, or none |
| CityStore.CitiesForStateIgnoresCase | lib/city-data.ts:134 | the code's case does not matter |
| Lastmod.FormatLastmod | app/main-sitemap.xml/route.ts:21 | a string ending in `.`, three digits and `Z` has those five characters replaced by `+00:00`; any other string is unchanged |
| Lastmod.FormatLastmodOfIso | app/sitemap-index.xml/route.ts:13-14 | a 24-character ISO timestamp becomes its first 19 characters + `+00:00` |
| Lastmod.FormatLastmodIdempotent | app/main-sitemap.xml/route.ts:21 | formatting an already formatted timestamp changes nothing |
| MainSitemapXml.MainSitemap | app/main-sitemap.xml/route.ts:24-58 | the pushed strings joined inside the urlset wrapper are exactly the document of the root entry followed by each state's pair, in list order |
| MainSitemapXml.MainSitemapShape | app/main-sitemap.xml/route.ts:31-54 | 1 + 2×50 entries: `https://<ROOT_DOMAIN>/` at 1.0, then per state its home at 0.8 and its `/sitemap.xml` at 0.6, both with that state's lastmod |
| MainSitemapXml.StateEntriesShape | app/main-sitemap.xml/route.ts:39-53 | the i-th code gives entries 2i (home) and 2i+1 (sitemap), sharing the i-th lastmod |
| MainSitemapXml.RenderAllAppend | app/main-sitemap.xml/route.ts:57 | rendering the entries distributes over concatenation |
| MainSitemapXml.PushState | app/main-sitemap.xml/route.ts:39-54 | one pass of the loop extends the joined text by the state's two elements |
| MainSitemapXml.Lastmods | app/main-sitemap.xml/route.ts:40 | one formatted lastmod per state, drawn from that state's instant |
| MainSitemapXml.LastmodsIdempotent | app/main-sitemap.xml/route.ts:40 | formatting the formatted lastmods again changes none of them |
| SitemapIndexXml.SitemapIndex | app/sitemap-index.xml/route.ts:17-41 | the pushed strings joined inside the sitemapindex wrapper are exactly the document of the main entry followed by one entry per code, in list order |
| SitemapIndexXml.IndexEntriesShape | app/sitemap-index.xml/route.ts:23-36 | 52 entries: `https://<ROOT_DOMAIN>/main-sitemap.xml`, then `https://<code>.<ROOT_DOMAIN>/sitemap.xml` per code in order, all with the one timestamp |
| SitemapIndexXml.IndexCodesShape | app/sitemap-index.xml/route.ts:4-10 | the index's list has 51 codes, with `dc` at position 8 |
| SitemapIndexXml.IndexCodesExtendStateList | app/sitemap-index.xml/route.ts:4-10 | the index's list is the router's list with `dc` inserted after `de` |
| SitemapIndexXml.DcNotAState | app/sitemap-index.xml/route.ts:5 | `dc` is not in the router's list (middleware.ts:13-19) |
| SitemapIndexXml.PushRef | app/sitemap-index.xml/route.ts:30-36 | one pass of the loop extends the joined text by that code's element |
| SitemapIndexXml.DcSitemapRoutedAsCity | app/sitemap-index.xml/route.ts:33 | the advertised `dc.<root>/sitemap.xml` is routed by the middleware to `/city-sites/dc/sitemap.xml`, not to a state |
| Text.SplitJoin | proxy.ts:35-43 | splitting a join of separator-free pieces by the same separator gives the pieces back |
| Text.SplitPiecesHaveNoSeparator | proxy.ts:35 | no piece of a split holds the separator |
| Text.JoinSplit | proxy.ts:37 | joining the pieces of a split by the same separator gives the string back |
| Text.RemoveFirstAt | lib/city-data.ts:95 | removing the first occurrence cuts the pattern out at its first position |
| Text.LexLessTransitive | lib/city-data.ts:128 | the order the sort compares names by is transitive |
| Text.LexLessTotal | lib/city-data.ts:128 | any two distinct names are ordered one way or the other |

## Left out

- JSX pages, layouts and components, `next.config.ts`, `app/robots.ts`, `scripts/pack-data.js`
  and the per-city route handlers are not part of this model: they are presentation,
  framework configuration or file packaging.
- `fs.readdirSync`, `fs.readFileSync`, `JSON.parse` and `path.join` are replaced by `DataDir`.
  A file that parses to something other than a city record is not distinguished from one
  that parses to a city.
- `Math.random`, `Date.now`, `new Date()` and `toISOString` are inputs. The model does not
  capture that the random instants fall within the last five days.
- `NextResponse`, `headers()`, `Response` and its headers, and the `config.matcher` regex are
  framework internals. Only the decision is modelled: the path, the status and, for a
  redirect, hostname, path and code. The port, query and scheme that the cloned URL carries
  are not.
- The routers take the header's host and the root domain as plain strings, already resolved;
  the `|| ""` and `|| "localhost:3000"` fallbacks of middleware.ts:23-26 and proxy.ts:22-25
  are the functions `HostHeader` and `RootDomain`, which the sitemap and robots handlers apply.
- InternalRedirect: the hostname is `parts[1].<rootWithoutPort>` as a string. The URL
  hostname setter's canonicalisation is not modelled: ASCII lower-casing, percent-decoding,
  IDNA mapping, and ignoring an invalid host. So `/city-sites/Dallas-TX/x` gives
  `Dallas-TX.<root>` here, while the program redirects to `dallas-tx.<root>`.
- `toLowerCase`/`toUpperCase` are modelled on ASCII letters only.
- `localeCompare` is modelled as plain lexicographic order on characters.
- `Object.entries` is modelled as insertion order. JavaScript puts integer-like keys first;
  upper-cased state codes are never integer-like, but a `state` field such as "12" would be
  ordered differently.
- CityStore.SortByName: the sort is stated as sorted and a permutation; its stability is not
  stated.
- The two copies of the state list in `app/sitemap.ts` and `app/robot.ts` are the router's
  `UsStateList`, since they hold the same 50 codes.
- Two things in the code differ from what the site's design implies, and the model follows
  the code:
  - The index's list includes `dc`, which no router counts as a state
    (`SitemapIndexXml.DcSitemapRoutedAsCity`).
  - `.<root>` and `WWW.<root>` are classified differently by the sitemap and the middleware
    (`HostSitemap.EmptySubdomainDisagreement`, `HostSitemap.UpperCaseWwwDisagreement`).
