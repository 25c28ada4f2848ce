# Page records, breadcrumbs and the search overlay of the site navigation

This project models, in Dafny, the two pieces of the site's front end that hold
real logic:

- **Page records** (`src/lib/pages.js`). Content-graph nodes are JavaScript
  values (`JsValue.Json`: `undefined`, `null`, booleans, integers, strings,
  arrays, plain objects) and a page record is a plain object (`map<string, Json>`).
  The model covers `mapPageData` (shallow copy, unwrapping `featuredImage.node`
  and `parent.node`, flattening `children.edges`), the two `map`s of
  `getAllPages`, the `parent === null` filter and the stable `menuOrder` sort of
  `getTopLevelPages` (an in-place insertion sort on an array, proved equal to a
  functional stable sort), the record assembly of `getPageByUri` (the `acf`
  block with its `heroImage` override, the SEO merge and the canonical-URL rule)
  as a pure function of the raw node, the SEO flag, the SEO response and the
  API host, and `pagePathBySlug`. JavaScript's `TypeError`s on these paths
  (mapping a `children.edges` that is not an array, destructuring a `null`
  edge, reading a field of a `null` SEO block, calling `includes` on a value
  that has none) are modelled as `TypeError` results.
- **Breadcrumbs** (`getBreadcrumbsByUri` in `src/lib/pages.js`): splitting the
  URI on `/`, dropping empty segments and the page's own slug, the `do … while`
  walk over shorter and shorter prefixes `/<prefix>/` (which looks up `//` once
  when no segment is left), and the final in-place reversal.
- **The navigation bar** (`src/components/Nav/Nav.js`): a class `NavBar` with the
  component's state (search visibility, mobile menu, the listeners attached to
  `document.body` and `document`, the keyboard focus, and the search hook's
  query, results and loaded flag), one method per event, and a pure step
  function `Nav.Step`. Every event method (`ToggleSearch`, `Click`, `KeyDown`,
  `SearchUpdated`, `ToggleMobileMenu`) is proved to follow `Nav.Step`. The
  helper methods `ClearSearch`, `CommitVisibility` and `HandleResultsRoving`
  are proved to follow the parts of it they implement: `Nav.Cleared`,
  `Nav.Commit` and `Nav.Roving`. The DOM walk of
  `handleResultsRoving` is modelled branch by branch on the rendered overlay
  (`RovingDown`, `RovingUp`) and proved to coincide with index arithmetic over
  the targets `[input, link_0 … link_{k-1}]`.

The source has no latest-wins ordering of search responses and no timeout, and
the model adds none.

## Model

| member | source | states |
|---|---|---|
| `JsValue.TruthyTable` | src/lib/pages.js:127-130 | JavaScript truthiness as the `if (data.…)` tests use it: `null`, `undefined`, `false`, `0` and `""` are falsy; every array and object, even an empty one, is truthy |
| `JsValue.GetReads` | src/lib/pages.js:41-42 | a property read (plain or optional) gives an object's own field and `undefined` for anything else, never throwing |
| `JsValue.SpreadFields` | src/lib/pages.js:127 | `{ ...v }` copies an object's fields, holds an array's elements under their decimal index keys, holds a string's characters as one-character strings under their decimal index keys, and is empty for `null`, `undefined`, booleans and numbers |
| `Pages.PagePathBySlug` | src/lib/pages.js:14-16 | the path is `/` followed by the slug |
| `Breadcrumbs.PagePathSegments` | src/lib/pages.js:14-16 | a slug path is a one-segment URI whose only segment is the slug, so its breadcrumb walk looks up `//` alone |
| `Pages.EdgeNodes` | src/lib/pages.js:130 | `edges.map(({ node }) => node)` keeps length and order and yields each edge's `node`; it throws exactly when some edge is `null` or `undefined` |
| `Pages.NormalizedPage` | src/lib/pages.js:126-132 | `mapPageData` throws exactly when a truthy `children` has an `edges` that is not an array or holds a nullish edge; otherwise the copy has exactly the input's own fields |
| `Pages.NormalizedPageShape` | src/lib/pages.js:127-130 | only `featuredImage`, `parent` and `children` may differ from the input; a truthy `featuredImage`/`parent` becomes its `.node`, a falsy one is kept; a truthy `children` becomes the nodes of its edges, same length and order |
| `Pages.MapPageData` | src/lib/pages.js:126-132 | the copy-then-reassign sequence of `mapPageData` yields exactly `NormalizedPage` |
| `Pages.UnwrapsInPlace` | src/lib/pages.js:128-129 | the two conditional reassignments on the copy unwrap both fields independently |
| `Pages.NodesWithDefault` | src/lib/pages.js:107-108 | `({ node = {} }) => node` keeps length and order, defaults only an `undefined` node to `{}`, and throws exactly on a nullish edge |
| `Pages.NormalizeAll` | src/lib/pages.js:109 | `.map(mapPageData)` succeeds exactly when every node normalises, and then yields each node's normalised record in order |
| `Pages.AllPages` | src/lib/pages.js:107-109 | the page list of `getAllPages`: one normalised record per edge, in edge order |
| `Pages.TopLevel` | src/lib/pages.js:118 | the filter keeps each page with `parent` strictly `null` exactly as often as it occurs, and no other page (`undefined` does not pass) |
| `Pages.TopLevelAppend` | src/lib/pages.js:118 | the filter keeps listing order: the filter of a concatenation is the concatenation of the filters |
| `Pages.FiltersCommute` | src/lib/pages.js:118 | filtering by `parent === null` and selecting one `menuOrder` commute |
| `Pages.SortByMenuOrder` | src/lib/pages.js:119 | the stable sort keeps the number of pages; its order, permutation and stability are the three lemmas below |
| `Pages.SortAscending` | src/lib/pages.js:119 | the sort's result is ascending by `menuOrder` |
| `Pages.SortPermutes` | src/lib/pages.js:119 | the sort's result is a permutation of its input |
| `Pages.SortStable` | src/lib/pages.js:119 | pages with equal `menuOrder` keep their relative order |
| `Pages.TopLevelStable` | src/lib/pages.js:118-119 | the sorted top-level pages of one `menuOrder` are exactly the listing's `parent === null` pages of that key, in listing order |
| `Pages.SortInPlace` | src/lib/pages.js:119 | sorting the array in place leaves it holding the stable sort of its old contents |
| `Pages.SortedCopy` | src/lib/pages.js:119 | sorting the filtered pages through an array yields their stable sort by `menuOrder` |
| `Pages.SortedTopLevel` | src/lib/pages.js:118-119 | the sorted filtered list is ascending and holds each page with a `null` parent as often as the input does, and nothing else |
| `Pages.GetTopLevelPages` | src/lib/pages.js:116-121 | fails exactly when the listing does; otherwise the result is ascending by `menuOrder`, a permutation of the pages whose `parent` is `null`, and among pages of one `menuOrder` keeps their listing order |
| `Pages.AcfSource` | src/lib/pages.js:41 | `?? {}`: the custom-field block when it is neither `null` nor `undefined`, otherwise `{}`; never nullish |
| `Pages.HeroImageUrl` | src/lib/pages.js:42 | the optional chain yields the node's `sourceUrl` (`undefined` when absent) when `heroImage` and its `node` are objects, and `undefined` (no throw) otherwise |
| `Pages.AcfBlock` | src/lib/pages.js:41-46 | the `acf` block keeps every custom field but `heroImage`, which becomes `{ sourceUrl }` when `heroImage.node.sourceUrl` is truthy and `{}` otherwise |
| `Pages.SeoBlock` | src/lib/pages.js:60 | the SEO block is `{}` when the response's `page` is falsy or its `seo` is `undefined`, and is that `seo` otherwise; the default applies to `undefined` only, so the block is nullish exactly when the page's `seo` is `null` |
| `JsValue.Includes` | src/lib/pages.js:65 | `includes` is a substring test on strings and an element test on arrays, and throws on every other value |
| `Pages.KeepsCanonical` | src/lib/pages.js:65 | the canonical URL is kept exactly when it is truthy and does not include the API host; a truthy value without `includes` throws |
| `Pages.WithSeoText` | src/lib/pages.js:62-64 | sets `metaTitle`, `description`, `readingTime` from the SEO block's `title`, `metaDesc`, `readingTime` and keeps every other field |
| `Pages.OpenGraph` | src/lib/pages.js:68-77 | `page.og` has exactly the eight Open Graph keys; `author`, `description`, `image`, `modifiedTime`, `publishedTime`, `publisher`, `title` and `type` hold the SEO block's `opengraphAuthor`, `opengraphDescription`, `opengraphImage`, `opengraphModifiedTime`, `opengraphPublishedTime`, `opengraphPublisher`, `opengraphTitle` and `opengraphType` (`undefined` where the block lacks it) |
| `Pages.Robots` | src/lib/pages.js:78-81 | `page.robots` has exactly `nofollow` and `noindex`, holding the SEO block's `metaRobotsNofollow` and `metaRobotsNoindex` |
| `Pages.Twitter` | src/lib/pages.js:82-86 | `page.twitter` has exactly `description`, `image` and `title`, holding the SEO block's `twitterDescription`, `twitterImage` and `twitterTitle` |
| `Pages.WithSeoSocial` | src/lib/pages.js:68-86 | sets `og`, `robots`, `twitter` from the SEO block and keeps every other field |
| `Pages.MergeSeo` | src/lib/pages.js:60-87 | the SEO step throws exactly when the SEO block is `null` or the canonical test throws |
| `Pages.MergeSeoKeys` | src/lib/pages.js:62-86 | the SEO step adds the six SEO fields, adds `canonical` only under the canonical rule, and leaves every other field unchanged |
| `Pages.MergeSeoValues` | src/lib/pages.js:62-86 | each SEO field takes its value from the SEO block; `canonical` is the block's when the rule keeps it and is untouched otherwise |
| `Pages.BasePage` | src/lib/pages.js:38-52 | the record before the SEO step is the normalised node plus the `acf` block; it fails exactly when normalisation does |
| `Pages.AssemblePage` | src/lib/pages.js:31-89 | a falsy page yields `{ page: undefined }` without any SEO step; a truthy page yields a record or a thrown error |
| `Pages.AssembledFields` | src/lib/pages.js:38-87 | the assembled record's keys are exactly the node's own fields plus `acf` when the flag is not `true`, and those plus the six SEO fields (and `canonical` when the rule keeps it) when it is; every field outside the SEO fields, `acf` and `canonical` is `mapPageData`'s |
| `Pages.SeoOff` | src/lib/pages.js:55 | with the flag anything but strictly `true`, the SEO response is not consulted and only `acf` is added |
| `Pages.SeoFieldsOnlyWithFlag` | src/lib/pages.js:55-87 | for a node without SEO field names, the record has the SEO fields exactly when the flag is strictly `true` |
| `Pages.SeoOn` | src/lib/pages.js:55-87 | with the flag `true`, every SEO field comes from the SEO block, the step fails exactly on a `null` block or a throwing canonical test, and `canonical` follows the canonical rule |
| `Pages.CanonicalAvoidsApiHost` | src/lib/pages.js:65-67 | a canonical URL set by the SEO step (on a node without a `canonical` of its own) never contains the API host |
| `Breadcrumbs.Split` | src/lib/pages.js:139 | `split('/')` yields at least one piece and no piece holds a slash |
| `Breadcrumbs.JoinSplit` | src/lib/pages.js:139 | joining the pieces of a split with `/` gives back the string |
| `Breadcrumbs.SplitJoin` | src/lib/pages.js:142 | `join('/')` of slash-free pieces splits back into the same pieces |
| `Breadcrumbs.NonEmpty` | src/lib/pages.js:139 | the filter keeps only non-empty pieces, each taken from the input |
| `Breadcrumbs.Segments` | src/lib/pages.js:139 | every segment of a URI is non-empty and free of slashes |
| `Breadcrumbs.SlashSeparatesSegments` | src/lib/pages.js:139 | the segments of `a/b` are those of `a` followed by those of `b` |
| `Breadcrumbs.SlashesIgnored` | src/lib/pages.js:139 | leading, trailing and doubled slashes do not change the segments |
| `Breadcrumbs.Parent` | src/lib/pages.js:140 | `pop` drops the last segment and does nothing on an empty list |
| `Breadcrumbs.PrefixUriSegments` | src/lib/pages.js:142 | the looked-up URI `` `/${segments.join('/')}/` `` has exactly the joined segments as its segments |
| `Breadcrumbs.Lookups` | src/lib/pages.js:141-151 | the walk performs max(1, n) lookups for n remaining segments |
| `Breadcrumbs.FindByUri` | src/lib/pages.js:142 | `find` yields an index into the page list or nothing |
| `Breadcrumbs.FindByUriFirst` | src/lib/pages.js:142 | `find` yields the first page whose `uri` is exactly the target, and nothing when no page has it |
| `Breadcrumbs.CrumbOnlyIdTitleUri` | src/lib/pages.js:144-148 | the pushed crumb carries the page's `id`, `title` and `uri` and nothing else: two pages give the same crumb exactly when those three agree |
| `Breadcrumbs.Reversed` | src/lib/pages.js:152 | reversal keeps the length |
| `Breadcrumbs.ReversedAt` | src/lib/pages.js:152 | reversal puts element `i` at position `n-1-i` |
| `Breadcrumbs.TrailReversed` | src/lib/pages.js:141-152 | reversing the collected crumbs equals collecting over the reversed lookups |
| `Breadcrumbs.GetBreadcrumbsByUri` | src/lib/pages.js:137-154 | the `do … while` loop with its pops, pushes and final reverse returns `BreadcrumbsOf(uri, pages)` |
| `Breadcrumbs.TrailSound` | src/lib/pages.js:142-149 | every collected crumb is the first page found for one of the lookups |
| `Breadcrumbs.TrailComplete` | src/lib/pages.js:142-149 | every lookup that finds a page contributes its crumb; failed lookups are skipped |
| `Breadcrumbs.TrailLength` | src/lib/pages.js:141-151 | at most one crumb per lookup |
| `Breadcrumbs.TrailOrdered` | src/lib/pages.js:141-151 | lookups ordered by strict prefix give crumbs whose `uri`s are ordered by strict prefix |
| `Breadcrumbs.CrumbsAreAncestors` | src/lib/pages.js:139-150 | each crumb carries `id`/`title`/`uri` of the first page whose `uri` is `/` + a proper prefix of the URI's segments joined by `/` + `/` (or `//` for a URI of at most one segment) |
| `Breadcrumbs.BreadcrumbsRootFirst` | src/lib/pages.js:139-153 | crumbs come root first: each crumb's `uri` is a strict prefix of the next one's |
| `Breadcrumbs.BreadcrumbsBound` | src/lib/pages.js:139-151 | at most max(1, n-1) crumbs for a URI of n segments |
| `Breadcrumbs.BreadcrumbsComplete` | src/lib/pages.js:142-150 | every proper prefix that is some page's exact `uri` yields that first page's crumb |
| `Breadcrumbs.OwnUriNotLookedUp` | src/lib/pages.js:139-142 | the page's own full URI is never looked up |
| `Breadcrumbs.ShallowUriLooksUpDoubleSlash` | src/lib/pages.js:140-151 | for `/` and one-segment URIs the only lookup is `//` |
| `Breadcrumbs.RootHasNoSegments` | src/lib/pages.js:139 | `/` has no segments |
| `Breadcrumbs.SlashesDoNotChangeBreadcrumbs` | src/lib/pages.js:139 | URIs differing only in leading, trailing or doubled slashes get identical breadcrumbs |
| `Nav.NavigationLocation` | src/components/Nav/Nav.js:28-30 | the configured location when it is set and non-empty, the default otherwise |
| `Nav.RovingDown` | src/components/Nav/Nav.js:79-91 | the ArrowDown walk from a link stays within the rendered links |
| `Nav.RovingUp` | src/components/Nav/Nav.js:93-103 | the ArrowUp walk from a link stays within the rendered links |
| `Nav.RovingFollowsIndex` | src/components/Nav/Nav.js:79-103 | on the input and the links, both DOM walks equal index steps over `[input, link_0 … link_{k-1}]` (down: input to link 0, link i to i+1, last link to link 0, input stays without results; up: link i to i-1, link 0 to the last, input stays) and stay in [0, k] |
| `Nav.DownNeverReturnsToInput` | src/components/Nav/Nav.js:81-89 | ArrowDown lands on the input exactly when it starts there and the "Sorry" paragraph is shown |
| `Nav.LinksWrapAround` | src/components/Nav/Nav.js:86-101 | among k links, ArrowDown goes to `(i+1) % k` and ArrowUp to `(i+k-1) % k` |
| `Nav.UpUndoesDown` | src/components/Nav/Nav.js:79-103 | ArrowUp undoes ArrowDown on the links |
| `Nav.DownTimesFromLink` | src/components/Nav/Nav.js:79-91 | n ArrowDown presses from link i land on link `(i+n) % k` |
| `Nav.DownTimesFromInput` | src/components/Nav/Nav.js:79-91 | n ≥ 1 ArrowDown presses from the input land on link `(n-1) % k` |
| `Nav.IndexOfSlug` | src/components/Nav/Nav.js:174-175 | the first position whose result has the slug, or nothing when none has it |
| `Nav.Refocus` | src/components/Nav/Nav.js:172-186 | after a re-render a focused link stays on its keyed item, or focus falls to the body when the item is gone; other focus is kept |
| `Nav.Cleared` | src/components/Nav/Nav.js:108 | `clearSearch` empties query and results, moves a focused link to the body, and changes nothing else |
| `Nav.Commit` | src/components/Nav/Nav.js:39-59 | after a render that changed visibility, showing adds the body listeners and focuses the input, hiding removes them and leaves focus on the body; otherwise nothing changes; only listeners and focus are touched |
| `Nav.Roving` | src/components/Nav/Nav.js:76-104 | only the focus changes; other keys and a walk from the body change nothing; ArrowDown/ArrowUp move along the index order over the input and the links |
| `Nav.Step` | src/components/Nav/Nav.js:18-119 | the document's Escape listener never changes; only the mobile toggle flips `mobileOpen`; only the hook changes the load state, and other events only ever empty the query; the overlay opens exactly on the enabled toggle |
| `Nav.StepPreservesValid` | src/components/Nav/Nav.js:39-59 | every event keeps the body listeners attached exactly while visible, the Escape listener always attached, focus in range |
| `Nav.RovingKeepsFocusInRange` | src/components/Nav/Nav.js:76-104 | roving changes only the focus and keeps it within the rendered links |
| `Nav.Run` | src/components/Nav/Nav.js:39-119 | any sequence of events leaves the component in a valid state |
| `Nav.KeysIgnoredWhileHidden` | src/components/Nav/Nav.js:39-59 | while hidden, arrow keys (any key but Escape) change nothing |
| `Nav.EscapeCloses` | src/components/Nav/Nav.js:106-119 | Escape clears the search, hides the overlay and detaches the body listeners from any state; repeating it changes nothing |
| `Nav.ToggleOpens` | src/components/Nav/Nav.js:72-74 | the toggle (rendered only while hidden, enabled only when loaded) makes the overlay visible, attaches the listeners and focuses the input; disabled, it does nothing |
| `Nav.OutsideClickCloses` | src/components/Nav/Nav.js:61-66 | a click outside the form hides and clears the overlay and detaches the listeners; a click inside changes nothing |
| `Nav.HidingClears` | src/components/Nav/Nav.js:61-66 | every event that hides the overlay also clears query and results |
| `Nav.MobileToggleTwice` | src/components/Nav/Nav.js:23 | two mobile-menu toggles restore the state |
| `Nav.FourDownsWithThreeResults` | src/components/Nav/Nav.js:79-91 | with three results, four ArrowDown presses from the input return to the first link |
| `Nav.NavBar.constructor` | src/components/Nav/Nav.js:18-21 | mounting: hidden, menu closed, no body listeners, the Escape listener on the document |
| `Nav.NavBar.ClearSearch` | src/components/Nav/Nav.js:108 | `clearSearch` empties query and results |
| `Nav.NavBar.CommitVisibility` | src/components/Nav/Nav.js:39-59 | the visibility effect adds the listeners and focuses the input on show, removes them on hide |
| `Nav.NavBar.ToggleSearch` | src/components/Nav/Nav.js:72-74 | `handleOnToggleSearch` follows `Step` and keeps the state valid |
| `Nav.NavBar.Click` | src/components/Nav/Nav.js:61-66 | `handleOnDocumentClick` follows `Step` and keeps the state valid |
| `Nav.NavBar.HandleResultsRoving` | src/components/Nav/Nav.js:76-104 | moves focus as the DOM walk does; a walk that throws leaves it |
| `Nav.NavBar.KeyDown` | src/components/Nav/Nav.js:106-119 | a key press runs the body's roving listener, then the document's Escape listener, and follows `Step` |
| `Nav.NavBar.SearchUpdated` | src/components/Nav/Nav.js:33-35 | a new query, result list and load state from the search hook, with focus carried by slug |
| `Nav.NavBar.ToggleMobileMenu` | src/components/Nav/Nav.js:23 | `toggleMobileMenu` flips `mobileOpen` |

## Left out

- The content-graph queries (`getApolloClient`, `apolloClient.query`, the query documents of `data/pages`): the raw page node, the SEO response's `page` and the listing's edges are parameters. A transport failure is not modelled.
- `new URL(...).host` and `process.env`: the API host, the SEO flag and the configured menu location are parameters.
- `Pages.MenuOrder`: `parseFloat` is not modelled. An integer `menuOrder` (the content graph's type for it) is its own key; every other value gets key 0. In the source a numeric string such as `"3"` or an array such as `[3]` sorts by its parsed number, a fractional value by its fraction, and only a value `parseFloat` cannot parse (`null`, `undefined`, an object, a non-numeric string) makes the comparator yield `NaN`, with an implementation-defined order.
- `Pages.AllPages`: `data?.data.pages.edges` is taken as a list of edges; a response whose `edges` is not an array is not modelled.
- `Breadcrumbs.GetBreadcrumbsByUri`: the page list holds records; a `null` entry in it, on which `page.uri` would throw, is not modelled.
- JavaScript numbers are integers here (no `NaN`, no fractions), objects are maps without key order or prototypes.
- `mapPageData` is not idempotent and no such property is stated: applying it to its own output reads `.node` and `.edges` on already-unwrapped fields.
- The caller's object is not modified by `mapPageData`: values are immutable in the model, so this holds by construction and is not a separate statement.
- React rendering, JSX, styles, icons, `next/link`, `preventDefault` and DOM event objects; one render and one effect run are assumed per event.
- The `useSearch` hook (`hooks/use-search` is not part of this model): its asynchronous search arrives as `SearchUpdated` events carrying query, results and the loaded flag; `clearSearch` is taken to empty the query and results and leave the load state. There is no latest-wins sequencing or timeout, as in the source.
- Focus on page elements outside the overlay other than the body (for instance reached with Tab) is not modelled; `Focus` covers the input, the result links and the body.
- Focus moved by a mouse click is not modelled: `Click(true)` keeps the focus as it was. In a browser a click on a non-focusable part of the form, such as the "Sorry" paragraph, moves focus to the body; a following ArrowDown then reads `parentElement` of `<html>`, which is `null`, and throws (src/components/Nav/Nav.js:89).
- Strings are indexed by character: JavaScript spreads and indexes a string by UTF-16 code unit, so a character outside the Basic Multilingual Plane is two entries in the source and one in the model (`JsValue.Spread`, `JsValue.Chars`).
- `findMenuByLocation` (`lib/menus` is not part of this model) and the value of `MENU_LOCATION_NAVIGATION_DEFAULT`, which is a parameter; `postPathBySlug` (`lib/posts` is not part of this model).
- `src/pages/index.js`: fetch orchestration, the slug fallback, the JSON clone and rendering.
