# ConnectLib landing page: release browser model

A Dafny model of the logic in the ConnectLib landing page (`src/App.jsx`). Most of
that file is markup. What it computes is in three places:

- **the downloads section** (`DownloadsSection`). It fetches the repository's tag
  list once. It formats each tag into a view record with a 1-based `id`, a
  `version` that copies `name`, and a derived jar link. It filters the records by
  a case-insensitive substring search, pages them six at a time, and switches
  between a grid of cards and the detail view of one selected tag;
- **the version badge** (`LatestVersion`), mounted twice: in the hero
  (src/App.jsx:422) and under "Stable Version" (src/App.jsx:529). Each instance
  fetches the tag list on its own and shows the first tag's name,
  "No tags found" or "Error";
- **the feature carousel**. It steps the highlighted card with `(prev + 1) % 6`.

Modules, one per concern:

| file | module | what it holds |
|---|---|---|
| `options.dfy` | `Options` | `Option`, which stands for `null` in the view state |
| `text.dfy` | `Text` | ASCII `toLowerCase` and `includes`, with a positional definition of substring |
| `tags.dfy` | `Tags` | raw and view tag records, the jar-link template, formatting |
| `filter.dfy` | `Filter` | the search filter and its exactness, order and case lemmas |
| `paging.dfy` | `Paging` | page count, JavaScript `slice` semantics, page slices, results line, pagination bar |
| `snippets.dfy` | `Snippets` | Gradle and Maven snippets, release-page link, detail view |
| `browser.dfy` | `Browser` | class `ReleaseBrowser`, the section's state (`tags`, `loading`, `currentPage`, `searchTerm`, `selectedTag`) and its handlers |
| `landing.dfy` | `Landing` | version badge text, carousel step, class `Carousel` |

The section's hooks become the fields of `ReleaseBrowser`. Each handler becomes a
method whose contract gives the whole new state. The values React recomputes on
every render (`filteredTags`, `totalPages`, `displayedTags`, the results line)
become functions of those fields. `ReleaseBrowser.Valid()` is the invariant that
every handler keeps:

- the current page is 1 or one of the pages of the filtered list;
- while loading, no tags are present and the page is 1;
- a selected tag is one of the fetched tags;
- the tags are exactly what formatting produces.

Modelling choices:

- The network fetch is an input. `FetchOutcome` is either the received array of
  tags, or a failure. A failure covers a network error, an unreadable body and a
  JSON body that is not an array: for all three, `data.map` never completes.
- `ApplyFetch` requires `loading`. The effect that fetches runs once, at mount,
  while the section is still loading.
- `Select` requires the tag to be one of the cards shown, because only cards call
  `setSelectedTag`.
- Each handler requires the view its control belongs to. While loading, only the
  spinner is rendered (src/App.jsx:79-85), so every handler requires `!loading`.
  The cards and the pagination bar exist only in the grid (src/App.jsx:119-200),
  so `Select`, `HandlePageChange`, `PreviousPage` and `NextPage` also require the
  grid view. "Back" exists only in the detail view (src/App.jsx:211-218), so it
  requires the detail view. The search box is shown in both views.
- The page handlers do not require the pagination bar itself. The bar is rendered
  only when more than six tags match (src/App.jsx:166). With six or fewer there is
  one page or none, so a call can only be a no-op or stay on page 1.
- A tag's `commit` is an object in the upstream API. Here it is an opaque string,
  since the section only passes it through.
- `toLowerCase` is modelled on ASCII letters only.
- JavaScript's truncating `%` is written out (`Landing.JsRem`).
- `Array.prototype.slice` is modelled with its negative-index rule
  (`Paging.SliceIndex`).

Where the code's behaviour could be described loosely, the model follows the code:

- an out-of-range page number is ignored, not clamped into range;
- a failed fetch leaves `tags` as they were. They are still the initial empty list,
  since the fetch runs once;
- the search matches the lowered `name` or the lowered `version`. For formatted
  tags the two are equal, so only the name matters (`Filter.MatchesByName`);
- the search box stays visible in the detail view. Typing there resets the page but
  keeps the selection, even when the selected tag no longer matches;
- the "Previous" and "Next" buttons are modelled without their `disabled`
  attribute. `PreviousPage` on page 1 and `NextPage` on the last page are no-ops
  anyway.

## Model

| member | source | states |
|---|---|---|
| `Text.LowerChar` | src/App.jsx:59-60 | the lowered character is never an upper-case ASCII letter; non-letters are unchanged; upper-case letters move to lower case by the fixed ASCII offset |
| `Text.Lower` | src/App.jsx:59-60 | lowering keeps the length and lowers every character in place |
| `Text.LowerIdempotent` | src/App.jsx:59-60 | lowering an already lowered string changes nothing |
| `Text.Contains` | src/App.jsx:59-60 | a string that starts with the needle includes it, and only a string at least as long as the needle can include it |
| `Text.ContainsIff` | src/App.jsx:59-60 | `includes` holds exactly when the needle occurs at some position of the haystack |
| `Text.ContainsEmpty` | src/App.jsx:59-60 | every string includes the empty string |
| `Tags.JarUrl` | src/App.jsx:44 | the link's length is the fixed template's length plus twice the name's |
| `Tags.JarUrlRoundTrip` | src/App.jsx:44 | the tag name can be read back out of its jar link |
| `Tags.JarUrlInjective` | src/App.jsx:44 | different tag names never share a jar link |
| `Tags.FormatTag` | src/App.jsx:38-44 | the record of one tag carries the given id, the tag's name as both name and version, its zip, tar and commit, and a jar link that reads back to the name |
| `Tags.FormatTags` | src/App.jsx:37-45 | one record per received tag, in order: record i is tag i formatted with id i+1 |
| `Tags.FormatFromAll` | src/App.jsx:37-45 | with ids counted from `first`, record i of the mapped list is tag i formatted with id first+i |
| `Tags.FormatFrom` | src/App.jsx:37-45 | formatting maps a list of n tags to a list of n records |
| `Tags.FormatTagsAt` | src/App.jsx:37-45 | record i has id i+1, the name, zip, tar and commit of tag i, version equal to name, and the jar link: fixed prefix, name, `/ConnectLib-`, name, `.jar` |
| `Tags.FormatRoundTrip` | src/App.jsx:37-45 | formatting loses none of the received fields: stripping the derived fields gives back the input |
| `Tags.WellFormedIffFormatted` | src/App.jsx:37-45 | a list has ids by position, version equal to name and templated jar links exactly when it is the formatting of its own raw fields |
| `Tags.FormatTagsWellFormed` | src/App.jsx:37-45 | every formatted list is well formed |
| `Filter.Matches` | src/App.jsx:59-60 | the filter's per-tag test: an empty term matches every tag, and a matching term is no longer than the name or the version |
| `Filter.FilterTags` | src/App.jsx:58-61 | the filtered list is never longer than the input |
| `Filter.FilterExact` | src/App.jsx:58-61 | a tag is kept if and only if it is in the list and its lowered name or version includes the lowered term |
| `Filter.FilterExactAll` | src/App.jsx:58-61 | the same exactness, for every tag at once |
| `Filter.FilterConcat` | src/App.jsx:58-61 | filtering a concatenation is the concatenation of the filtered parts |
| `Filter.FilterKeepsOrder` | src/App.jsx:58-61 | the filtered list is a subsequence of the input: it keeps the received order |
| `Filter.FilterEmptyTerm` | src/App.jsx:58-61 | an empty search term keeps the whole list |
| `Filter.MatchesIgnoresTermCase` | src/App.jsx:58-61 | a tag matches a term exactly when it matches the lowered term |
| `Filter.FilterIgnoresTermCase` | src/App.jsx:58-61 | searching for a term and for its lowered form keep the same tags |
| `Filter.FilterIdempotent` | src/App.jsx:58-61 | filtering the filtered list again with the same term changes nothing |
| `Filter.MatchesByName` | src/App.jsx:58-61 | for a record whose version is its name, matching means the lowered term occurs somewhere in the lowered name |
| `Paging.TotalPages` | src/App.jsx:63 | the page count is the least k with 6k at least the number of tags; it is 0 exactly when there are none |
| `Paging.SliceIndex` | src/App.jsx:64-67 | a `slice` argument becomes an index within the list: unchanged if already in range, the length if beyond it; a negative argument counts back from the end, and one before the start gives 0 |
| `Paging.JsSlice` | src/App.jsx:64-67 | a slice is never longer than the list |
| `Paging.PageSlice` | src/App.jsx:64-67 | `displayedTags`: never more than six items, and for page p ≥ 1 the items from min((p-1)·6, n) up to min(p·6, n); `PageSliceInRange`, `PageSliceBeyond` and `PageSliceBounded` state the rest |
| `Paging.JsSliceNonNegative` | src/App.jsx:64-67 | with non-negative bounds, `slice` takes the elements between the bounds, each cut at the length |
| `Paging.PageSliceInRange` | src/App.jsx:64-67 | for 1 ≤ p ≤ page count, page p shows elements (p-1)·6 up to min(p·6, n): at least one and at most six |
| `Paging.PageSliceBeyond` | src/App.jsx:64-67 | a page after the last shows nothing |
| `Paging.PageSliceBounded` | src/App.jsx:64-67 | whatever the page number, at most six items are shown, all taken from the list |
| `Paging.PagesUpToPrefix` | src/App.jsx:64-67 | pages 1 to k laid end to end are the first min(6k, n) items |
| `Paging.PagesCoverList` | src/App.jsx:64-67 | all pages laid end to end give back the filtered list |
| `Paging.Results` | src/App.jsx:204-206 | the line's total is the number of matches and its last position never exceeds it; for page ≥ 1 the first position is at least 1 and the line spans fewer than seven positions |
| `Paging.ResultsLineCountsShown` | src/App.jsx:204-206 | on a page in range, "Showing X to Y of N" has 1 ≤ X ≤ Y ≤ N, Y - X + 1 is the number of cards, and X and Y are the positions of the first and last card shown |
| `Paging.ResultsLineWhenEmpty` | src/App.jsx:204-206 | with no matches, page 1 reads "Showing 1 to 0 of 0" |
| `Paging.ShowPagination` | src/App.jsx:166 | the pagination bar is rendered exactly when there are at least two pages |
| `Snippets.GradleSnippet` | src/App.jsx:238-246 | the Gradle block is the fixed head, then the version, then the fixed tail, so it contains the version |
| `Snippets.MavenSnippet` | src/App.jsx:273-282 | the Maven block is the fixed head, then the version, then the fixed tail, so it contains the version |
| `Snippets.ReleasePageUrl` | src/App.jsx:331 | the release page link is the fixed repository prefix followed by exactly the tag name |
| `Snippets.DetailView` | src/App.jsx:223-331 | the detail view's title is the tag's name; its jar, zip and tar links are the tag's own; both snippets contain the version; the release link ends in the name |
| `Snippets.DetailShowsExactlyTheTag` | src/App.jsx:238-298 | both snippets of the detail view contain the tag's name; each snippet and the release link determine the name |
| `Snippets.DetailJarLinkNamesTag` | src/App.jsx:310 | the detail view's jar link carries the selected tag's name |
| `Browser.ReleaseBrowser.Filtered` | src/App.jsx:58-61 | `filteredTags`: a tag is in it exactly when it is fetched and matches the search term |
| `Browser.ReleaseBrowser.PageCount` | src/App.jsx:63 | `totalPages`: 0 exactly when nothing matches, and enough pages of six for every match |
| `Browser.ReleaseBrowser.Line` | src/App.jsx:204-206 | the results line of the current page counts all matches, never shows a position past them, and spans fewer than seven positions |
| `Browser.ReleaseBrowser.InDetail` | src/App.jsx:119 | no ensures: the detail view is shown exactly when a tag is selected; `Select` and `Back` state its value after each switch |
| `Browser.ReleaseBrowser.Displayed` | src/App.jsx:64-67 | the cards shown are at most six, each a fetched tag that matches the search term |
| `Browser.ReleaseBrowser.ShownAgreesWithLine` | src/App.jsx:202-206 | in every reachable state the grid is empty only when nothing matches; otherwise the results line counts exactly the cards shown |
| `Browser.ReleaseBrowser.DisplayedNamesContainTerm` | src/App.jsx:58-67 | in every reachable state, every card shown has a name whose lowered form contains the lowered search term |
| `Browser.ReleaseBrowser.constructor` | src/App.jsx:24-28 | the section starts with no tags, loading, on page 1, with an empty search and no selection |
| `Browser.ReleaseBrowser.ApplyFetch` | src/App.jsx:32-53 | on success the tags become the formatted records; on failure they stay empty; loading ends; nothing else changes |
| `Browser.ReleaseBrowser.HandlePageChange` | src/App.jsx:69-73 | the page becomes `page` only when 0 < page ≤ page count, else nothing changes; the other fields never change |
| `Browser.ReleaseBrowser.PreviousPage` | src/App.jsx:169 | one page back except on page 1; nothing else changes |
| `Browser.ReleaseBrowser.NextPage` | src/App.jsx:193 | one page on except on the last page; nothing else changes |
| `Browser.ReleaseBrowser.SetSearchTerm` | src/App.jsx:104-107 | the term becomes the typed text and the page becomes 1; tags, loading and selection are unchanged |
| `Browser.ReleaseBrowser.Select` | src/App.jsx:122-145 | the selected tag becomes the clicked card and the detail view is shown; tags, loading, term and page are unchanged |
| `Browser.ReleaseBrowser.Back` | src/App.jsx:213 | the selection is cleared and the grid is shown; tags, loading, term and page are unchanged |
| `Browser.ThreeTagsScenario` | src/App.jsx:37-67 | three tags received newest first and no search: one page, all three shown in the received order |
| `Browser.FailedFetchScenario` | src/App.jsx:49-52 | after a failed fetch, loading has ended and no card is shown |
| `Landing.LatestVersionText` | src/App.jsx:10-17 | the badge text is the first tag's name for a non-empty array, "No tags found" for an empty array or a non-array, and "Error" on failure |
| `Landing.VersionLabel` | src/App.jsx:20 | the badge is never blank: it shows the stored text, or "loading..." while that is empty |
| `Landing.LatestIsFirstCard` | src/App.jsx:10-17 | for the same non-empty tag list, the badge's version is the version on the first card of page 1 when nothing is searched |
| `Landing.JsRem` | src/App.jsx:361 | JavaScript `%` agrees with the mathematical remainder on non-negative dividends; on a negative dividend it is the truncated remainder a + b·(-a div b), in (-b, 0] |
| `Landing.NextFeature` | src/App.jsx:361 | from any card, the step lands in [0, 6): the next card, or the first after the last |
| `Landing.StepsLand` | src/App.jsx:359-364 | k steps from card p land on card (p + k) mod 6, so every card is visited in turn |
| `Landing.Carousel.constructor` | src/App.jsx:351 | the carousel starts on the first card |
| `Landing.Carousel.Tick` | src/App.jsx:360-362 | a tick moves to the next card, wrapping after the last, and keeps the card in range |
| `Landing.Carousel.Hover` | src/App.jsx:479 | hovering over card i makes it the highlighted card |

## Left out

- The failure path's `console.error` diagnostic (src/App.jsx:50) goes to the browser console. It changes no state and is not modelled.
- The two `fetch` calls and JSON decoding (src/App.jsx:8-9, 34-35) are network I/O. Their outcome is an input: `Browser.FetchOutcome` and `Landing.TagsResponse`.
- Array elements that are not tag objects are not modelled. A missing `name` would give an `undefined` name, and the filter's `toLowerCase` would then throw during rendering.
- Text.Lower: covers ASCII letters only. JavaScript's `toLowerCase` also lowers non-ASCII letters, and can change a string's length.
- `copyToClipboard` (src/App.jsx:75-77) is a browser API. The text it would copy is `Snippets.GradleSnippet` or `Snippets.MavenSnippet` of the selected version.
- The loading spinner, all markup, styling, icons and anchors are presentational. Only the links' targets are modelled, in `Snippets.DetailView`.
- The scroll listener and the `setInterval` timer (src/App.jsx:353-364) are platform events. Only the step itself is modelled.
- React's re-render and batching semantics are not modelled. Neither is the stale state update when the section unmounts before its fetch resolves: it is asynchronous behaviour with no effect on the view state.
- The page fetches the tag list three times: once for the downloads section and once for each of the two badge instances (src/App.jsx:422, 529). Each badge has its own fetch and its own `Landing.LatestVersionText`, so the two badges can disagree, for example one reading "Error" while the other shows a version. The model does not relate these outcomes. `Landing.LatestIsFirstCard` relates a badge to the section only when their two lists are equal.
