# Resource catalogue: filtering and aggregation, verified

This project models the logic of an educational resource catalogue (videos and PDFs) that is shown by two
near-identical views: the componentised view `ResourcesClient` and the page-level view `Page`. Both views hold
the whole list of catalogue entries in memory. On every change to the controls they recompute:

- the visible list: a tab filter (ALL / VIDEO / PDF), a subject filter whose sentinel `'Tous'` means any, a
  level filter whose sentinel `'Tous niveaux'` means any, and a case-insensitive substring search over title,
  description, subject and tags;
- the split of the visible list into `videos` and `pdfs`;
- the figures over the whole, unfiltered catalogue: entry count, videos, PDFs and total XP;
- the subject facets: `'Tous'` followed by each non-empty subject once, in first-seen order.

Each card also checks whether its link may be followed, and each video card picks a thumbnail from a
YouTube link. The page-level view additionally tracks a small load state (`loading`, `envOk`, the entries)
driven by the configuration check and the outcome of the fetch.

Modules:

- `Wrappers`: the `Option` type for the nullable fields.
- `Text`: `toLowerCase`, `startsWith` and `includes` on strings of Unicode scalar values.
- `Seqs`: `Array.prototype.filter`, plus the subsequence and no-duplicates notions used to specify it.
- `Catalog`: the `Resource` record and the filter, split, XP and facet engine, which is textually the same in
  both views.
- `YouTube`: the regular expression `(?:youtube\.com\/watch\?v=|youtu\.be\/)([^&\s]+)` written as an explicit
  leftmost-match scan, with its greedy capture group.
- `ResourcesClient`: the component's URL check, thumbnail choice, figures, reset handler and block gating.
- `Page`: the page's URL check and thumbnail choice, and the class `PageState`. Its methods are the setters
  the effect and the controls call; its `reads` functions are the derivations the page renders.
- `Scenarios`: concrete catalogues on which the behaviour can be read off.

Where the two views differ, both versions are modelled and the difference is proved:

- The page accepts any link starting with `http` (so `httpfoo` passes). The component demands `http://` or
  `https://`.
- When there is no image and no video id, the page falls back to the empty string and so to the play icon.
  The component falls back to a fixed placehold.co image.

Both views check tab, subject and level first and apply the search only to the entries that pass them
(src/components/ResourcesClient.tsx:287-299, src/app/page.tsx:444-456). The facets drop null and empty subjects
(`filter(Boolean)`), and an empty stored thumbnail is skipped (`if (stored)`).

## Model

| member | source | states |
|---|---|---|
| `Text.Contains` | src/components/ResourcesClient.tsx:293-296 | `includes` holds exactly when the query occurs at some position of the string (the empty query always does) |
| `Text.LowerChar` | src/components/ResourcesClient.tsx:291 | `toLowerCase` on one character moves an ASCII or Latin-1 capital 32 code points up, to its small letter, leaves every other character alone, and never yields such a capital |
| `Text.Lower` | src/components/ResourcesClient.tsx:291 | lower-casing keeps the length, leaves no capital, replaces each capital by its small letter and keeps every other character |
| `Seqs.Filter` | src/components/ResourcesClient.tsx:286 | `filter` returns an order-preserving subsequence whose elements all satisfy the predicate, holding each satisfying element exactly as often as the input does |
| `Seqs.FilterComplement` | src/components/ResourcesClient.tsx:302-303 | filtering by a predicate and by its negation splits the input: the two multisets add up to the input's, and so do the lengths |
| `Seqs.FilterAll` | src/components/ResourcesClient.tsx:299 | a filter whose callback always returns true gives back its input |
| `Catalog.Filtered` | src/components/ResourcesClient.tsx:286-300 | the visible list is an order-preserving subsequence of the catalogue. Every entry in it passes tab, subject and level, and also the search when the search is non-empty. It holds each matching entry as often as the catalogue does and no other entry |
| `Catalog.FilteredWithSearch` | src/components/ResourcesClient.tsx:290-297 | with a non-empty search, a catalogue entry that passes tab, subject and level is visible exactly when the lower-cased query occurs in its lower-cased title, description (or `""`), subject (or `""`) or one of its tags |
| `Catalog.FilteredWithoutSearch` | src/components/ResourcesClient.tsx:286-300 | with an empty search, the visible entries are exactly the catalogue entries passing tab, subject and level |
| `Catalog.SearchIgnoresCase` | src/components/ResourcesClient.tsx:291 | a query and its lower-cased form select the same entries |
| `Catalog.DefaultShowsAll` | src/components/ResourcesClient.tsx:274-277 | the initial filter state (ALL, `'Tous'`, `'Tous niveaux'`, `""`) shows the whole catalogue, in order |
| `Catalog.OfKind` | src/components/ResourcesClient.tsx:302-303 | `videos` (`pdfs`) is the order-preserving subsequence of exactly the VIDEO (PDF) entries |
| `Catalog.KindPartition` | src/components/ResourcesClient.tsx:302-303 | `videos` and `pdfs` together hold every visible entry exactly once: the multisets add up, and so do the lengths |
| `Catalog.TotalXpSplits` | src/components/ResourcesClient.tsx:305 | the XP total equals the XP of the videos plus the XP of the PDFs |
| `Catalog.TabSelectsKind` | src/components/ResourcesClient.tsx:287 | the VIDEO (PDF) tab shows exactly the videos (PDFs) that the ALL tab shows with the same other filters, in the same order |
| `Catalog.DistinctSubjects` | src/components/ResourcesClient.tsx:283 | `Array.from(new Set(...filter(Boolean)))` lists each non-null, non-empty subject of the catalogue exactly once, and nothing else. Of two listed subjects, the earlier one is carried by an entry that comes before every entry carrying the later one |
| `Catalog.SubjectFacets` | src/components/ResourcesClient.tsx:283 | the subject options are `'Tous'` followed by the distinct truthy subjects in first-seen order, without duplicates |
| `YouTube.MarkersExclusive` | src/components/ResourcesClient.tsx:80 | the two marker alternatives, `youtube.com/watch?v=` and `youtu.be/`, cannot both match at one position |
| `YouTube.MarkerLen` | src/components/ResourcesClient.tsx:80 | the marker part of the expression matches at a position exactly when one of the two alternatives starts there, and then it fits in the string |
| `YouTube.IdRun` | src/components/ResourcesClient.tsx:80 | the greedy `[^&\s]` run is a maximal stretch of characters that are neither `&` nor ECMAScript whitespace |
| `YouTube.IdAt` | src/components/ResourcesClient.tsx:80 | the captured group is non-empty and holds no `&` and no whitespace |
| `YouTube.FindVideoId` | src/components/ResourcesClient.tsx:80 | the scan finds nothing exactly when the expression matches nowhere; otherwise it returns the group of the first position where it matches |
| `YouTube.FindVideoIdLeftmost` | src/components/ResourcesClient.tsx:80 | over the whole link, the scan returns the group of the leftmost match |
| `YouTube.LinkYieldsId` | src/components/ResourcesClient.tsx:80 | for a link made of a prefix without `y`, a marker and an id of `[^&\s]` characters, the id found is that id |
| `ResourcesClient.IsValidUrl` | src/components/ResourcesClient.tsx:18-20 | a link may be followed exactly when it is non-empty, holds `TON_ID` nowhere and starts with `http://` or `https://` |
| `ResourcesClient.PlaceholderUrlRejected` | src/components/ResourcesClient.tsx:18-20 | `https://TON_ID_PLACEHOLDER` is refused despite its scheme |
| `ResourcesClient.YoutubeThumbnail` | src/components/ResourcesClient.tsx:78-83 | a non-null, non-empty stored thumbnail is returned unchanged. Otherwise the result is the maxresdefault still of the leftmost match's id, or the placehold.co image when nothing matches |
| `ResourcesClient.ShortLinkGivesItsId` | src/components/ResourcesClient.tsx:80-81 | `https://youtu.be/<id>` with no stored thumbnail gives the still of `<id>` |
| `ResourcesClient.WatchLinkGivesItsId` | src/components/ResourcesClient.tsx:80-81 | `https://www.youtube.com/watch?v=<id>` with no stored thumbnail gives the still of `<id>` |
| `ResourcesClient.Stats` | src/components/ResourcesClient.tsx:305-307 | the figures are taken over the unfiltered catalogue: the entry count is the catalogue size and equals `videoCount + pdfCount`, and the XP total is the catalogue's XP sum, which equals the videos' XP plus the PDFs' XP |
| `ResourcesClient.HandleReset` | src/components/ResourcesClient.tsx:309-311 | whatever the previous state, the reset state is (ALL, `'Tous'`, `'Tous niveaux'`, `""`) and shows every catalogue in full |
| `ResourcesClient.Render` | src/components/ResourcesClient.tsx:750-777 | the empty state shows exactly when nothing is visible. The video (PDF) section shows exactly when the tab is ALL or VIDEO (PDF) and a video (PDF) is visible. The empty state and the sections exclude each other, and something visible always opens a section |
| `ResourcesClient.ResetEmptyOnlyForEmptyCatalogue` | src/components/ResourcesClient.tsx:755 | after the reset button, the empty state shows only for an empty catalogue |
| `Page.IsValidUrl` | src/app/page.tsx:47-49 | a link may be followed exactly when it is non-empty, holds `TON_ID` nowhere and starts with `http` |
| `Page.UrlCheckWeakerThanComponent` | src/app/page.tsx:47-49 | every link the component accepts is accepted by the page |
| `Page.UrlChecksDiverge` | src/app/page.tsx:47-49 | `httpfoo` is accepted by the page and refused by the component |
| `Text.AbsentFirstChar` | src/components/ResourcesClient.tsx:293 | a string that lacks the query's first character does not include the query |
| `Page.GetThumb` | src/app/page.tsx:51-55 | a truthy stored thumbnail is returned unchanged. Otherwise the result is the still of the leftmost match's id, or `""` when nothing matches |
| `Page.ThumbnailsDifferOnlyInFallback` | src/app/page.tsx:51-55 | a non-empty page thumbnail is the component's thumbnail. The page thumbnail is empty exactly when nothing is stored and nothing matches, and then the component shows its placeholder image |
| `Page.ThumbnailImageShown` | src/app/page.tsx:131-137 | the card shows an image exactly when there is a truthy stored thumbnail or a video id, and the image has not failed to load; otherwise it shows the play icon |
| `Page.PageState.constructor` | src/app/page.tsx:390-396 | the page starts loading, with the configuration assumed present, no entries and default filters |
| `Page.PageState.EnvMissing` | src/app/page.tsx:403-410 | missing configuration sets `envOk` and `loading` to false and leaves the entries and filters alone |
| `Page.PageState.LoadOk` | src/app/page.tsx:420-430 | a successful fetch replaces the entries with its rows, or with `[]` when the data is null, and ends loading |
| `Page.PageState.LoadErr` | src/app/page.tsx:427-431 | a failed fetch keeps the entries and ends loading |
| `Page.PageState.Mount` | src/app/page.tsx:399-435 | the mount effect always ends loading. It keeps `envOk` only when both values and the client are present. Only a successful fetch with configuration changes the entries |
| `Page.PageState.Reset` | src/app/page.tsx:463-468 | the reset restores the initial filters, leaves entries, `loading` and `envOk` unchanged, and makes every entry visible |
| `Page.PageState.SetTab` | src/app/page.tsx:631-641 | a tab button changes the tab only |
| `Page.PageState.SetSearch` | src/app/page.tsx:646-652 | the search box changes the search only |
| `Page.PageState.SetSubject` | src/app/page.tsx:654 | the subject select changes the subject only |
| `Page.PageState.SetLevel` | src/app/page.tsx:657 | the level select changes the level only |
| `Page.PageState.Subjects` | src/app/page.tsx:438-441 | the page's subject options are `'Tous'` followed by the distinct truthy subjects of its entries in first-seen order; they read no filter field |
| `Page.PageState.Visible` | src/app/page.tsx:443-457 | the page's visible list is an order-preserving subsequence of its entries. It holds exactly the matching entries, each as often as the entries do |
| `Page.PageState.VideosAndPdfs` | src/app/page.tsx:459-460 | `videos` holds only VIDEO entries and `pdfs` only PDF entries, each an order-preserving subsequence of the visible list; together they hold each visible entry once |
| `Page.PageState.TotalXpShown` | src/app/page.tsx:461 | the XP figure reads only the entries, never the filters, and equals the videos' XP plus the PDFs' XP |
| `Page.PageState.Screen` | src/app/page.tsx:471-700 | without configuration only the error screen is rendered. While loading, the skeleton shows and neither the empty state nor any section does. Once loaded, the page shows the same blocks as the component view for the same entries and filters |
| `Scenarios.MixedCatalogueStats` | src/components/ResourcesClient.tsx:305-307 | the catalogue [video 10 XP, PDF 5 XP, video 20 XP] has 3 entries, 2 videos, 1 PDF and 35 XP |
| `Scenarios.MixedCatalogueVideoTab` | src/components/ResourcesClient.tsx:287 | on that catalogue the VIDEO tab shows the two videos in catalogue order |
| `Scenarios.UpperCaseQueryFindsSubject` | src/components/ResourcesClient.tsx:291-295 | the query `REACT` finds an entry whose subject is `React` |
| `Scenarios.FacetsOfSharedSubjects` | src/components/ResourcesClient.tsx:283 | subjects React, "", null, Vue, React give the options `Tous`, `React`, `Vue` |
| `Scenarios.SearchByTitle` | src/components/ResourcesClient.tsx:290-299 | among titles `React Guide` and `Vue Basics`, `guide` keeps only the first, and the empty search keeps both |

## Left out

- Text.LowerChar: only ASCII capitals and the Latin-1 capitals U+00C0 to U+00DE (except U+00D7) are lowered.
  Every other character is left unchanged, so mappings such as 'Σ' to 'σ' are not captured.
- Text.Lower: built on `Text.LowerChar`, so full Unicode case mapping, including mappings that change the length,
  is not captured.
- Strings are sequences of Unicode scalar values, while JavaScript strings are UTF-16 code units. `includes`,
  `startsWith` and the regular expression agree with the model on well-formed strings, but strings holding lone
  surrogates cannot be represented.
- The view markup, the inline CSS, the SVG icons, the skeletons, the hover state and the `mounted` fade-in flag
  are presentation only. The component's image-error fallback (`imgError`, src/components/ResourcesClient.tsx:107)
  is also left out; on the page card it is a parameter of `Page.ThumbnailImageShown`.
- The `alert` and `preventDefault` calls on an invalid link, `console.error` logging and `toLocaleString`
  formatting are browser and locale behaviour.
- The fetch itself, the `await` and the `useEffect` scheduling are I/O. `Page.PageState.Mount` takes the
  presence of the two configuration values, the presence of the client and the fetch outcome as parameters.
  Teardown before the fetch resolves is not modelled.
- src/lib/supabase.ts (`createClient`, the start-up guard and `getResources`) is a foreign client and I/O.
- src/app/api/resources/route.ts (the HTTP endpoint) is not part of this model. Its filters are
  PostgREST query-builder calls whose semantics are not visible in the code.
- next.config.ts is build configuration only.
- The display-only fields `duration`, `pages`, `is_new` and `created_at` are not carried by `Catalog.Resource`.
  Neither the engine nor the URL and thumbnail helpers read them. The ordering by `created_at` is done by the
  data store.
- XP values are JavaScript numbers. The model sums them as unbounded integers, so floating-point rounding
  is not captured.
