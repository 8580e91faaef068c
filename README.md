# Market maker app: client-side data shaping, in Dafny

The app shows local markets on a map, a calendar and a list, and shows one
market edition in a detail dialog. All data comes from a hosted backend.
The client's own logic is small, and this project models it:

- `parseLocation` turns a `"lat,lng"` string into a pair of numbers, or null.
- The active-editions hook annotates each edition with its coordinates and
  drops the ones whose location does not parse.
- Four row mappers (map marker, list item, calendar event, detail) share
  one placeholder policy for the joined market. The name falls back to
  `"Unknown Market"` and the description to null.
- The map joins each edition to the first place with its `place_id`. It
  keeps the edition only if both coordinates are truthy.
- The list splits its items into upcoming and past.
- The calendar projects its rows to widget events.
- The detail dialog guards its query on the selected id. It maps the
  maker roster, picks one of three displays, and builds Instagram links.
- Each view keeps a nullable selected id. A click sets it and closing clears it.

Modules follow the source files:

- `Supabase` is `src/lib/supabase.ts`.
- `UseMarkets` is `src/hooks/useMarkets.ts`.
- `MarketMap`, `MarketList` and `MarketCalendar` are the three pages.
- `MarketDetailModal` is the dialog.
- `ViewModel` holds the shared placeholder policy.
- `Selection` holds the selected-id state as a class, `MarketSelection`.
- `JsStrings` holds the two JavaScript string operations used: `split` and
  single-character `replace`.
- `Seqs` holds `map`, `filter` and the drop-the-nulls filter, with their lemmas.
- `Wrappers` holds `Option` and `Result`.

Modelling choices:

- JavaScript `Number()` is a parameter `parseNum: string -> Option<Num>`.
  `None` is NaN.
- `Num` has finite values and the two infinities. This lets the model state
  that only NaN is rejected.
- A location column is `Option<string>`. `None` is a null column. There
  `split` would throw, and `parseLocation`'s `catch` returns null.
- Dates are abstract day numbers, ordered as integers.
- Backend fetches are inputs. The detail query's backend call is the
  parameter `fetch`. The query filters appear as predicates on the rows:
  `UseMarkets.ActiveQueryResult` and `MarketMap.DatedQuery`.
- The map's places are a sequence. A null `places` finds no place, the same
  as an empty sequence.
- Mappers are functions, so mapping the same row twice gives the same view
  model by construction.

Behaviour of the code that is easy to misread:

- `parseLocation` rejects NaN only (`src/lib/supabase.ts:39`): infinite
  values pass, and so do empty pieces, which `Number` reads as 0 (`","`
  gives `[0, 0]`, see `Supabase.ParseLocationOfEmptyPieces`). `Supabase.ParseLocationAcceptsInfinity` shows
  that an infinite latitude is accepted.
- Map markers take their coordinates from the place's `latitude` and
  `longitude` columns, not from `parseLocation`. A coordinate of 0 counts as
  missing (`src/pages/MarketMap.tsx:157`).
- The dialog is open, and its query enabled, iff `!!marketId`. This is
  false for null and also for the empty string
  (`src/components/MarketDetailModal.tsx:98,103`).
- The joined market is read as a single object (`market?.name`). An
  array-shaped join would have no `name` and fall back to the placeholder.
- A detail fetch is keyed by the selected id
  (`src/components/MarketDetailModal.tsx:52`); no other code deals with a fetch
  that is still running when the selection changes.

## Model

| member | source | states |
|---|---|---|
| `JsStrings.Split` | src/lib/supabase.ts:38 | `split(',')` always gives at least one piece, no piece holds the separator, and joining the pieces with the separator gives the string back |
| `JsStrings.SplitWithoutSeparator` | src/lib/supabase.ts:38 | a string splits to one piece, itself, exactly when it has no separator |
| `JsStrings.SplitAtFirstSeparator` | src/lib/supabase.ts:38 | the text before the first separator is the first piece, and the rest is split on its own |
| `JsStrings.SplitJoin` | src/lib/supabase.ts:38 | splitting joined separator-free pieces gives the pieces back (the other half of the round trip) |
| `JsStrings.ReplaceFirst` | src/components/MarketDetailModal.tsx:160 | `replace('@', '')` removes only the first occurrence: one character shorter, the same characters less one `@`, and the prefix before it has no `@`; without an `@` the string is unchanged |
| `JsStrings.LeadingOccurrenceRemoved` | src/components/MarketDetailModal.tsx:160 | a leading `@` is the one removed |
| `Supabase.ParseLocation` | src/lib/supabase.ts:35-46 | a null location gives null rather than throwing, and a pair needs a comma in the string |
| `Supabase.ParseLocationWithoutComma` | src/lib/supabase.ts:38-39 | a string without a comma has no second piece, which converts to NaN, so the result is null |
| `Supabase.ParseLocationOfPair` | src/lib/supabase.ts:38-41 | for `"a,b"` the result is a pair iff both pieces convert to non-NaN numbers, and then it is (value of a, value of b) in that order |
| `Supabase.ParseLocationIgnoresTail` | src/lib/supabase.ts:38 | `"a,b,rest"` gives the same result as `"a,b"` |
| `Supabase.ParseLocationAcceptsInfinity` | src/lib/supabase.ts:39 | an infinite latitude is accepted and returned as it is: the check rejects NaN only |
| `Supabase.ParseLocationOfEmptyPieces` | src/lib/supabase.ts:38-41 | `","` gives (0, 0) when `Number("")` is 0: empty pieces are not rejected |
| `Supabase.ParseLocationExample` | src/lib/supabase.ts:35-42 | `"45.50,-73.57"` gives (45.50, -73.57) when `Number` reads the pieces as those values |
| `ViewModel.ResolveMarketName` | src/pages/MarketList.tsx:43 | the market's name when there is a market with a non-empty name, else `"Unknown Market"`; never empty |
| `ViewModel.ResolveDescription` | src/pages/MarketList.tsx:44 | the market's description iff there is a market whose description is a non-empty string, else null |
| `ViewModel.ResolveIsIdempotent` | src/pages/MarketList.tsx:43-44 | resolving an already resolved market changes neither name nor description |
| `UseMarkets.ActiveQueryResult` | src/hooks/useMarkets.ts:16-18 | what the query promises of its rows: each is active and has not ended by today, and they come in ascending order of start date |
| `UseMarkets.ActiveMarketEditions` | src/hooks/useMarkets.ts:22-25 | every returned edition has non-null coordinates equal to `parseLocation` of its own location, and there are no more results than rows |
| `UseMarkets.ActiveEditionsAreTheLocatableRows` | src/hooks/useMarkets.ts:22-25 | the result is exactly the rows whose location parses, in input order, each row kept whole |
| `UseMarkets.ActiveEditionsDropExactlyUnparsed` | src/hooks/useMarkets.ts:22-25 | an edition appears in the result iff it is in the input and its location parses, so it is dropped iff its location gives null |
| `UseMarkets.ActiveEditionsKeepQueryGuarantees` | src/hooks/useMarkets.ts:16-25 | if the query returned active, not-yet-ended rows sorted by start date, the result is still sorted and every edition in it is still active and not ended |
| `Selection.MarketSelection.constructor` | src/pages/MarketList.tsx:18 | a view starts with nothing selected |
| `Selection.MarketSelection.Select` | src/pages/MarketMap.tsx:272 | selecting sets the id and replaces any earlier selection |
| `Selection.MarketSelection.Close` | src/pages/MarketMap.tsx:185 | closing the dialog sets the selection to null, including when nothing was selected |
| `Selection.MarketSelection.DialogOpen` | src/components/MarketDetailModal.tsx:103 | the dialog for the view's selection is open only when an id is selected |
| `Selection.MarketSelection.FetchEnabled` | src/components/MarketDetailModal.tsx:98 | the detail fetch for the view's selection is enabled exactly when its dialog is open |
| `MarketDetailModal.DialogOpen` | src/components/MarketDetailModal.tsx:103 | the dialog is open iff an id is given and it is not empty |
| `MarketDetailModal.QueryEnabled` | src/components/MarketDetailModal.tsx:98 | the detail query is enabled exactly when the dialog is open |
| `MarketDetailModal.ToRosterEntry` | src/components/MarketDetailModal.tsx:89-95 | a null maker becomes an entry with no fields; a present maker's entry has its id, name, description, website and handle unchanged |
| `MarketDetailModal.ToMarketDetails` | src/components/MarketDetailModal.tsx:82-96 | id, edition name and dates copied; placeholder name and null-description policy; the roster has one entry per link, in link order, with null makers kept |
| `MarketDetailModal.RosterKeepsEveryMaker` | src/components/MarketDetailModal.tsx:89-95 | every maker linked to the edition appears in the roster with its fields unchanged |
| `MarketDetailModal.FetchDetails` | src/components/MarketDetailModal.tsx:53-97 | it rejects with "No market ID" iff no id is given; otherwise it passes on a backend rejection or returns the mapped row |
| `MarketDetailModal.EnabledQueryHasAnId` | src/components/MarketDetailModal.tsx:54-98 | the enabled query never rejects for a missing id, and a disabled one always would |
| `MarketDetailModal.DisplayFor` | src/components/MarketDetailModal.tsx:119-181 | exactly one display: loading iff loading; details iff not loading and details are present (and then those details); "Market not found" otherwise |
| `MarketDetailModal.InstagramHref` | src/components/MarketDetailModal.tsx:160 | the link is `https://instagram.com/` followed by the handle with its first `@` removed |
| `MarketDetailModal.InstagramHrefDropsLeadingAt` | src/components/MarketDetailModal.tsx:160 | `@handle` links to `https://instagram.com/handle` |
| `MarketDetailModal.InstagramHrefKeepsLaterAts` | src/components/MarketDetailModal.tsx:160 | only the first `@` goes: `a@b@c` links to `https://instagram.com/ab@c` |
| `MarketDetailModal.Shown` | src/components/MarketDetailModal.tsx:144-158 | an optional text is shown iff it is non-null and non-empty, and then unchanged |
| `MarketDetailModal.ToMakerCard` | src/components/MarketDetailModal.tsx:141-169 | a maker card shows the name; it shows the description and website only when truthy; it has an Instagram link, labelled with the handle, iff the handle is truthy |
| `MarketDetailModal.MakersSectionFor` | src/components/MarketDetailModal.tsx:140-173 | an empty roster shows the no-makers message; otherwise there is one card per maker, in order |
| `MarketMap.FindPlace` | src/pages/MarketMap.tsx:155 | no place iff none has the edition's `place_id`; otherwise the place at the first index with that id |
| `MarketMap.BuildMarker` | src/pages/MarketMap.tsx:154-170 | a marker iff the first matching place has truthy (non-null, non-zero) latitude and longitude; it copies id, name and dates, applies the placeholder policy, and takes its location from that first place |
| `MarketMap.BuildMarkers` | src/pages/MarketMap.tsx:153-171 | there are never more markers than editions |
| `MarketMap.MarkersFollowPlottableEditions` | src/pages/MarketMap.tsx:153-171 | the markers are, in order, one per edition that has a plottable place; those editions are an order-preserving subsequence of the input |
| `MarketMap.ZeroCoordinateDropsEdition` | src/pages/MarketMap.tsx:157-158 | a place with a zero latitude or longitude gives no marker |
| `MarketMap.FirstMatchingPlaceWins` | src/pages/MarketMap.tsx:155-166 | when two places share the id, the marker takes the first one's coordinates |
| `MarketMap.DatedQuery` | src/pages/MarketMap.tsx:146-148 | the requested rows are exactly the active editions whose start date lies in the window, inclusive at both ends |
| `MarketMap.MarkersStartInWindow` | src/pages/MarketMap.tsx:147-171 | every marker built from the dated query starts inside the window |
| `MarketMap.DatedQueryExample` | src/pages/MarketMap.tsx:147-148 | with window January 1-31, of editions starting Dec 31, Jan 15 and Feb 1 only the Jan 15 one is requested |
| `MarketMap.DateWindow.constructor` | src/pages/MarketMap.tsx:119-120 | the window starts today and ends 30 days later |
| `MarketMap.DateWindow.EndDateDisabled` | src/pages/MarketMap.tsx:236 | an end date is disabled iff it is before the current start date |
| `MarketMap.DateWindow.PickStartDate` | src/pages/MarketMap.tsx:208 | a picked start date replaces the start; a cleared picker changes nothing; the end is unchanged |
| `MarketMap.DateWindow.PickEndDate` | src/pages/MarketMap.tsx:234-236 | a picked, enabled end date replaces the end, so the end is then not before the start; otherwise nothing changes |
| `MarketMap.SeeDetails` | src/pages/MarketMap.tsx:99-104 | "See details" selects the marker's edition id |
| `MarketList.ToListItem` | src/pages/MarketList.tsx:40-48 | copies id, dates and active flag; `name` becomes `edition_name`; the placeholder name (never empty) and the null-description fallback |
| `MarketList.ToListItems` | src/pages/MarketList.tsx:40-48 | one item per row, same length and order |
| `MarketList.UpcomingMarkets` | src/pages/MarketList.tsx:57 | every upcoming item starts on or after today; the items keep their fetched order; empty when no data has arrived |
| `MarketList.PastMarkets` | src/pages/MarketList.tsx:58 | every past item starts before today; the items keep their fetched order; empty when no data has arrived |
| `MarketList.PartitionIsExact` | src/pages/MarketList.tsx:57-58 | each item is in exactly one of the two lists, their lengths add up to the input length, and together they hold the input's multiset |
| `MarketList.PartitionExample` | src/pages/MarketList.tsx:56-58 | with today 2025-01-01, an edition of 2024-01-01 is past and one of 2025-06-01 is upcoming |
| `MarketList.SelectCard` | src/pages/MarketList.tsx:114 | clicking a card selects that card's id |
| `MarketCalendar.ToMarketEvent` | src/pages/MarketCalendar.tsx:41-48 | copies id, name and dates; the placeholder name (never empty) and the null-description fallback |
| `MarketCalendar.ToMarketEvents` | src/pages/MarketCalendar.tsx:41-48 | one mapped row per fetched row, same length and order |
| `MarketCalendar.ToCalendarEvent` | src/pages/MarketCalendar.tsx:53-61 | same id; the title is the edition name; start and end are the market's dates; the extended props carry the market name, the edition name (equal to the title) and the description |
| `MarketCalendar.CalendarEvents` | src/pages/MarketCalendar.tsx:52-62 | the events are undefined exactly when the markets are; otherwise there is one event per market, in order |
| `MarketCalendar.EventsFollowRows` | src/pages/MarketCalendar.tsx:41-62 | from fetched rows, the i-th event has the i-th row's id, name as title and dates, plus its resolved market name and description |
| `MarketCalendar.ClickEvent` | src/pages/MarketCalendar.tsx:77-78 | clicking an event selects that event's id |

## Left out

- Backend access is not modelled: the client, its URL and key, and the
  queries themselves (`src/lib/supabase.ts:2-7`). Query results are inputs,
  and the query filters are predicates on them.
- `useMarketEdition` (`src/hooks/useMarkets.ts:30-47`) is not modelled. It
  returns the query's row unchanged and does no shaping.
- React Query caching, request deduplication and refetching on a key change
  are not modelled. This includes the map's refetch when a date changes. The
  code has no explicit discard of a stale detail fetch, so none is modelled.
- `Number()` float parsing is not modelled, because it is floating-point
  numerics. It is the parameter `parseNum`.
- Place coordinates are `Option<real>`, so a NaN coordinate cannot occur.
  The model does not capture that NaN would also be falsy.
- JavaScript `Date` semantics are not modelled: time of day, time zones,
  `toISOString().split('T')[0]`, `format` and `toLocaleDateString`. Dates are
  day numbers. So the model misses two effects of time of day:
  - The list compares `new Date(start_date)` (midnight UTC) with the current
    instant, so an edition starting today counts as past.
  - The end-date picker compares midnight picker dates with a start that
    carries the current time.
- Invalid dates, where every comparison is false, are left out.
- In the detail roster, `undefined` and `null` are both `None`. The view
  only tests them for truthiness.
- Identifiers are strings, as the views declare them. `src/lib/supabase.ts`
  declares numeric ids.
- Rendering and widget configuration are not modelled. This covers markup,
  styling, Leaflet icons, `DEFAULT_CENTER`, `maxBounds`, zoom limits, tile
  layer, FullCalendar and the dialog toolkit. It also covers the map's and
  list's loading screens and the popup's map re-centring (`setView`).
- `src/components/Layout.tsx` and `src/router.tsx` are not part of this
  model. They are a static navigation shell and route table.
- The `.single()` row-count check of the detail query is part of the `fetch`
  parameter.
