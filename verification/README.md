# Triggers dashboard: a Dafny model of the client-side view logic

The Triggers dashboard is a Next.js front end for the Triggers event API.
It loads the pending-event inbox, shows it in several ways, and acknowledges
events. This project models the part of it that computes:

- the typed API client (`lib/api.ts`):
  - how each call's URL, headers and body are built;
  - the inbox query string;
  - how a reply turns into a value or an `APIError`.
- the event inbox:
  - the search and status filter;
  - what a successful or failed acknowledgement does to the list, the selection and the stored `acknowledgedCount` counter;
  - the card and filter toggles.
- the source chart: events counted per source, rounded percentages, largest first (ties in `Object.entries` order), top five.
- the quick-stats cards: the stats endpoint, the inbox-plus-counter fallback and the error state.
- the recent-activity feed: received events merged with ledger entries, newest first, five at most.
- the timeline: events bucketed by day, newest day first.
- the demo API-key list: the default key, toggling visibility, creating, revoking and masking keys.
- the rate-limit card: the severity classifier, minutes until reset, bar colours and capped bar widths.

Everything is written as immutable datatypes and pure functions. Anything
the code reads from outside is an explicit input:
- the reply a call settles with, as a `Result` (`Ok`, or an `ApiFailure`: `HttpError`, `NetworkError` or `InvalidBody`);
- a browser-storage entry, as an `Option<string>` or a small datatype;
- the clock: a millisecond timestamp, or the minute of the hour;
- the random characters of a new key;
- the simulated usage figures.

Modules:
- Shared pieces:
  - `Wrappers`: `Option`, `Result`.
  - `Seqs`: a generic filter, a stable descending insertion sort, take-first-n, and a group-by fold.
  - `Text`: ASCII lower-casing, substring search, split and join.
  - `Numbers`: a JavaScript number as an integer or NaN, `String(n)`, `parseInt`, and `Math.round` of a percentage.
  - `Json`: JSON values and `JSON.stringify`.
- One module per source file: `Api`, `AckCounter`, `Inbox`, `SourceChart`, `QuickStats`, `RecentActivity`, `Timeline`, `ApiKeys`, `RateLimits`.

Percentages and thresholds are compared by integer cross-multiplication.
For example, `used / limit * 100 >= 90` becomes `used * 100 >= 90 * limit`.

## Model

| member | source | states |
|---|---|---|
| Api.BaseUrl | lib/api.ts:6 | the configured URL when it is set and non-empty, otherwise `http://localhost:8000` |
| Api.PrepareRequest | lib/api.ts:69-77 | the URL is the base followed by the endpoint; the headers are `Content-Type: application/json` plus the caller's headers, the caller's winning on a clash; method and body pass through |
| Api.Complete | lib/api.ts:55-85 | a 2xx reply returns its parsed body unchanged; any other status rejects with an `APIError` carrying that status, the body and the body's `message` (a string message verbatim); a non-2xx reply whose body has no `message` string gives the message ""; a rejected fetch or an unreadable or null body is not an `APIError` |
| Api.FailureText | components/event-inbox.tsx:29-33 | an `APIError` shows its own message; any other failure shows the view's fixed text |
| Api.InboxQuery | lib/api.ts:108-112 | limit, offset, source and since appear in that order; each appears exactly when present and truthy (non-zero, non-empty), with its value |
| Api.InboxQueryOrdered | lib/api.ts:108-111 | the parameters that are present appear in the order limit, offset, source, since |
| Api.InboxPath | lib/api.ts:114-115 | the path is exactly `/v1/events/inbox` if and only if no parameter is truthy; otherwise it is that path, `?`, and the query |
| Api.InboxPathRoundTrip | lib/api.ts:108-115 | reading the parameters back out of the built path gives exactly the pairs the builder set |
| Api.LimitOnlyRequest | lib/api.ts:108-115 | with only a non-zero limit, the URL is base + `/v1/events/inbox?limit=` + the limit's decimal form |
| Api.AckPath | lib/api.ts:122 | the path is `/v1/events/`, then the event id unchanged, then `/ack` |
| Api.AcknowledgeRequest | lib/api.ts:121-125 | acknowledging is a POST to base + `/v1/events/` + id + `/ack` with the JSON content type |
| Api.EventRequestJson | lib/api.ts:92-96 | the create body always has the payload; source, tags and metadata appear exactly when given, the source as that string and the tags as an array of those strings in order |
| Api.PlainHeaders | lib/api.ts:69-77 | a call that passes no headers of its own sends exactly the JSON content type |
| Api.CreateEventRequest | lib/api.ts:92-97 | creating an event is a POST to base + `/v1/events` with the JSON content type and the serialised event as the body |
| Api.GetInboxRequest | lib/api.ts:102-116 | reading the inbox is a GET of base + the inbox path for the given parameters, with the JSON content type and no body |
| Api.GetStatsRequest | lib/api.ts:130-132 | reading the statistics is a GET of base + `/v1/events/stats` with the JSON content type and no body |
| Api.HealthCheckRequest | lib/api.ts:137-139 | the health check is a GET of base + `/health` with the JSON content type and no body |
| AckCounter.ReadCount | components/event-inbox.tsx:54 | an absent or empty counter reads as 0, through the `'0'` fallback; any other stored value is read with `parseInt` |
| AckCounter.Bumped | components/event-inbox.tsx:54-55 | reading back the written counter gives the previous reading plus one (NaN stays NaN); an absent counter becomes "1" |
| Numbers.ParseRender | components/event-inbox.tsx:54-55 | `parseInt(String(x), 10)` gives back `x`, so the counter survives a write and a read |
| Numbers.AllIsHundred | components/event-sources-chart.tsx:46 | a count equal to the whole is exactly 100 percent |
| Numbers.RoundedPercent | components/event-sources-chart.tsx:46 | the result is within one half of `part * 100 / whole`, halves rounding up, and lies in 0..100 when `0 <= part <= whole` |
| Text.Includes | components/event-inbox.tsx:81-82 | true exactly when the needle occurs at some position of the haystack |
| Inbox.FilteredEvents | components/event-inbox.tsx:79-85 | the shown list is a subsequence of the events; an event is kept iff (its lower-cased source, when present, or its lower-cased serialised payload contains the lower-cased term) and (no status filter, or an equal status); every occurrence of a kept event is kept |
| Inbox.FilterTwice | components/event-inbox.tsx:79-85 | filtering the filtered list again with the same term and status changes nothing |
| Inbox.EmptySearchShowsAll | components/event-inbox.tsx:81-84 | with an empty term and no status filter every event is shown |
| Inbox.Refresh | components/event-inbox.tsx:22-38 | a successful load replaces the list and clears the error; a failed load keeps the list and sets the failure's text |
| Inbox.Acknowledge | components/event-inbox.tsx:46-69 | on success, the events with that id are removed, the others keep their order and multiplicity, the selection is cleared, the counter reads one more and the notification is sent; on failure, the list, selection and counter are unchanged and the alert carries the `APIError` message |
| Inbox.ServerMessageShown | components/event-inbox.tsx:28-61 | a non-2xx reply whose body has a string `message` m shows m as the inbox error and "Failed to acknowledge event: " + m as the alert |
| Inbox.OtherFailureShown | components/event-inbox.tsx:28-63 | a rejected fetch, a missing body or a null error body shows "Failed to load events" and "Failed to acknowledge event" |
| Inbox.ClickCard | components/event-inbox.tsx:190 | clicking the selected card clears the selection; clicking any other card selects it |
| Inbox.ClickCardTwice | components/event-inbox.tsx:190 | clicking the same card twice restores a cleared or same-card selection |
| Inbox.TogglePending | components/event-inbox.tsx:166 | the Pending button sets the filter to "pending" unless it already is, in which case it clears it |
| Inbox.TogglePendingTwice | components/event-inbox.tsx:166 | on the two values the buttons produce, pressing Pending twice restores the filter |
| Inbox.ShowAll | components/event-inbox.tsx:158 | the All button clears the status filter and changes nothing else |
| SourceChart.SourceOf | components/event-sources-chart.tsx:36 | a missing or empty source counts as "unknown" |
| SourceChart.SourceCounts | components/event-sources-chart.tsx:34-38 | one entry per source, names pairwise different, each count the number of events from that source and positive, every event's source present, and the entries in the order their sources first occur among the events |
| SourceChart.CountsAddUp | components/event-sources-chart.tsx:34-38 | before truncation the counts sum to the number of events |
| SourceChart.ArrayIndex | components/event-sources-chart.tsx:42 | a source name counts as an array index exactly when it is the decimal form, without leading zeros, of a number below 2^32 - 1, and then names that number |
| SourceChart.EntriesOrder | components/event-sources-chart.tsx:42 | `Object.entries` lists the same entries, array-index names first in ascending numeric order, the other names after them in creation order |
| SourceChart.RankedSlices | components/event-sources-chart.tsx:40-48 | the slices are ordered by non-increasing count; each has its source's count and that count's rounded share; every source has a slice |
| SourceChart.TiesInEntriesOrder | components/event-sources-chart.tsx:42-48 | sources with equal counts appear in the `Object.entries` order, since the sort is stable |
| SourceChart.TiesFirstSeen | components/event-sources-chart.tsx:34-48 | among sources with equal counts, those whose names are not array indices are ranked in the order the page first saw them |
| SourceChart.SourceDistribution | components/event-sources-chart.tsx:40-49 | at most five slices, in non-increasing order of count, a prefix of the ranked slices; for each count, the shown sources with that count are the first ones of the ranking with that count |
| SourceChart.DistributionFaithful | components/event-sources-chart.tsx:41-46 | shown sources are pairwise different; each count is that source's number of events; each percentage is that count's share of max(n, 1), rounded, and lies in 0..100 |
| SourceChart.DistributionDropsSmaller | components/event-sources-chart.tsx:48-49 | a source cut off by the top-five truncation has no more events than any shown source |
| SourceChart.DistributionComplete | components/event-sources-chart.tsx:48-49 | with fewer than five slices every source is shown |
| SourceChart.SourceDistributionAsWritten | components/event-sources-chart.tsx:34-49 | as written, at most five slices, largest first, each faithful to the events, and never one for "__proto__" |
| SourceChart.AsWrittenIsFilteredRanking | components/event-sources-chart.tsx:34-49 | as written, the chart is the corrected ranking with the "__proto__" slice struck out, cut to the first five: every other source keeps its count, percentage and place |
| SourceChart.EntriesOrderWithoutProto | components/event-sources-chart.tsx:42 | "__proto__" is not an array index, so dropping it before or after the `Object.entries` ordering gives the same list |
| SourceChart.AsWrittenDropsSmaller | components/event-sources-chart.tsx:48-49 | as written, a source other than "__proto__" left out of the chart has no more events than any shown source |
| SourceChart.AsWrittenAgreesWithoutProto | components/event-sources-chart.tsx:34-49 | when no event comes from "__proto__", the chart as written is the corrected chart |
| SourceChart.ProtoSourceDropped | components/event-sources-chart.tsx:37 | with every event from "__proto__", the chart as written is empty while the corrected chart shows that source with all events and 100% |
| SourceChart.ProtoOnlySlice | components/event-sources-chart.tsx:34-49 | with every event from "__proto__", the corrected chart is the single slice ("__proto__", n, 100) |
| SourceChart.SourcesRequest | components/event-sources-chart.tsx:31 | the chart asks for `/v1/events/inbox?limit=100` |
| SourceChart.EmptyInboxNoSlices | components/event-sources-chart.tsx:33-49 | an empty inbox gives an empty chart |
| SourceChart.FetchSourceData | components/event-sources-chart.tsx:31-55 | a failed load shows an empty chart |
| Seqs.SortDesc | components/event-sources-chart.tsx:48 | the result is ordered by non-increasing key and is a permutation of the input |
| Seqs.SortDescStable | components/recent-activity.tsx:56 | elements with equal keys keep their relative order, as `Array.prototype.sort` does |
| Seqs.FilterSortDesc | components/event-sources-chart.tsx:48 | sorting the elements a filter keeps gives the kept elements of the sorted list, because the sort is stable |
| Seqs.FilterSize | components/quick-stats.tsx:39 | `filter(p).length` is the number of positions whose element satisfies p |
| Seqs.TopKeepsLargest | components/recent-activity.tsx:56-57 | after sorting, an element cut off by keeping the first n has a key no larger than any kept element's |
| Seqs.GroupByFirstSeen | components/event-sources-chart.tsx:34-38 | the `reduce` creates the keys in the order they first occur in the input: each key occurs, and earlier groups have earlier first occurrences |
| Seqs.GroupByIsGrouping | components/event-timeline.tsx:17-24 | the `reduce` gives distinct keys, each group exactly the input's elements with that key in input order, no empty group, and every element's key present |
| Seqs.GroupBySize | components/event-timeline.tsx:17-24 | the group sizes add up to the input length |
| QuickStats.PendingCount | components/quick-stats.tsx:39 | the pending count is the number of positions holding an event with status "pending"; hence at most the list length, 0 iff no event is pending, and the full length when all are |
| QuickStats.FallbackRequest | components/quick-stats.tsx:38 | the fallback asks for `/v1/events/inbox?limit=100` |
| QuickStats.FromInbox | components/quick-stats.tsx:38-49 | pending is the number of pending events; total is the inbox total when non-zero, else pending; acknowledged is the stored counter, 0 when absent; status healthy |
| QuickStats.FetchStats | components/quick-stats.tsx:24-53 | a successful stats call is copied verbatim with status healthy; otherwise the fallback numbers from the inbox; if both calls fail the previous numbers stay and only the status becomes error, and only then |
| QuickStats.FailuresKeepCounts | components/quick-stats.tsx:50-52 | any number of refreshes in which both calls fail leave the numbers on the cards unchanged |
| QuickStats.FallbackAfterAcknowledge | components/quick-stats.tsx:42 | after one acknowledgement the fallback shows one more acknowledged event than before |
| RecentActivity.ActivityRequest | components/recent-activity.tsx:24 | the feed asks for `/v1/events/inbox?limit=10` |
| RecentActivity.ReceivedItem | components/recent-activity.tsx:29-35 | a received line keeps the event's id and time; a missing or empty source reads "unknown source" |
| RecentActivity.ShortId | components/recent-activity.tsx:46 | a prefix of the id: the whole id when it has at most eight characters, otherwise exactly its first eight |
| RecentActivity.AcknowledgedItem | components/recent-activity.tsx:43-49 | an acknowledged line has id "ack-" + the event id, shows the first eight characters, and uses the acknowledgement time, or now when it is missing or 0 |
| RecentActivity.Candidates | components/recent-activity.tsx:27-50 | the first five events as received lines, then the first three ledger entries as acknowledged lines; an unreadable ledger adds none |
| RecentActivity.FetchActivities | components/recent-activity.tsx:22-63 | at most five lines, newest first, drawn from the candidates, as many as there are up to five; for each time, the lines shown with that time are the first candidates with that time, in candidate order; a failed inbox load gives an empty feed |
| RecentActivity.TiesKeepCandidateOrder | components/recent-activity.tsx:56-57 | after the stable sort and the cut to five, the lines with any one time are a prefix of the candidates with that time |
| RecentActivity.ShownComeFromSources | components/recent-activity.tsx:27-50 | every shown received line is one of the first five events; every shown acknowledged line is one of the first three ledger entries |
| RecentActivity.DroppedNotNewer | components/recent-activity.tsx:56-57 | a candidate cut off by the truncation is no newer than any shown line |
| RecentActivity.UnreadableLedgerIgnored | components/recent-activity.tsx:38-53 | an unreadable ledger gives the same feed as an empty one, so the received lines still show |
| Timeline.DayOf | components/event-timeline.tsx:18 | the day is the one whose millisecond range contains the timestamp |
| Timeline.GroupedEvents | components/event-timeline.tsx:17-24 | one bucket per day with events, days pairwise different; each bucket is exactly that day's events in list order; bucket sizes add up to the number of events |
| Timeline.EventInItsBucket | components/event-timeline.tsx:17-24 | an event is in a bucket iff it is in the list and has that bucket's day; a bucket is a subsequence of the list |
| Timeline.KeysAreEventDays | components/event-timeline.tsx:26 | the bucket days are exactly the days some event falls on |
| Timeline.SortedKeysStrict | components/event-timeline.tsx:26-28 | sorting distinct days newest first gives a strictly decreasing sequence |
| Timeline.SortedDates | components/event-timeline.tsx:26-28 | each day with events appears once, one per bucket, strictly newest first |
| ApiKeys.DefaultKey | components/api-key-management.tsx:39-46 | the demo key is a production key with id "1", prefix `sk_live` and key `sk_live_` followed by the random characters |
| ApiKeys.LoadKeys | components/api-key-management.tsx:27-53 | a stored list is used as it is; with nothing stored, exactly one production key with prefix `sk_live`, key string `sk_live_` followed by the given suffix and never used, is shown and written back; an unreadable entry leaves the list empty |
| ApiKeys.LoadWriteBack | components/api-key-management.tsx:27-53 | loading what the first load wrote back gives the same single demo key and writes nothing |
| ApiKeys.ToggleVisibility | components/api-key-management.tsx:58-68 | the toggled id's visibility flips and every other id's stays |
| ApiKeys.ToggleTwice | components/api-key-management.tsx:58-68 | toggling twice restores the visible set |
| ApiKeys.TestKeyCount | components/api-key-management.tsx:79 | the count is the number of positions holding a test key, at most the list length |
| ApiKeys.CreateKey | components/api-key-management.tsx:76-88 | one key is appended at the end and the others are unchanged; it is a test key with prefix `sk_test`, named "Test Key " followed by one more than the number of existing test keys |
| ApiKeys.CreateCountsUp | components/api-key-management.tsx:79 | creating a key adds exactly one test key, so the next name counts one further |
| ApiKeys.RevokeKey | components/api-key-management.tsx:90-96 | once confirmed, exactly the keys with that id are removed and the others keep their order; unconfirmed, nothing changes |
| ApiKeys.RevokeTwice | components/api-key-management.tsx:90-96 | revoking the same id again changes nothing |
| ApiKeys.IndexOf | components/api-key-management.tsx:99 | the first position of the character, or -1 exactly when it is absent |
| ApiKeys.MaskKey | components/api-key-management.tsx:98-101 | the mask is the key up to and including its first "_", followed by 32 bullets; with no "_" it is the 32 bullets alone |
| ApiKeys.MaskHidesSecret | components/api-key-management.tsx:99-100 | keys that agree up to their first "_" get the same mask, so nothing after it is revealed |
| ApiKeys.MaskKeyAsWritten | components/api-key-management.tsx:100 | as written, the mask is the key up to its first "_", then the three characters "â€¢" 32 times over, 96 characters in all |
| ApiKeys.MaskAsWrittenDiffers | components/api-key-management.tsx:100 | as written, the mask is 64 characters longer than intended and contains no bullet after the prefix |
| ApiKeys.DisplayedKeyAsWritten | components/api-key-management.tsx:210 | as written, a visible key is shown in full and a hidden one with the misencoded mask, without a single bullet after the prefix |
| ApiKeys.DisplayedKey | components/api-key-management.tsx:210 | a visible key is shown in full, a hidden one with the corrected mask |
| RateLimits.Classify | components/rate-limiting-indicators.tsx:47-53 | critical iff the usage is at least 90% of the limit; warning iff it is at least 75% and below 90%; normal iff it is below 75% |
| RateLimits.ClassifyMonotone | components/rate-limiting-indicators.tsx:48-53 | more usage never gives a less severe status |
| RateLimits.MinuteThresholds | components/rate-limiting-indicators.tsx:47-53 | against the limit of 20: critical iff 18 or more requests, warning iff 15 to 17, normal below 15 |
| RateLimits.ResetIn | components/rate-limiting-indicators.tsx:41-45 | for a clock minute in 0..59, the minutes to the reset lie in 1..60 and add up to 60 with the minute |
| RateLimits.HourColorFollowsSeverity | components/rate-limiting-indicators.tsx:120 | the hour bar's colour follows the same 90/75 thresholds, with blue where the minute bar would be green |
| RateLimits.BarWidth | components/rate-limiting-indicators.tsx:122 | the width never exceeds 100% and never exceeds the usage's share |
| RateLimits.BarWidthFull | components/rate-limiting-indicators.tsx:139 | usage at or above the limit fills the bar exactly; usage below shows its share uncut; more usage never gives a shorter bar |
| RateLimits.MinutePercentLabel | components/rate-limiting-indicators.tsx:143 | the label is the per-minute share rounded to the nearest integer, within 0..100 for usage within the limit |
| RateLimits.UpdateRateLimits | components/rate-limiting-indicators.tsx:38-67 | the limits are 1000 an hour and 20 a minute; the reset lies in 1..60; the status is critical from 18, a warning from 15 to 17, otherwise normal |

## Left out

- Rendering, styling, icons, badges, the animated counters and the event-details modal: presentation only.
- `fetch`, `response.json()` and `process.env`: each call's reply and the configured base URL are inputs.
- Api.QueryString: `URLSearchParams` percent-encoding is not modelled; values are written as given. The query round trip is therefore stated only for source and since filters without `&`.
- Api.Complete: a non-string `message` member is converted with a simplified `String(v)`. The reply body is already parsed JSON: the unchecked `as T` casts are not modelled.
- Text.Lower: lower-cases only the ASCII letters A–Z. `toLowerCase` also maps the rest of Unicode, and its one-to-many mappings are not modelled.
- Json.Serialize: numbers are integers and member order is as given. JavaScript's ordering of integer-like keys first is not modelled, nor `undefined` or non-finite values.
- Numbers.ParseRender: numbers are unbounded integers. The page's counter is a double, exact only up to 2^53, and from 1e21 on `String` writes it in exponent form, which `parseInt` reads back as a different number. The round trip is promised for the page only below 2^53.
- AckCounter.Bumped: "the previous reading plus one" holds for the page only below 2^53; at 2^53 the double stops growing, and the model does not round.
- SourceChart.SourceCounts: the counts are those of a dictionary without a prototype. On the page's plain `{}` a source named after an inherited member (`constructor`, `toString`, `valueOf`, `hasOwnProperty` and the like) starts from that function, so its count becomes a string. This is not modelled. The "__proto__" source is under Findings.
- SourceChart.CountsAddUp: holds for the corrected counting; as written, events from "__proto__" get no entry, so the page's counts can add up to less (Findings). Inherited member names are not modelled (see SourceChart.SourceCounts).
- SourceChart.RankedSlices: the corrected counting (Findings). With inherited member names, string counts reach the comparator and the order is not modelled.
- SourceChart.SourceDistribution: the corrected counting, which the rest of the model uses; SourceChart.SourceDistributionAsWritten is the page's for "__proto__". Inherited member names are not modelled.
- SourceChart.DistributionFaithful: the corrected counting. On the page, a source named after an inherited member shows a string count and a NaN percentage; this is not modelled.
- SourceChart.DistributionDropsSmaller: the corrected counting; as written, a "__proto__" source is dropped whatever its count (Findings).
- SourceChart.DistributionComplete: the corrected counting; as written, a "__proto__" source is missing even with fewer than five slices (Findings).
- Timers and events: the 30- and 60-second polling, the `eventAcknowledged` window event, React state scheduling, and the stale `events` closure in `handleAcknowledge`. Each operation is modelled as one step from the state it reads.
- Timeline.DayOf: days are counted in UTC milliseconds since the epoch, standing in for `toLocaleDateString`. Parsing the day string back with `new Date` is replaced by ordering the day numbers. Time zones and locales are not modelled.
- Timestamps: `EventItem.timestamp` is an ISO string in the API and is modelled as milliseconds. `formatDistanceToNow` is presentation.
- RecentActivity.ShortId: lengths count characters (Unicode scalar values), while `substring` counts UTF-16 code units, so an id with characters outside the Basic Multilingual Plane can be cut at a different place.
- RecentActivity.AcknowledgedItem: a ledger entry without an `id` makes the page throw midway and keep the lines added so far; entries are assumed well formed. No shown code writes the `acknowledgedEvents` ledger.
- Randomness: the demo usage figures, the random key characters (an input string) and `Date.now()` (an input `now`). A random character that comes out empty is covered by the input string being arbitrary.
- ApiKeys.LoadKeys: `JSON.parse` of the stored list and the revival of its dates are abstracted into the `KeyStore` datatype. `JSON.stringify` of the written list is not modelled, and neither is the clipboard copy.
- Numbers.RoundedPercent: the page computes `value / total * 100` in floating point before `Math.round`. The model rounds the exact rational, which can differ only where the float product lands next to a half.
- RateLimits.Classify: compared exactly rather than in floating point; for the limits used (20 and 1000) the thresholds fall on exact values.
- AckCounter.ReadCount: a stored counter that is not numeric reads as NaN, as in the page; there is no recovery to model.
- The trends chart, performance metrics, API documentation, navigation, header and page layout: simulated data, timing or static text.

## Findings

| source | as written | input that shows it | evidently intended | confidence | as-written member | corrected member |
|---|---|---|---|---|---|---|
| components/api-key-management.tsx:100 | the mask glyph is the three characters "â€¢" (the UTF-8 bytes of "•" read as Windows-1252), repeated 32 times | any key, e.g. "sk_live_x" masks to "sk_" plus 96 characters and no bullet | "sk_" followed by 32 "•" bullets | not executed | ApiKeys.MaskKeyAsWritten, ApiKeys.MaskAsWrittenDiffers, ApiKeys.DisplayedKeyAsWritten | ApiKeys.MaskKey, ApiKeys.MaskHidesSecret, ApiKeys.DisplayedKey |
| components/event-sources-chart.tsx:34-37 | the counts go into a plain `{}`; for the source "__proto__" the read gives the inherited `Object.prototype`, which is truthy, so the value assigned is the string "[object Object]1"; the assignment reaches the inherited prototype setter, which ignores it because it is neither an object nor null, so that source gets no entry while its events still count in the total | one event whose source is "__proto__": the chart is empty | one slice "__proto__" with 1 event and 100%, as a dictionary without a prototype (`Object.create(null)` or a `Map`) gives | not executed | SourceChart.SourceDistributionAsWritten, SourceChart.ProtoSourceDropped | SourceChart.SourceDistribution, SourceChart.ProtoOnlySlice |
