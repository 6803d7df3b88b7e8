# Avisos IPMA: a verified model of the warnings pipeline

This project models the data pipeline of two scripts.

- `avisos-meteo.js` is an iOS Scriptable widget that shows the weather warnings of the Portuguese weather service (IPMA) for Porto.
- `preview.js` is the browser preview page for the same data.

Both scripts fetch a JSON object `{ warnings: [...] }` from a Cloudflare Worker. Each record has a `type`, a `level`, a `start`, an `end` and a `text`. The scripts group the records by type, keep one summary per severity level, and lay out a timeline per group.

The widget also does the following:
- it keeps a cache file of the last good response and falls back to it when the request fails;
- it shows a pill with the number of warnings and the highest level;
- it orders the type cards by severity;
- it caps each card's timeline at 10 or 14 rows, with a "+n" count for the rest;
- it shows an "Offline · cache" line when it shows cached data.

Modules:

- `Records` (records.dfy): the warning record and the few shapes of parsed JSON the scripts tell apart. It also holds JavaScript truthiness, `typeof`, `x || default` and `String(x)`.
- `Text` (text.dfy): `toLowerCase`, `toUpperCase`, `includes`, and the string order used by `localeCompare`.
- `Collect` (collect.dfy): what a plain object used as a map gives back through `Object.values`. That is:
  - the distinct keys in order of first encounter;
  - the elements of each key in input order;
  - the first element seen for each key.
- `Sorting` (sorting.dfy): `Array.prototype.sort` with a comparator. It is proved to give a sorted permutation and to be stable.
- `AvisosLevels` (avisos_levels.dfy): the widget's `priority`, `getMaxLevel`, `levelLabel` and `iconForType`.
- `AvisosData` (avisos_data.dfy): the widget's `groupByType` and `buildLevelSummaries`. Each is a method with a loop, proved against a reference function.
- `AvisosWidget` (avisos_widget.dfy): `runWidget` and `renderTypeCard`. `runWidget` is a method whose result is tied to the function `WidgetView`. The lemmas about `WidgetView` cover:
  - the choice of source;
  - the cache write and read-back;
  - the empty state;
  - the order of the cards;
  - the timeline rows;
  - the offline line.
- `Preview` (preview.dfy): the preview's own `groupByType`, `buildLevelSummaries`, `priority`, legend sort and `buildTimelineBlocks`. It also models how `render` ends, with either the cards or the error message.

The network, the cache file and the clock are inputs of the model:
- `fetched: Option<Json>` is the parsed response, or `None` when the request or the parse failed;
- `file: CacheFile` is the state of the cache file;
- `now` is the time stamp written into the cache.

The preview's date formatters `fmtStart` and `fmtTime` are function parameters.

Some behaviour of the code is easy to misread; the model keeps it as the code has it:

- **Unknown levels.** They are not mapped to green. The widget lower-cases a level and only replaces an absent or empty one with "green". An unknown level keeps priority 0, so it never raises a group's `maxLevel`, and its label is "Aviso".
- **Level summaries.** A summary is the first item of its level in input order, not the item with the earliest start. Its text is that item's text, with no fallback to another item's non-empty text.
- **Summary order.** The widget sorts the summaries by descending priority (avisos-meteo.js:288). The preview sorts them by ascending priority, and its priority ranks green after red (preview.js:49, 110).
- **Timeline end labels.** An end label is hidden only when `cur.end === next.start` holds as exact string equality. There is no five-minute tolerance.
- **Ties.** Groups of equal `maxLevel` keep their order of first encounter, because the sort is stable. They are not ordered by type name or by start time.
- **Preview crash.** In the preview, a group whose `type` is undefined makes `iconForType` throw, and the page then shows the error message.

## Model

| member | source | states |
|---|---|---|
| AvisosLevels.Priority | avisos-meteo.js:342-344 | green, yellow, orange and red rank 1 to 4 in that order; every other string ranks 0 |
| AvisosLevels.PriorityStrictlyIncreasing | avisos-meteo.js:342-344 | the ranking strictly follows the order green < yellow < orange < red |
| AvisosLevels.MaxLevelOf | avisos-meteo.js:347-350 | the `reduce` starting from "green" yields one of the four known levels, with priority the highest priority met (at least green's) |
| AvisosLevels.MaxLevelOfIsFirstMaximum | avisos-meteo.js:347-350 | the result is the known level of the highest priority met, and it is "green" or one of the input levels |
| AvisosLevels.MaxLevelGrows | avisos-meteo.js:348 | adding a level never lowers the running maximum, and changes it only to that level when it is strictly higher |
| AvisosLevels.GetMaxLevelSpec | avisos-meteo.js:346-351 | "green" for no warnings; otherwise a known level with priority the highest of the lower-cased (defaulted) levels, and either "green" or the normalised level of some record |
| AvisosLevels.LevelLabel | avisos-meteo.js:353-355 | a known level gets its Portuguese name (Verde, Amarelo, Laranja, Vermelho); anything else gets "Aviso" |
| AvisosLevels.LevelLabelInjective | avisos-meteo.js:353-355 | distinct known levels get distinct labels, none of them "Aviso" |
| AvisosLevels.IconForTypeFollowsRules | avisos-meteo.js:375-385 | the if-chain returns the icon of the first rule in the table whose words occur in the lower-cased type, and "⚠️" when none does |
| AvisosLevels.SeaBeatsWind | avisos-meteo.js:377-378 | a type mentioning both "mar" and "vento" gets 🌊, because the sea test comes first |
| AvisosData.AddRecord | avisos-meteo.js:264-276 | one `forEach` step on the list of groups: the record's item is pushed onto the group of its type, found by key, or onto a new group `{type, items: [], maxLevel: "green"}` at the end; `maxLevel` is raised only by a strictly higher level |
| AvisosData.GroupByType | avisos-meteo.js:261-279 | the loop over the records returns exactly `Grouped(ws)`: one group per type, each with its normalised items and maximum level |
| AvisosData.GroupedAppend | avisos-meteo.js:263-277 | one loop step: a record of a known type is pushed onto that type's group and raises its `maxLevel` only if strictly higher; a record of a new type opens `{type, items: [], maxLevel: "green"}` at the end first |
| AvisosData.GroupOfAppend | avisos-meteo.js:268-276 | adding a record changes only the group of its own type, by pushing its normalised item and applying the raise rule |
| AvisosData.MaxLevelOfAppend | avisos-meteo.js:276 | the running `maxLevel` after one more item is the old one raised by the item's level |
| AvisosData.GroupedKinds | avisos-meteo.js:264-278 | the groups carry the distinct keys (the record's type, or "Aviso" when it is absent or empty), in order of first encounter |
| AvisosData.GroupedPartition | avisos-meteo.js:261-279 | the group sizes add up to the number of records |
| AvisosData.GroupsInFirstEncounterOrder | avisos-meteo.js:267-278 | no two groups share a type, and the groups come in order of each type's first record |
| AvisosData.RecordLandsInItsGroup | avisos-meteo.js:264-274 | the lookup `map[type]` finds a group for every record's type; that group's items are the records of that type, normalised (level lower-cased with default "green", text defaulted to ""), in input order, so the record itself is among them |
| AvisosData.GroupMaxLevel | avisos-meteo.js:267-276 | a group's `maxLevel` is a known level with priority max(1, highest item priority), and it is "green" or the level of one of its items |
| AvisosData.SeverityFirstTotalPreorder | avisos-meteo.js:288 | the descending-priority comparator is total and transitive, so the sort is well defined |
| AvisosData.BuildLevelSummaries | avisos-meteo.js:281-289 | the loop keeps the first item of each level and then sorts, giving exactly `LevelSummaries(items)` |
| AvisosData.LevelSummariesSpec | avisos-meteo.js:281-289 | one summary per distinct item level and no other; each is the first item of its level; the summaries come by descending priority; equal priorities keep first-encounter order |
| AvisosWidget.WidgetCardRows | avisos-meteo.js:232-256 | every card of the widget shows all its group's items when they fit in `MAX_ROWS` (14 on the large widget, 10 otherwise) and exactly `MAX_ROWS` otherwise, with a "+n" line exactly when items are left over |
| AvisosWidget.GroupBeforeTotalPreorder | avisos-meteo.js:116 | the group comparator (descending `maxLevel` priority) is total and transitive |
| AvisosWidget.StartBeforeTotalPreorder | avisos-meteo.js:227-229 | the timeline comparator (string order of the start, or "" when it is absent) is total and transitive |
| AvisosWidget.TypeCardLegend | avisos-meteo.js:212-224 | the right-hand column has exactly one line per distinct level of the group, in non-increasing priority; each line shows the upper-cased label of its level and the text of the group's first item at that level |
| AvisosWidget.RenderTypeCard | avisos-meteo.js:175-257 | the card of a group is `TypeCard(g, maxRows)`: icon, title, legend from `buildLevelSummaries`, and the timeline rows with the "+n" count |
| AvisosWidget.TypeCardRowCount | avisos-meteo.js:232-256 | at most `MAX_ROWS` rows are shown; the "+n" count appears exactly when items are left over, and it is positive and adds up with the rows to the group's size |
| AvisosWidget.TypeCardRowsEarliest | avisos-meteo.js:227-234 | the rows are items of the group in order of start (all of them when they fit), and no hidden item starts before a shown one |
| AvisosWidget.RenderCards | avisos-meteo.js:118-121 | the loop renders one card per group, in the order of the groups |
| AvisosWidget.RunWidget | avisos-meteo.js:4-132 | the script displays `WidgetView(family, file, fetched)` and writes the cache file `CacheWrite(data, now)` |
| AvisosWidget.SourcePreference | avisos-meteo.js:79-92 | fresh data with a `warnings` array wins and is not marked as cached; otherwise a cached payload with a `warnings` array is used and marked; otherwise there are no warnings |
| AvisosWidget.CacheWrittenIffFreshUsed | avisos-meteo.js:69-83 | the cache is written exactly when the fresh data is used; the `typeof` test adds nothing |
| AvisosWidget.CacheRoundTrip | avisos-meteo.js:69-105 | after a cache write, a run whose request fails shows the same count, level and cards, offline since the saved time stamp |
| AvisosWidget.UnreadableCacheIsNoCache | avisos-meteo.js:51-58 | a cache file that does not parse behaves like no cache file |
| AvisosWidget.OfflineTestsAgree | avisos-meteo.js:103-126 | the offline test of the empty state and that of the footer agree |
| AvisosWidget.OfflineLine | avisos-meteo.js:301-311 | the offline line appears exactly when the cache was used and holds a non-empty `savedAt`, and then the request's data was unusable and the line shows the cached time stamp |
| AvisosWidget.EmptyState | avisos-meteo.js:98-112 | "Sem avisos relevantes." is shown exactly when there are no warnings, with the pill at 0 and green; otherwise there is at least one card |
| AvisosWidget.CardOrder | avisos-meteo.js:115-116 | the cards are a permutation of the groups, by descending `maxLevel` priority; groups of equal priority keep first-encounter order |
| AvisosWidget.GroupLevelBounded | avisos-meteo.js:267-276 | no group's `maxLevel` ranks above the overall maximum level |
| AvisosWidget.RecordBelowItsGroup | avisos-meteo.js:264-276 | no record's normalised level ranks above the `maxLevel` of the group it is filed in |
| AvisosWidget.SomeGroupReachesMax | avisos-meteo.js:267-276 | when there are warnings, some group's `maxLevel` ranks at the overall maximum |
| AvisosWidget.PillMatchesFirstCard | avisos-meteo.js:94-116 | the pill's level is exactly the `maxLevel` of the first card |
| Sorting.SortBySorted | avisos-meteo.js:116 | sorting with a total-preorder comparator yields an ordered sequence |
| Sorting.SortByStable | avisos-meteo.js:116 | the sort is stable: elements that compare equal keep their input order |
| Collect.FirstPerKeySpec | avisos-meteo.js:285-288 | the values of a first-write-wins map are one element per distinct key, in order of first encounter, each the first element with its key |
| Collect.BucketsCover | avisos-meteo.js:263-278 | the per-key buckets hold every element exactly once between them |
| Text.ContainsAt | avisos-meteo.js:377 | `includes` finds a substring exactly when it occurs at some position |
| Preview.Priority | preview.js:110 | yellow, orange and red rank 1, 2, 3; anything else, green included, ranks 9 |
| Preview.PrioritiesCompared | preview.js:110 | the preview ranks the shared levels one below the widget, but ranks green after red where the widget ranks it lowest |
| Preview.AddRecord | preview.js:94-95 | one `forEach` step: the record itself is pushed onto the group of its key `String(w.type)`, or onto a new group `{type: w.type, items: []}` at the end |
| Preview.GroupByType | preview.js:91-98 | the loop returns exactly `Grouped(ws)`: one group per key `String(w.type)`, holding the raw records |
| Preview.GroupedAppend | preview.js:93-96 | one loop step: a record of a known key is pushed onto its group; a record of a new key opens `{type: w.type, items: []}` at the end first |
| Preview.GroupedPartition | preview.js:91-98 | the group sizes add up to the number of records |
| Preview.RecordLandsInItsGroup | preview.js:94-95 | the lookup `m[w.type]` finds a group for every record's key `String(w.type)`; its items are the records of that key in input order, the record itself among them, and its `type` is that of the first of them |
| Preview.GroupsInFirstEncounterOrder | preview.js:94-97 | no two groups share a key, and groups come in order of each key's first record |
| Preview.BuildLevelSummaries | preview.js:83-89 | the loop returns the first record of each level, by first encounter |
| Preview.LevelSummariesSpec | preview.js:83-89 | one summary per distinct level, in order of first encounter, each the first record with its level |
| Preview.LegendBeforeTotalPreorder | preview.js:49 | the legend comparator (ascending priority) is total and transitive |
| Preview.LegendOrder | preview.js:48-49 | the legend is a permutation of the summaries, by ascending preview priority (yellow, orange, red, then the rest), stable for equal ranks |
| Preview.TimelineOrder | preview.js:67-69 | the records are a permutation in ascending order of `String(start)`; equal starts keep their order |
| Preview.TimelineBlocksContent | preview.js:71-80 | one block per sorted record, carrying its level and formatted start |
| Preview.TimelineEndLabels | preview.js:72-78 | the last block always shows its end; any other block hides it exactly when its end equals the next start as strings; a shown end reads "até " and the formatted time |
| Preview.ContiguousRunShowsOneEnd | preview.js:72-78 | when every record ends where the next starts, only the last block shows an end |
| Preview.IconForTypeFollowsRules | preview.js:112-118 | the preview's chain of tests returns the icon of the first of its three rules (sea, wind, rain) whose word occurs in the lower-cased type, and "⚠️" when none does |
| Preview.IconsAgree | preview.js:112-118 | when the preview finds an icon and the type does not mention "agitação", the widget shows the same icon |
| Preview.Label | preview.js:111 | yellow, orange and red get the widget's labels; any other level gets `undefined` |
| Preview.RenderCard | preview.js:19-58 | the card of a typed group: icon, title, timeline blocks, and the legend sorted by ascending priority |
| Preview.Render | preview.js:13-62 | `render` shows `RenderedPage(ws)`: the cards of all groups, or the error message when some group has no `type` |
| Preview.FailsIffUntypedGroup | preview.js:5-25 | the page fails exactly when some record without `type` is the first record filed under the key "undefined" |
| Preview.ShowFailsIff | preview.js:5-11 | the page shows the error message exactly when the request or its parse fails, the response is `null`, its `warnings` is truthy but not an array, or some record without `type` is the first filed under the key "undefined" |
| Preview.NoWarningsNoCards | preview.js:7-17 | a response without `warnings` renders as an empty list: no cards and no error |

## Left out

- The Scriptable and DOM presentation (`ListWidget`, stacks, fonts, colours, padding, `uiForFamily`, `setTopPill` styling, `finish`, the HTML templates). It is presentation against host APIs; the model keeps only what is displayed, as values.
- The colour tables `levelColor`, `levelBg` and `levelFg`. They are fixed lookups with nothing to prove.
- The request (`Request`, `loadJSON`, the 5-second timeout, `fetch`) and the file system (`FileManager`). They are inputs: the parsed response or its absence, and the state of the cache file. The cache directory creation is not modelled.
- JSON serialisation. A written cache file is read back as the same value. `JSON.stringify` and `JSON.parse` are not modelled.
- Date and locale formatting (`formatPeriod`, `shortWhen`, `fmtStart`, `fmtTime`, `toLocaleTimeString`). The widget's rows and offline line keep the raw ISO strings; the preview's formatters are function parameters.
- The footer's "Atualizado" time and `refreshAfterDate`. Both read the clock and only affect display and scheduling.
- `Object.values` orders integer-like keys numerically before the others. The maps are insertion-ordered association lists here.
- Keys inherited from `Object.prototype`, such as "constructor". They would make `map[key]` truthy before any write.
- Record fields that are not strings (numbers, objects), and array elements that are not objects. Every field is a string or absent.
- The difference between `null` and `undefined` fields. Both are `None`, so `String(null)` = "null" is not modelled.
- `toLowerCase` beyond ASCII and Latin-1; `toUpperCase` of "ß", "ÿ" and "µ", whose capitals ("SS", "Ÿ", "Μ") lie outside Latin-1 or are two letters. `Upper` is applied only to the ASCII level labels. Locale-aware comparison is also left out. `localeCompare` is plain code-point lexicographic order.
- The preview's icon for a type that is a non-string value. Types are strings or absent here.
- AvisosWidget.RunWidget: the cards loop is the separate method `RenderCards`, and `renderTypeCard` is `RenderTypeCard`; the UI objects they mutate are not modelled.
