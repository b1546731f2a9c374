# Tech Monitor dashboard — a Dafny model

Tech Monitor is a single-page intelligence dashboard for the Asia-Pacific.
Its centre is a headline aggregator. It takes up to three RSS feeds chosen
from a 17-source catalog and normalises their items. It sorts them newest
first, removes repeated titles and caps the list at fifteen. When nothing
survives, a fixed ten-headline list is used instead, so the list is never
empty. Around the aggregator sit:

- the dashboard's bookkeeping of active sources and map layers;
- the regional headline panels, each showing a five-item window;
- five map layers that turn API answers into GeoJSON points: conflicts,
  economy, air quality, weather and natural disasters;
- the details panel shown for a clicked marker.

This project models those pieces and proves what they promise. Network
answers, parsed XML, date parsing and clocks are inputs. Each operation is a
function over those inputs, or a method where the code works step by step.

| file | module | what it models |
|---|---|---|
| `wrappers.dfy` | `Wrappers` | optional values, JavaScript `||` on strings and numbers |
| `text.dfy` | `Text` | decimal text of a timestamp, `join`, `substring(0, n)` |
| `lists.dfy` | `Lists` | `Array.prototype.filter` and its exactness |
| `geo.dfy` | `Geo` | points, features, feature collections, city positions |
| `news_ranking.dfy` | `NewsRanking` | the stable newest-first sort and the title dedup loop |
| `live_news.dfy` | `LiveNews` | `fetchLiveNews`: selection, cache-buster, fan-out, normalisation, cap, fallback |
| `dashboard.dfy` | `Dashboard` | `toggleSource`, `toggleLayer`, `setAllSources`, initial state, `activeUrls` |
| `regional_news.dfy` | `RegionalNews` | the panel window offsets and the DEPA query branch |
| `relief_web.dfy` | `ReliefWeb` | hotspots plus located ReliefWeb records |
| `world_bank.dfy` | `WorldBank` | GDP-growth features and their colour bands |
| `air_quality.dfy` | `AirQuality` | per-city AQI features and the US AQI categories |
| `weather.dfy` | `Weather` | the batched forecast, the temperature default and its colour bands |
| `nasa_eonet.dfy` | `NasaEonet` | EONET events reduced to one point each |
| `event_details.dfy` | `EventDetails` | the badge decision table, heading and date line |

Where the system's written description and its code differ, the model
follows the code:

- Titles are deduplicated by exact equality. The description speaks of
  trimmed titles, but the code compares the raw strings.
- The relay requests are awaited with `Promise.all`. The description expects
  partial success, but one rejected request sends the whole call to the
  fallback list. Only a parse exception is confined to its own feed.
- A channel title element that is present but empty gives the source `""`,
  not `'Global News'`. `'Global News'` is only used when the element is
  missing.

## Model

| member | source | states |
|---|---|---|
| `LiveNews.UrlsToFetch` | src/services/liveNews.js:27-35 | the caller's list when it is present and non-empty, otherwise exactly the three default URLs; never empty |
| `LiveNews.FetchSubset` | src/services/liveNews.js:38 | the first min(3, n) URLs, in order |
| `LiveNews.FreshUrl` | src/services/liveNews.js:42 | the cache-busting URL: the URL, `&` or `?`, `cb=` and the timestamp |
| `LiveNews.FreshUrlParts` | src/services/liveNews.js:42 | the original URL is a prefix of the fresh one; next comes `&` if it already had a `?` (else `?`), then `cb=`, then digits that read back as the timestamp |
| `Text.DecimalRoundTrip` | src/services/liveNews.js:42 | the timestamp's decimal text is non-empty, all digits, and parses back to the timestamp |
| `LiveNews.FetchAll` | src/services/liveNews.js:40-55 | the result is absent iff some fetched URL's request is rejected; otherwise there is one `contents` per URL, in order |
| `LiveNews.FeedTitle` | src/services/liveNews.js:64-65 | the channel title text when the element exists, else 'Global News' |
| `LiveNews.Normalize` | src/services/liveNews.js:69-82 | an item is emitted iff title and link are both non-empty; its source is author, else `dc:creator`, else the feed title; its date is the parsed date text, else now |
| `LiveNews.NormalizeItems` | src/services/liveNews.js:69-83 | the headlines of the items that normalise, in item order |
| `LiveNews.NormalizeItemsBounds` | src/services/liveNews.js:69-83 | a feed yields no more headlines than items, each complete and made by normalising one of the items |
| `LiveNews.NormalizeItemsExact` | src/services/liveNews.js:69-83 | the k-th headline is the normalisation of an item at an increasing position, and every item with a title and a link yields its headline |
| `LiveNews.FeedNews` | src/services/liveNews.js:61-86 | nothing for a falsy payload or a parse exception, else the normalised first ten items under the feed title |
| `LiveNews.FeedNewsBounds` | src/services/liveNews.js:61-86 | a feed yields at most 10 headlines, each from one of its first 10 items; a falsy payload or a parse exception yields none |
| `LiveNews.FeedNewsExact` | src/services/liveNews.js:61-83 | a parsed feed contributes, in document order, the headline of each of its first ten items that has a title and a link, and nothing else |
| `LiveNews.Merge` | src/services/liveNews.js:56-88 | every answer's headlines, answer after answer |
| `LiveNews.MergeAppend` | src/services/liveNews.js:60-88 | merging is feed by feed: merging two lists of answers is the concatenation of their merges |
| `LiveNews.SkippedFeedContributesNothing` | src/services/liveNews.js:61-62 | removing a feed with a falsy payload or a parse exception leaves the merged list unchanged |
| `LiveNews.MergeComplete` | src/services/liveNews.js:75-81 | every merged headline has a non-empty title and link |
| `LiveNews.PushFeedItems` | src/services/liveNews.js:69-83 | the inner loop appends exactly the normalised headlines of the feed's items, in item order, after what was collected before |
| `LiveNews.CollectNews` | src/services/liveNews.js:56-88 | the nested push loop builds exactly the merged list |
| `NewsRanking.Insert` | src/services/liveNews.js:90 | places a headline after every headline of a newest-first list that is not older than it |
| `NewsRanking.SortNewestFirst` | src/services/liveNews.js:90 | the headlines inserted one by one, in input order, into a newest-first list |
| `NewsRanking.InsertPermutes` | src/services/liveNews.js:90 | inserting one headline adds exactly that headline to the multiset |
| `NewsRanking.InsertSorted` | src/services/liveNews.js:90 | inserting into a newest-first list keeps it newest first |
| `NewsRanking.InsertStable` | src/services/liveNews.js:90 | an inserted headline goes after every headline with the same timestamp |
| `NewsRanking.SortSorted` | src/services/liveNews.js:90 | the sort's result is newest first |
| `NewsRanking.SortPermutes` | src/services/liveNews.js:90 | the sort's result holds exactly the input headlines, with their multiplicities |
| `NewsRanking.SortStable` | src/services/liveNews.js:90 | for every timestamp, the headlines carrying it appear in the sorted list in their input order |
| `NewsRanking.SortNewestFirstCorrect` | src/services/liveNews.js:90 | the sort is newest first, a permutation of its input, and keeps the input order among headlines with equal timestamps |
| `NewsRanking.DedupTitles` | src/services/liveNews.js:93-100 | keeps a headline only when no earlier headline has its title |
| `NewsRanking.DedupSameTitles` | src/services/liveNews.js:93-100 | dedup keeps every title that occurs |
| `NewsRanking.DedupDistinct` | src/services/liveNews.js:93-100 | the deduplicated titles are pairwise distinct |
| `NewsRanking.DedupKeepsFirstOccurrences` | src/services/liveNews.js:93-100 | the result is the order-preserving subsequence of exactly the first occurrence of each title |
| `NewsRanking.DedupKeepsNewest` | src/services/liveNews.js:90-100 | on a newest-first list, dedup keeps the order and keeps the newest headline of each title |
| `NewsRanking.DedupSubset` | src/services/liveNews.js:93-100 | the deduplicated list is a sub-multiset of its input and no longer |
| `NewsRanking.DedupByTitle` | src/services/liveNews.js:93-100 | the loop over `seenTitles` computes exactly the deduplicated list |
| `LiveNews.FallbackHeadlinesDistinct` | src/services/liveNews.js:109-120 | the ten canned headlines have distinct non-empty titles and strictly increasing ages |
| `LiveNews.Fallback` | src/services/liveNews.js:106-120 | the ten canned headlines, with link '#', each dated its age before now |
| `LiveNews.FallbackWellFormed` | src/services/liveNews.js:106-120 | the fallback list has 10 complete headlines with distinct titles and strictly decreasing timestamps |
| `LiveNews.Ranked` | src/services/liveNews.js:90-100 | the merged headlines sorted newest first, then deduplicated by title |
| `LiveNews.RankedProperties` | src/services/liveNews.js:90-100 | the ranked list is newest first, repeats no title, comes from the merged headlines, and every headline is complete |
| `LiveNews.PrefixKeeps` | src/services/liveNews.js:104 | a prefix keeps order, distinct titles and membership |
| `LiveNews.LiveNews` | src/services/liveNews.js:33-121 | what `fetchLiveNews` resolves to: the fallback on a rejection or when nothing survives, else the first min(15, n) ranked headlines |
| `LiveNews.FetchLiveNews` | src/services/liveNews.js:33-121 | the method returns exactly the modelled `fetchLiveNews` result |
| `LiveNews.LiveNewsWellFormed` | src/services/liveNews.js:102-120 | the result has 1 to 15 headlines, is newest first, repeats no title, and every headline is complete |
| `LiveNews.LiveNewsRejection` | src/services/liveNews.js:46-55 | one rejected request among the fetched feeds gives the fallback list |
| `LiveNews.LiveNewsFromFeeds` | src/services/liveNews.js:55-120 | when all requests succeed and some headline survives, the result is the first min(15, n) ranked headlines, all taken from the feeds; otherwise it is the fallback |
| `LiveNews.OnlyFirstThreeFetched` | src/services/liveNews.js:38-46 | only the first three chosen feeds affect the result |
| `Dashboard.CatalogIds` | src/App.jsx:21 | one id per catalog entry, in catalog order |
| `Dashboard.InitialSources` | src/App.jsx:21 | every catalog id, in catalog order |
| `Dashboard.CatalogUrls` | src/services/liveNews.js:6-24 | one URL per catalog entry, in catalog order |
| `Dashboard.Without` | src/App.jsx:50 | `filter(id => id !== x)`: the ids other than x, in order |
| `Dashboard.WithoutRemovesAll` | src/App.jsx:50 | `filter(id => id !== x)` removes every occurrence of x and keeps the count of every other id |
| `Dashboard.WithoutIsFilter` | src/App.jsx:50 | removing an id is the generic filter with the test `x != id` |
| `Dashboard.WithoutKeepsOrder` | src/App.jsx:50 | the remaining ids sit at increasing positions of the input, so they keep their relative order, and every other id is kept |
| `Dashboard.WithoutKeepsDistinct` | src/App.jsx:50 | removing an id keeps a duplicate-free list duplicate-free |
| `Dashboard.Toggle` | src/App.jsx:48-52 | the id ends up present iff it was absent; no other id's count changes; an absent id is appended at the end; a present id is filtered out and the rest keep their order |
| `Dashboard.TogglePreservesNoDuplicates` | src/App.jsx:48-52 | toggling keeps a duplicate-free list duplicate-free |
| `Dashboard.ToggleTwice` | src/App.jsx:31-37 | toggling twice restores membership: an absent id gives back the list, a present id ends up moved to the end |
| `Dashboard.SetAllSources` | src/App.jsx:54-56 | enabling gives the catalog ids in catalog order, disabling gives the empty list |
| `Dashboard.Find` | src/App.jsx:59 | a found entry is in the catalog and has the id; nothing is found iff no entry has the id |
| `Dashboard.FindFirst` | src/App.jsx:59 | `find` returns the first entry with the id |
| `Dashboard.UrlFor` | src/App.jsx:59 | an id yields a URL exactly when `find` locates a catalog entry for it whose URL is non-empty, and that URL is the entry's |
| `Dashboard.ResolveUrls` | src/App.jsx:59 | for each active id in order, the URL of the feed `find` returns, when there is one and it is non-empty |
| `Dashboard.ActiveUrls` | src/App.jsx:59 | the active ids resolved against the 17-feed catalog |
| `Dashboard.ResolveUrlsBounds` | src/App.jsx:59 | there are at most as many URLs as active ids, each non-empty and the URL of an active catalog entry |
| `Dashboard.ResolveUrlsExact` | src/App.jsx:59 | the k-th URL is the one `find` gives for an active id at an increasing position, and every active id that resolves contributes its URL |
| `Dashboard.ResolveUrlsIsFilterMap` | src/App.jsx:59 | resolving the active ids is mapping each through the catalog lookup and dropping those that yield nothing |
| `Dashboard.ResolveCatalogOrder` | src/App.jsx:59 | on a catalog with distinct ids and non-empty URLs, resolving the first n ids gives the first n URLs |
| `Dashboard.ApacSourcesWellFormed` | src/services/liveNews.js:6-24 | the catalog has 17 entries with distinct ids and non-empty URLs |
| `Dashboard.ResolveCatalog` | src/App.jsx:59 | resolving all ids of a well-formed catalog gives all its URLs, in order |
| `Dashboard.InitialState` | src/App.jsx:15-21 | all 17 sources start active, in catalog order, without duplicates, and resolve to all 17 URLs; the three initial layers are distinct |
| `Dashboard.InitialLayersDistinct` | src/App.jsx:15 | the initial layers are three distinct ids |
| `Dashboard.SetAllSourcesEffect` | src/App.jsx:54-59 | disabling all sources makes the aggregator fall back to the default URLs; enabling all gives every catalog URL |
| `RegionalNews.SliceStart` | src/components/RegionalNewsPanel.jsx:37-39 | the offset is 5 for 'Global', 10 for 'Thailand', 0 for every other region |
| `RegionalNews.Window` | src/components/RegionalNewsPanel.jsx:41 | a contiguous run of the data from the offset, at most 5 long, empty when the data is no longer than the offset |
| `RegionalNews.DepaHeadline` | src/components/RegionalNewsPanel.jsx:19-23 | title and link are copied, the date is the parsed date text, the source is the entry's source title or 'Google News' |
| `RegionalNews.DepaNews` | src/components/RegionalNewsPanel.jsx:17-26 | with items, the first min(5, n) entries mapped in order; without items, or on failure, the previous news unchanged |
| `RegionalNews.PanelNews` | src/components/RegionalNewsPanel.jsx:9-43 | the DEPA panel's news, or the window of the live list at the region's offset |
| `RegionalNews.WindowKeeps` | src/components/RegionalNewsPanel.jsx:41 | a window keeps order and distinct titles, and takes its items from the data |
| `RegionalNews.PanelNewsWellFormed` | src/components/RegionalNewsPanel.jsx:9-43 | a panel holds at most 5 headlines; a live panel's are newest first, repeat no title and come from the live list |
| `RegionalNews.WindowsApart` | src/components/RegionalNewsPanel.jsx:41 | two windows whose offsets differ by at least the panel size, over a list with distinct titles, share no title |
| `RegionalNews.PanelsDisjoint` | src/components/RegionalNewsPanel.jsx:35-41 | when two live panels' own `fetchLiveNews` calls resolve to the same list, panels with different offsets never show the same title |
| `RegionalNews.SeparateCallsCanRepeat` | src/components/RegionalNewsPanel.jsx:35-41 | when one newer headline reaches the 'Global' panel's call but not the 'SEA' panel's, the fifth headline of the earlier list is on both panels |
| `RegionalNews.WindowsOfFallback` | src/components/RegionalNewsPanel.jsx:37-41 | on the fallback list the 'Thailand' panel is empty and the 'Global' panel shows its second half |
| `ReliefWeb.HotspotFeature` | src/services/reliefWeb.js:59-71 | a hotspot's feature: its coordinates, id, title, country and its type as `types` |
| `ReliefWeb.HotspotFeatures` | src/services/reliefWeb.js:5-71 | seven hotspot features in declaration order, with id, title and country copied and `types` set from the hotspot's type |
| `ReliefWeb.TypesLabel` | src/services/reliefWeb.js:98 | the type names joined with ', ', or 'Crisis' when missing or joined to nothing; never empty |
| `ReliefWeb.TypesLabelCrisis` | src/services/reliefWeb.js:98 | the label is 'Crisis' exactly when the list is missing, empty, a single empty name, or joins to 'Crisis' |
| `Text.JoinEmpty` | src/services/reliefWeb.js:98 | with a non-empty separator, a join is empty iff there are no parts or one empty part |
| `ReliefWeb.Located` | src/services/reliefWeb.js:85 | the record has fields with a primary country that has a location |
| `ReliefWeb.ApiFeature` | src/services/reliefWeb.js:86-100 | a located record's feature sits at its country's `[lon, lat]` and carries its id, name, country name and types label |
| `ReliefWeb.ApiFeatures` | src/services/reliefWeb.js:84-101 | one feature per located record, in API order, no more than the records |
| `ReliefWeb.ApiFeaturesExact` | src/services/reliefWeb.js:84-101 | every API feature comes from a located record, and every located record yields one |
| `ReliefWeb.FetchConflictsAndCrises` | src/services/reliefWeb.js:57-113 | the hotspots are always a prefix; a failed API call gives exactly the 7 hotspots, otherwise 7 plus one feature per located record |
| `ReliefWeb.ConflictTypesNonEmpty` | src/services/reliefWeb.js:5-101 | every feature of the layer has a non-empty `types` label |
| `Lists.Filter` | src/services/worldBank.js:25 | the kept elements satisfy the test and are no more than the input |
| `Lists.FilterExact` | src/services/nasaEonet.js:11 | the filtered elements come from increasing positions, and none that passes is missed |
| `Lists.FilterNone` | src/services/worldBank.js:25 | filtering a list none of whose elements passes gives nothing |
| `Lists.FilterMapExact` | src/App.jsx:59 | each output is the mapped value of an input at an increasing position, and no input that maps to a value is missed |
| `Text.Prefix` | src/services/worldBank.js:25 | the first two characters, or the whole of a shorter code |
| `WorldBank.GrowthColor` | src/services/worldBank.js:43 | green above 3, blue above 0 up to 3, red at 0 or below |
| `WorldBank.GrowthColorBands` | src/services/worldBank.js:43 | two rates share a colour iff they share a band, and bands are monotone in the rate |
| `WorldBank.Kept` | src/services/worldBank.js:25 | the value is present and the first two letters of the code are a key of the centres |
| `WorldBank.EconomyFeature` | src/services/worldBank.js:26-46 | a kept record is drawn at the centre of its code's first two letters, with the country's id and name, the growth and its colour |
| `WorldBank.EconomyFeatures` | src/services/worldBank.js:24-46 | one feature per kept record, in record order, no more than the records |
| `WorldBank.FetchMacroEconomy` | src/services/worldBank.js:5-56 | a failed request or a missing data page gives no feature; otherwise the features of the kept records |
| `WorldBank.EconomyFeaturesExact` | src/services/worldBank.js:25-28 | a record is drawn iff its value is present and its code's first two letters are a key of the centres |
| `WorldBank.Iso3PrefixMisplaces` | src/services/worldBank.js:25-28 | China ('CHN') and Korea ('KOR') are never drawn; Austria ('AUT') is drawn at Australia's centre |
| `WorldBank.Iso3TableCoversCenters` | src/services/worldBank.js:15-22 | every centre of the map is reached by some three-letter code of the correction table |
| `WorldBank.EconomyFeatureByIso3` | src/services/worldBank.js:26-46 | with the full-code lookup, a kept record is drawn at its own country's centre |
| `WorldBank.EconomyFeaturesByIso3` | src/services/worldBank.js:24-46 | with the full-code lookup, one feature per kept record, in order |
| `WorldBank.FetchMacroEconomyByIso3` | src/services/worldBank.js:5-56 | `fetchMacroEconomy` with the full-code lookup |
| `WorldBank.ByIso3ShowsEveryKnownCountry` | src/services/worldBank.js:15-28 | with the full-code lookup, every valued record of a listed country is drawn at that country's centre, and nothing else is drawn |
| `WorldBank.ByIso3Places` | src/services/worldBank.js:15-28 | with the full-code lookup, China and Korea are drawn at their own centres and Austria is left out |
| `AirQuality.AqiLevel` | src/services/airQuality.js:32-38 | the category index counts how many of the thresholds 50, 100, 150, 200 and 300 the reading strictly exceeds; a missing reading exceeds none |
| `AirQuality.ClassifyAqi` | src/services/airQuality.js:32-38 | the sequence of overwriting ifs yields the colour and category of the reading's level |
| `AirQuality.AqiLevelMonotone` | src/services/airQuality.js:32-38 | a higher reading never has a lower category; a missing reading is Good |
| `AirQuality.ColorTracksCategory` | src/services/airQuality.js:32-38 | two readings share a colour iff they share a category |
| `AirQuality.CityFeature` | src/services/airQuality.js:26-56 | the feature sits at `[lon, lat]`, has id `aqi-<index>` and title `Air Quality: <name>`, and carries the reading and its category and colour |
| `AirQuality.FetchAirQuality` | src/services/airQuality.js:18-68 | one feature per city, in list order, when every request succeeds with a `current` block; no feature otherwise |
| `AirQuality.CityIdsDistinct` | src/services/airQuality.js:47 | different indices give different ids |
| `AirQuality.AirQualityIdsDistinct` | src/services/airQuality.js:26-57 | the layer's feature ids are pairwise distinct |
| `Weather.DataArray` | src/services/weather.js:32 | an array answer is used as is; any other answer becomes a one-element array |
| `Weather.Temperature` | src/services/weather.js:35-36 | the temperature the answer reports for that city's `current` block; 0 when the location, the block or the temperature is missing |
| `Weather.TempColor` | src/services/weather.js:49 | red above 30, green above 20 up to 30, blue otherwise |
| `Weather.CityFeature` | src/services/weather.js:38-51 | the feature sits at `[lon, lat]` and carries the city name, temperature and colour |
| `Weather.FetchLiveWeather` | src/services/weather.js:6-62 | a failed request gives no feature; otherwise one feature per city, in list order |
| `Weather.SingleAnswerFeedsFirstCityOnly` | src/services/weather.js:32-36 | with a non-array answer, every city after the first shows 0 degrees in blue |
| `Weather.MissingReadingIsCold` | src/services/weather.js:35-49 | a missing location, `current` block or temperature shows 0 degrees in blue |
| `NasaEonet.Throws` | src/services/nasaEonet.js:14-21 | the first geometry is a polygon without rings, so `coordinates[0][0]` throws |
| `NasaEonet.Marker` | src/services/nasaEonet.js:14-24 | a point gives its own position, a polygon the first vertex of its first ring; an empty first ring or another type gives none |
| `NasaEonet.Category` | src/services/nasaEonet.js:35 | the first category's title, or 'Unknown'; never empty |
| `NasaEonet.DisasterFeature` | src/services/nasaEonet.js:26-39 | the feature carries the event's id and title, its category, and the date of its first geometry |
| `NasaEonet.Drawn` | src/services/nasaEonet.js:11-24 | the event has a geometry, does not throw, and yields a marker position |
| `NasaEonet.FetchNaturalDisasters` | src/services/nasaEonet.js:5-51 | a failed request, or an event whose polygon has no ring, gives no feature; otherwise one feature per drawn event, in event order, no more than the events |
| `NasaEonet.NaturalDisastersExact` | src/services/nasaEonet.js:10-41 | every feature comes from a drawn event and every drawn event yields one; an event is dropped iff its geometry is missing or empty or yields no point |
| `NasaEonet.ThrowingEventEmptiesLayer` | src/services/nasaEonet.js:19-21 | any event whose first geometry is a polygon with no ring, whatever its date or further geometries, empties the whole layer |
| `EventDetails.CategoryOf` | src/components/EventDetailsPanel.jsx:15-30 | 'disaster' gives `cat-disaster` with the category or 'Natural Disaster'; 'conflict' gives `cat-conflict` with the types or 'Humanitarian Crisis'; 'weather' and 'aqi' give `cat-economy` with 'Weather Alert' and 'Air Quality'; anything else gives `cat-economy` with 'Insight' |
| `EventDetails.Categorize` | src/components/EventDetailsPanel.jsx:15-30 | the reassigning if/else chain yields exactly the decision table's badge |
| `EventDetails.DateText` | src/components/EventDetailsPanel.jsx:10-12 | the formatted date when there is one, else 'Ongoing / Real-time' |
| `EventDetails.Heading` | src/components/EventDetailsPanel.jsx:44 | the title, else the city, else the country |
| `EventDetails.Render` | src/components/EventDetailsPanel.jsx:4-55 | no event renders nothing; otherwise the badge, the heading and the date line, with the place shown iff the country is non-empty |
| `EventDetails.DisasterDetails` | src/components/EventDetailsPanel.jsx:18-20 | a disaster marker shows `cat-disaster` labelled with its event's category, headed by its title and dated by its first geometry |
| `EventDetails.ConflictMarkersShowInsight` | src/components/EventDetailsPanel.jsx:15-23 | as written, a conflicts-layer marker shows `cat-economy` and 'Insight', never its crisis types |
| `EventDetails.TypedConflictShowsTypes` | src/components/EventDetailsPanel.jsx:21-23 | when the features carry `type: 'conflict'`, every conflicts-layer marker shows `cat-conflict` labelled with its types |
| `EventDetails.CityLayersDetails` | src/components/EventDetailsPanel.jsx:24-44 | a weather marker is headed by its city and labelled 'Weather Alert'; an air-quality marker is headed by its title and labelled 'Air Quality'; neither has a date |
| `EventDetails.EconomyDetails` | src/components/EventDetailsPanel.jsx:15-51 | an economy marker shows 'Insight', headed and placed by its country, with no date |

## Left out

- HTTP calls, the CORS relay, the JSON relay for the DEPA query and `encodeURIComponent`: every answer is an input value (`FetchOutcome`, `DepaAnswer`, `ApiAnswer`, `WorldBankAnswer`, `AqResponse`, `WeatherAnswer`, `EonetAnswer`).
- XML parsing (`DOMParser`, `querySelector`): a feed is given as its parsed channel title and items, and a parse exception as `ParseError`. An exception part-way through a feed, after some items were pushed, is not modelled; a parse error contributes no item.
- Date handling: `new Date(text)` is the parameter `parseDate`, and one `now` stands for every `Date.now()` and `new Date()` of a call. Invalid dates (NaN) and their ordering are not modelled. Locale date formatting in the details panel is the parameter `formatDate`.
- `SortNewestFirstCorrect`'s subject is a value-level stable insertion sort. JavaScript's in-place `Array.prototype.sort` is a library call; the model states its result (newest first, a permutation, stable) rather than its in-place steps.
- `Promise.all` for the air-quality layer is the predicate `AllAnswered`: any rejected request, or an answer without `current`, empties the layer. Which request fails first is not modelled.
- Property values the source reads from JSON answers are taken as well-typed (strings, numbers, arrays). A `null` where an object is expected would throw and empty the layer; only the cases named in each module are modelled.
- `PanelsDisjoint`: each live panel issues its own `fetchLiveNews` call, on its own timer and with its own clock. The lemma covers only calls that resolve to the same list. `SeparateCallsCanRepeat` shows a headline on two panels when the lists differ.
- `ReliefWeb.FetchConflictsAndCrises`: the outer `catch` of `fetchConflictsAndCrises` is not modelled, because nothing before the inner `try` can throw.
- `EventDetails.Heading`: a missing country is shown as the empty string, which renders the same as `undefined`.
- The GeoJSON `type: 'Feature'`, `geometry.type: 'Point'` and `'FeatureCollection'` tags are constant and are implied by the datatypes; each layer's constant `type` property is restored when a marker is handed to the details panel.
- The market data panel (random jitter and currency formatting), the world clock (time-zone formatting), React rendering, effects, refresh timers and the `isRefreshing` flag, the region selector, the settings modal, and console logging are not part of this model.

## Findings

| source | as written | input that shows it | evidently intended | confidence | as-written member | corrected member |
|---|---|---|---|---|---|---|
| src/services/worldBank.js:25-28 | the ISO2 key is taken as the first two letters of the ISO3 code | a record with `countryiso3code` 'CHN', 'KOR' or 'AUT' and a value: China and Korea are dropped, Austria is drawn at Australia's centre | each of the 18 listed countries drawn at its own centre, found by its full ISO3 code | high; not executed | `WorldBank.Iso3PrefixMisplaces` | `WorldBank.ByIso3ShowsEveryKnownCountry` |
| src/services/reliefWeb.js:65-70 | conflicts-layer features carry `types` but no `type`, so the details panel's `conflict` branch (src/components/EventDetailsPanel.jsx:21-23) is never taken for them | clicking any hotspot, e.g. 'hotspot-ukraine': the badge is `cat-economy` 'Insight' instead of `cat-conflict` 'Ongoing Conflict' | conflict features carry `type: 'conflict'` and show their crisis types | high; not executed | `EventDetails.ConflictMarkersShowInsight` | `EventDetails.TypedConflictShowsTypes` |
