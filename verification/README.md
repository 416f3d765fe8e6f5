# Restaurant analytics dashboard — Dafny model of its pure logic

The dashboard serves statistics over a MongoDB collection of restaurant
records (TripAdvisor-style data: country, province, city, flags such as
`vegan_options`, `avg_rating`, `price_level_cat`, and comma-separated list
columns such as `cuisines_list`). Its handlers are mostly I/O. This project
models the pure decisions inside them:

- **`get_analytics`**: the match-stage builder that turns optional request
  fields into a query (`Query.BuildMatch`). The per-record `$project` stage
  (`Stats.Project`) and the `$group` fold (`Stats.Accumulate`). The shaping of
  the response, with the "sin datos" fallback and the price-category thresholds
  (`Stats.Shape`, `Stats.PriceCategory`). The whole endpoint is
  `Stats.GetAnalytics`.
- **`get_restaurant_locations`**: its truthiness-based query
  (`Query.BuildLocationQuery`) and the 10000-document cap
  (`Query.RestaurantLocations`).
- **`top_tags_by_country` / `top_cuisines_by_country`**: the pipeline
  `$unwind` → `$group` → `$sort` → `$group`/`$push` → `$slice 5`, stage by stage
  (`Ranking.TopByCountry`).
- **`group_hours`**: the opening-hours parser of the CSV loader
  (`Ingest.GroupHours`). Also the loader's list-column split
  (`Ingest.SplitListCell`).
- **`clean_mongo_document`**: the recursive rewrite of a document before it is
  serialised (`Clean.CleanDoc`).

MongoDB stages have their plain sequence meaning. `$match`/`find` keeps the
matching documents in collection order (`Query.Select`), using MongoDB's
matching rules for equality on scalars and arrays and for `$in`
(`Query.Satisfies`). Query keys are the document's field names, written as the
datatype `Query.DocField`; `Query.Name` gives each one's string. `$sum` over
`$cond` counts. A `$group` over no documents yields no document.

MongoDB does not fix the output order of `$group`, or the order of documents
with equal `$sort` keys. The model groups in first-appearance order and sorts
stably. Every ranking property below holds whatever order is chosen.

Modules: `Optional`, `Text` (ASCII case mapping, Python `strip`, `split`,
`join`), `Counting` (counting and order-preserving filtering), `OrderedDict`
(insertion-ordered dicts), `Models` (records and request bodies, models.py),
`Query`, `Stats`, `Ranking` (analytics_endpoints.py), `Ingest`
(operations.py), `Clean` (utils.py).

## Model

| member | source | states |
|---|---|---|
| Query.BuildMatch | analytics_endpoints.py:14-28 | `country`, `city`, `province` and `price_level_cat` are constrained iff the value is given, non-empty and its lower-case form is not "string". The stored constraint is the original, un-lowered text as an exact equality. `service` is constrained iff given and non-zero (negatives are kept), as an exact equality. `meal_list`/`cuisines_list` become `$in` on `meals_list`/`cuisines_list` with exactly `[value]`. No other key is ever written |
| Query.MatchSelects | analytics_endpoints.py:14-32 | a restaurant matches the built match stage iff it satisfies every applied filter: equal text fields, equal service, the meal/cuisine among its list elements |
| Query.PlaceholderIgnored | analytics_endpoints.py:15-28 | giving a text filter as "" or as "string" in any letter case builds the same match stage as leaving it out |
| Query.ZeroServiceIgnored | analytics_endpoints.py:21-22 | a service filter of 0 builds the same match stage as leaving it out |
| Query.BuildLocationQuery | analytics_endpoints.py:105-112 | `country`, `province` and `city` enter the query iff given and non-empty, with no "string" placeholder check, as exact equalities. No other key ever appears |
| Query.LocationQuerySelects | analytics_endpoints.py:105-112 | a restaurant matches the location query iff it equals every non-empty given field |
| Query.RestaurantLocations | analytics_endpoints.py:126-127 | the result is the first min(n, 10000) of the n matching documents, in collection order |
| Stats.Accumulate | analytics_endpoints.py:58-67 | after the `$group` fold: total is the number of documents; each flag count and the rating count is at most total; 0 <= price_sum <= 3·total; the rating sum is 0 exactly when no rating was counted |
| Stats.AccumulateCounts | analytics_endpoints.py:33-67 | the vegetarian, vegan and gluten-free counts are the numbers of documents whose flag lowers to "si". rating_count counts the documents whose `avg_rating` is a number > 0, and rating_sum adds up those ratings. price_sum is 1·#barato + 2·#regular + 3·#caro, case-insensitively, and other levels add 0 |
| Stats.PriceCategory | analytics_endpoints.py:84-88 | with avg = price_sum/total: "barato" iff 2·price_sum < 3·total; "regular" iff 3·total <= 2·price_sum < 5·total; "caro" iff 5·total <= 2·price_sum |
| Stats.Shape | analytics_endpoints.py:72-98 | no group document gives the fixed zero summary with "sin datos". A non-empty group never gives "sin datos". The rating average is 0 when no rating was counted, and otherwise multiplied by rating_count it gives rating_sum |
| Stats.Summarize | analytics_endpoints.py:31-98 | the summary of the matched documents: its total is their number; it is the zero "sin datos" summary iff nothing matched; the flag counts are at most total; the rating average is never negative |
| Stats.GetAnalytics | analytics_endpoints.py:12-98 | `total_restaurants` is the number of restaurants the match stage selects. The result is the fixed zero summary, and the category is "sin datos", exactly when none is selected |
| Stats.AnalyticsSelection | analytics_endpoints.py:14-32 | the analytics match keeps exactly the restaurants of the collection that satisfy every applied filter |
| Stats.SummaryCounts | analytics_endpoints.py:33-46 | the returned flag counts are the numbers of matched restaurants whose flag lowers to "si". The returned rating is the mean of the ratings > 0, or 0 when there are none |
| Stats.SummaryPriceCategory | analytics_endpoints.py:47-55 | for a non-empty match, the category is barato/regular/caro by the 1.5 and 2.5 thresholds on (1·#barato + 2·#regular + 3·#caro)/total, with total counting unknown levels too |
| Ranking.UnwindCounts | analytics_endpoints.py:160 | `$unwind` yields each (country, value) pair exactly as often as the value occurs in that country's lists, so repeats within one list count each time |
| Ranking.TallyCounts | analytics_endpoints.py:161 | the `$group` by (country, value) has one entry per occurring pair, holding its positive number of occurrences |
| Ranking.SortByCount | analytics_endpoints.py:162 | `$sort` by count descending returns a permutation in non-increasing count order |
| Ranking.PushAllGathers | analytics_endpoints.py:163 | the `$group` by country with `$push` gives every country of the sorted table a non-empty list holding exactly its entries, in sorted order |
| Ranking.Slice | analytics_endpoints.py:164 | `$slice 5` keeps every country and the first five of its list, or all of it when shorter |
| Ranking.TopShape | analytics_endpoints.py:159-164 | each country appears once, with 1 to 5 entries in non-increasing count order |
| Ranking.TopDistinctTags | analytics_endpoints.py:159-164 | a country's list names each value at most once, because the `$group` by (country, value) leaves one entry per pair and the sort only permutes them |
| Ranking.TopCounts | analytics_endpoints.py:159-164 | every listed count is positive and equals the number of occurrences of that value in that country's lists |
| Ranking.TopIsTop | analytics_endpoints.py:159-177 | every value occurring for a country is in that country's list, or the list holds 5 entries that each count at least as much; this holds for tags and for cuisines |
| Ingest.GroupHours | operations.py:5-19 | a non-string cell or exactly "no_disponible" gives []. Every output day is one of mon..sun in lower case, and no day appears twice. The output length is at most min(7, number of comma-separated items) |
| Ingest.SingleItem | operations.py:8-19 | a text with no comma is one stripped item. If its text before the first ':' lowers to a week day, the result is that one day with the text after the colon as hours; otherwise (no colon, or no day before it) the result is [] |
| Ingest.DropsItemWithoutColon | operations.py:11-12 | appending an item with no ':' leaves the result unchanged |
| Ingest.DayItemSetsHours | operations.py:13-16 | appending an item whose text before the first ':' is a week day in any letter case sets that day's hours to the text after the colon. A day already present keeps its position; a new day goes last |
| Ingest.ContinuationExtendsLastDay | operations.py:17-18 | appending a non-day item that has a ':' appends ", " + item to the hours of the last day seen. Before any day, the item is dropped |
| Ingest.RunCurrentDay | operations.py:10-16 | `current_day` after the loop is the day of the last day item, or none |
| Ingest.SplitListCell | operations.py:25 | a non-string or "no_disponible" cell becomes []. Any other text splits into pieces without commas, one more than its commas, that join back with "," to the text |
| Text.SplitJoin | operations.py:25 | splitting the ","-join of comma-free pieces gives the pieces back |
| OrderedDict.Put | operations.py:16-18 | dict assignment keeps an existing key at its position and changes only its value; a new key is appended; keys stay distinct |
| Clean.CleanDoc | utils.py:4-14 | the cleaned dict has the same keys in the same order |
| Clean.CleanDocRules | utils.py:5-13 | an ObjectId becomes its string; a NaN or infinite float becomes None; finite floats, ints, strings, bools and None are untouched; nested dicts are cleaned. Lists keep length and order: dict elements are cleaned, and other elements, non-finite floats and nested lists included, stay as they were |
| Clean.CleanDocIsClean | utils.py:4-14 | after cleaning, no dict reachable through dicts and the dict elements of lists holds an ObjectId or a non-finite float |
| Clean.CleanDocFixpoint | utils.py:4-14 | cleaning leaves a document unchanged iff it is already clean in that sense |
| Clean.CleanDocIdempotent | utils.py:4-14 | cleaning an already-cleaned document returns it unchanged |

## Left out

- Facts about the code that the model keeps as they are:
  - `service` is an exact-equality filter (analytics_endpoints.py:22).
  - Text filters are not trimmed (analytics_endpoints.py:15-28).
  - A rating counts when it is a number above 0, with no upper bound (analytics_endpoints.py:40-41).
  - The price average divides by `total`, unknown levels included (analytics_endpoints.py:84).
  - Non-finite floats inside lists are not replaced; only dict elements are cleaned (utils.py:11).
- `round(…, 2)` and float arithmetic: the rating average is an exact real and the
  price thresholds are stated over integers. The float tests
  `price_sum / total < 1.5` and `price_sum / total < 2.5` (analytics_endpoints.py:86-87)
  agree with the integer forms while total is below 2^51. Above that, the rounded
  quotient can reach 2.5 when the exact one is just under it.
- Stats.RatingValue: `avg_rating` is a finite number, a NaN or a non-number. A
  positive infinity would enter `rating_sum` as infinity; it is not modelled.
- `service` values are finite reals; a NaN service in a filter or a record is not modelled.
- Case mapping is ASCII only. MongoDB's `$toLower` works this way. Python's
  `lower()` gives the same answers for the comparisons made here: against the
  day names and "string", no other character lowers into those letters.
- `get_restaurant_locations`' projection of fields is not modelled. The model
  returns whole records.
- `restaurants_count`, `restaurants_by_country`, `get_countries`: thin
  count/distinct wrappers.
- `avg_rating_by_cuisine`: float averaging and sorting by a float.
- `insert_data_from_csv` (pandas reading, `insert_many`) and `get_open_hours`:
  I/O only. The per-column split rule and `group_hours` are modelled.
- database.py, app.py, endpoints.py: client construction and router wiring.
- The MongoDB driver, async/await and FastAPI/pydantic validation. The
  collection is a parameter (a sequence of records), and request bodies are
  datatypes with optional fields.
- `clean_mongo_document` rewrites its argument in place. The model returns a
  new document, so aliasing of one dict in two places is not modelled.
  An ObjectId's string form is its hex text, taken as given. BSON types other
  than those listed (dates, decimals, bytes) are untouched by the code, like
  the other scalars.
