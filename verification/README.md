# glocation: a Dafny model of the Google Maps places scraper

The system is a one-page Streamlit form (`main.py`). The user gives either
postal (ZIP) codes or an area, plus a search keyword. The page builds
Google Places text-search queries, fetches every query, de-duplicates the
results by place id, enriches each place with its details, and shows a table.

This project models the logic behind the form:

- **Geocode** (`geocode_api`): parsing one geocoding response into
  alternate localities, coordinates and city name. Alternate localities
  that contain the city name, ignoring case, are dropped.
- **Details** (`get_place_details`): phone number, opening hours and URL
  of a place, each falling back to `-`.
- **Places** (`get_places_df`): the nested fetch loop. The membership scan
  keeps the first record per place id. The `place_id` column is dropped at
  the end.
- **Submit** (the submit branch): field stripping, the conflict check,
  the ZIP loop, the coordinate and locality queries, and the area query.
- **Text**: the Python string operations the code relies on (`strip`,
  `split`, `join`, `lower`, `in`), written out. The code never calls
  `split(sep)`; `Text.SplitOn` models it only to state that a `+`-join can
  be split back into its words.
- **Wrappers**: `Option`, `Result`, and the exceptions the code can raise.

The HTTP services are parameters of the model:

- `geocode` maps a ZIP code to a geocoding response;
- `search` maps a query URL to a text-search response;
- `lookup` maps a place id to a details response.

Each response is a datatype whose `Option` fields are `None` when the JSON
key is absent. The code's `.get(key, default)` defaults are modelled
explicitly.

The loops that build state step by step are methods proved against
specification functions. `GetPlaces`/`ScanResults` are proved against
`Collect`/`Scan`. `BuildZipQueries` is proved against `ZipPlan`, and
`SubmitForm` against both. The lemmas about those functions carry the
properties:

- ids are distinct and the first occurrence wins;
- records follow first-seen order, and every scanned id is covered;
- ZIP codes contribute independently and in order;
- the first geocoding error aborts the submission.

Behaviour of the code that the model keeps as written:

- **Empty aggregation.** The aggregation runs even when the ZIP loop built
  no query at all. A frame built from no records has no `place_id` column,
  so the drop at `main.py:74` raises `KeyError`. Any submission whose
  searches return no results ends this way, not in the "No results found"
  branch of lines 117-127. `Places.DropIdColumn` returns that error and
  `Submit.SubmitForm` reports it in the table result.
- **Geocoding errors.** A geocoding response whose `results` list is
  present but empty raises `IndexError`. A first locality component without
  `long_name` raises `KeyError`. Either ends the ZIP loop (`Crashed`), and
  no search is made.
- **Missing city name.** When a ZIP code has alternate localities but no
  city name, each locality query ends in the text `None`, as the f-string
  renders it.
- **Success range.** `range(200, 299)` excludes 299, so only statuses
  200 to 298 are a success.
- **Neither field given.** When both fields are blank, the code takes the
  area branch with an empty area and searches for `keyword+`.

## Model

| member | source | states |
|---|---|---|
| `Text.StripEmptyIffBlank` | main.py:89-92 | a stripped field is empty exactly when the field holds only whitespace, so that is when it counts as not given |
| `Text.Split` | main.py:96 | the words are non-empty and hold no whitespace |
| `Text.WordBeforeSpace` | main.py:96 | a whitespace-free word followed by whitespace or by the end is read as one whole word |
| `Text.SplitJoin` | main.py:96 | ZIP codes separated by single blanks split back into exactly those codes, in order |
| `Text.SplitAtSpace` | main.py:96 | any whitespace character separates: the words of `a`, a whitespace character, then `b` are the words of `a` followed by those of `b`, whatever the spacing inside `a` and `b` |
| `Text.SplitEmptyIffBlank` | main.py:96 | splitting yields no ZIP code exactly when the input is blank |
| `Text.SplitOnJoin` | main.py:113 | joining one or more separator-free pieces and splitting on the separator gives the pieces back |
| `Text.JoinNoSpace` | main.py:113 | a join of whitespace-free words with a whitespace-free separator holds no whitespace |
| `Text.ContainsIffOccurs` | main.py:28 | the substring test holds exactly when the needle occurs at some index of the haystack |
| `Geocode.CityName` | main.py:20-21 | no city name exactly when no component has type `locality`; the only error is `KeyError("long_name")` |
| `Geocode.CityNameIsFirstLocality` | main.py:20-21 | the name comes from the first locality component only, or a `KeyError` if that component lacks `long_name` |
| `Geocode.FilterLocalities` | main.py:28 | the result is no longer than the input; every kept locality is one of the input's and does not contain the city name (ASCII case ignored) |
| `Geocode.FilterLocalitiesExact` | main.py:28 | the filter keeps, in order, exactly the localities that do not contain the city name |
| `Geocode.FilterLocalitiesCounts` | main.py:28 | a kept locality occurs in the result as often as in the input; a dropped one not at all |
| `Geocode.SuccessRange` | main.py:15-16 | statuses 200 to 298 succeed; a 299 response gives `(None, None, None)` like any failure |
| `Geocode.FirstResult` | main.py:18 | an absent `results` key gives the empty result; a present but empty list is the only `IndexError`; otherwise the first result |
| `Geocode.Coordinates` | main.py:24-25 | coordinates are present exactly when lat and lng are present and non-zero, and then they are that pair |
| `Geocode.ParseGeocode` | main.py:11-30 | an unsuccessful status gives `(None, None, None)`; an empty `results` list gives `IndexError`; returned localities never contain a non-empty city name (an empty name skips the filter) |
| `Geocode.GeocodeCityName` | main.py:18-21 | on success the city name is that of the first locality component of the first result, else `KeyError` |
| `Geocode.GeocodeCoordinates` | main.py:24-25 | the returned coordinates are present exactly when lat and lng are both truthy, and equal them |
| `Geocode.GeometryIndependence` | main.py:18-30 | the geometry of the first result decides only the coordinates: whatever results follow, localities, city name and success do not depend on it |
| `Geocode.GeocodeLocalities` | main.py:23-28 | localities are filtered only when both they and the city name are non-empty, and then exactly the non-matching ones survive, in order and with their multiplicity; otherwise they come back unchanged |
| `Geocode.NamingLocalityDropped` | main.py:28 | a locality holding the city name verbatim is dropped, whatever its letter case |
| `Geocode.CityLocalityDropped` | main.py:11-30 | a response whose only alternate locality names the city parses to an empty locality list with coordinates and city |
| `Details.ResultOf` | main.py:40 | an absent `result` key reads as an object with no phone, hours or URL; otherwise the given result |
| `Details.WeekdayText` | main.py:43 | the weekday lines, or none when `opening_hours` or `weekday_text` is absent |
| `Details.HoursText` | main.py:43 | the hours text is never empty |
| `Details.ExtractDetails` | main.py:40-46 | phone and URL show `-` when their key is absent, and otherwise the given value (which may itself be `-`); the hours are the joined weekday lines or `-` |
| `Details.HoursPlaceholderIff` | main.py:43 | the hours read `-` exactly when there are no weekday lines, one empty line, or the single line `-` |
| `Details.HoursRoundTrip` | main.py:43 | otherwise, when no weekday line holds a newline, the hours split on newlines give back the weekday lines |
| `Details.MissingFieldsShowPlaceholder` | main.py:40-44 | a details result without phone and hours shows `-` for both |
| `Places.MakeRowFields` | main.py:62-71 | a record carries the place's id and its details; a missing name or address is empty text, a missing rating or rating count is `-` |
| `Places.StepRecordsId` | main.py:59-71 | one scanned place leaves earlier records untouched, adds at most one record, and leaves its id recorded; it adds one exactly when the id was new, built from that place and its details |
| `Places.CollectIdsDistinct` | main.py:58-71 | records have pairwise distinct place ids and are no more than the scanned places |
| `Places.CollectCoversIds` | main.py:58-71 | an id has a record exactly when some scanned place has that id |
| `Places.CollectKeepsFirst` | main.py:58-71 | each record is built from the first scanned place with its id, with that id's details |
| `Places.CollectFirstSeenOrder` | main.py:54-71 | records appear in the order their ids first occur: query order first, then result order |
| `Places.CollectAppend` | main.py:54-58 | the results of a later query are scanned on top of the records of the earlier queries |
| `Places.Listed` | main.py:60 | the scan finds the id exactly when some record carries it |
| `Places.ScanResults` | main.py:58-71 | the inner loop leaves exactly the records of scanning this query's results, and the ids fetched are the record ids |
| `Places.GetPlaces` | main.py:48-72 | the records are those of scanning every query's results in order; each query is searched once, in order; details are requested once per record, in record order |
| `Places.DropIdColumn` | main.py:73-74 | dropping the id column fails with `KeyError("place_id")` exactly when there are no records, else keeps every record without its id |
| `Places.DuplicateKeptOnce` | main.py:58-71 | scanning `a, b, b', c` with `b'` sharing `b`'s id yields records for `a, b, c`, and `b`'s record is built from `b` |
| `Places.DuplicateAcrossQueries` | main.py:54-71 | the same holds when the duplicate comes from a later query |
| `Submit.TextQuery` | main.py:114 | a text-search URL for a text and key; the text can be read back from the URL |
| `Submit.NearbyQueryText` | main.py:103 | the coordinate query searches for the keyword with `&location=lat,lng` |
| `Submit.Rendered` | main.py:108 | a present city renders as itself; `None` renders as the text `None`, indistinguishable from a city of that name |
| `Submit.LocalityQueryText` | main.py:108 | a locality query searches for `keyword+locality+city` |
| `Submit.LocalityQueries` | main.py:107-109 | one query per locality, in locality order, each `keyword+locality+city` |
| `Submit.TokenQueries` | main.py:102-109 | a ZIP code with coordinates contributes its coordinate query first, then one query per locality |
| `Submit.ZipStep` | main.py:96-109 | a raised error is kept; a geocoding error ends the plan; otherwise queries and reports only grow, the code is reported exactly when it has no coordinates, and then no query is added |
| `Submit.ZipPlanReports` | main.py:96-100 | when nothing raises, the reported codes are exactly the codes without coordinates, in input order |
| `Submit.ZipPlanSingle` | main.py:96-109 | one ZIP code yields an error, a report and no query, or exactly its own queries |
| `Submit.ZipPlanErrSticky` | main.py:97 | once geocoding has raised, later ZIP codes change nothing |
| `Submit.ChainStep` | main.py:96-109 | a step after two chained runs is a step of the second run |
| `Submit.ZipPlanConcat` | main.py:96-109 | the ZIP codes `a + b` yield the queries and reports of `a` followed by those of `b`; the first error wins |
| `Submit.AppendLocalityQueries` | main.py:106-109 | the locality loop appends exactly the locality queries |
| `Submit.AppendTokenQueries` | main.py:102-109 | the coordinate query and then the locality queries are appended |
| `Submit.BuildZipQueries` | main.py:94-110 | the ZIP loop builds exactly the planned queries and reports; every code is geocoded in order, or up to and including the first one whose response raised, no earlier code having raised |
| `Submit.AreaText` | main.py:113 | the area text starts with `keyword+`; a blank area gives just `keyword+` |
| `Submit.AreaQueryText` | main.py:114 | the area query searches for the area text |
| `Submit.AreaTextWords` | main.py:113 | the area part of the query is `keyword+` followed by whitespace-free text; when the area has words and none contains `+`, that text splits on `+` back into them |
| `Submit.SubmitZip` | main.py:94-111 | ZIP mode either crashes before any search, after geocoding a prefix of the codes that ends with the first one that raised, or geocodes every code, searches exactly the planned queries and requests details once per distinct place |
| `Submit.SubmitForm` | main.py:88-115 | conflict exactly when both stripped fields are non-empty, with no call made; an empty ZIP field makes exactly one area query; a ZIP field alone ends as ZIP mode over its whitespace-separated codes; details are requested once per distinct place |
| `Submit.CityLocalityFilteredOut` | main.py:96-109 | a ZIP code whose only alternate locality names its city contributes only the coordinate query |

## Left out

- The Streamlit page is not modelled: layout, widgets, messages, table display and CSV download (`main.py:77-86`, `117-127`). The two error messages become the `InputConflict` outcome and the `unresolved` list.
- Loading the API key from `API_KEY.txt` (`main.py:8-9`) is not modelled. The key is a parameter.
- HTTP requests are not modelled. Services are functions from request to decoded response. HTTP failures other than the geocoding status, and JSON values of the wrong type or `null`, are not modelled.
- The geocoding and details request URLs and parameters (`main.py:12`, `33-38`) are not modelled. Only the text-search URLs the code builds are.
- URL encoding is not modelled, because the code does none. Keywords, localities and city names are spliced into query URLs as they are.
- Coordinates and ratings are integers rather than floats. Only their truthiness (zero or not) and identity matter to the code. How a float prints in a URL is the parameter `show`.
- Text.Lower: folds ASCII letters only; Python's `str.lower` also folds non-ASCII letters.
- Text.IsSpace: covers Python's whitespace characters for `str.split`/`str.strip`; nothing else about Unicode is modelled.
- The `isinstance(url_queries, str)` wrap (`main.py:49-50`) is modelled by the area branch passing a one-element query list.
- Places: the pandas DataFrame is modelled only as its list of rows and the drop of the `place_id` column. Column order, dtypes and `DataFrame.empty` are not modelled.
- Submit.SubmitZip: a crash (`Crashed`) keeps only the exception. The "cannot find" messages already shown for earlier ZIP codes are not part of that outcome, although the page displays them before the exception.
