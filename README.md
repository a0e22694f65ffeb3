# City comparing: a Dafny model of the data-collection core

`city_comparing.py` collects data to compare US cities. Upcoming events are
scraped from Eventbrite result pages and restaurants come from the Yelp Fusion
search API. Every request goes through one cache: a dictionary keyed by the
request, written through to a JSON file.

This project models that data-collection core in Dafny:

- **Keys** (`keys.dfy`): the cache key of a request, `construct_unique_key`.
- **Cache** (`cache.dfy`): the fetch gateway. It holds `CACHE_DICT`, the cache file, the network call (`make_request`, with its politeness delay) and `make_request_with_cache`.
- **Events** (`events.dfy`): `get_event_information`. It splits location texts ("Place • City, ST") and calendar texts ("Sat, Apr 18, 3:00 PM", "Today at 6:00 PM") into fields and appends them to the eight module-level event lists.
- **Paging** (`paging.dfy`): the two paginators. `crawl_event_pages` walks numbered result pages. `get_yelp_offset_number` and `get_restaurant_information` walk the Yelp offsets 0, 50, ..., 950 and collect the businesses.
- **Cities** (`cities.dfy`): `get_cities_name` selects the cities of a state from the rows of the US cities table. `capitalize_city_name` gives a name's display form.
- **Text** (`text.dfy`) and **Outcomes** (`outcomes.dfy`) hold the string operations the core relies on (`split`, `join`, `strip`, `lower`, `capitalize`, `str` of an integer, Python's string ordering) and the `Option`/`Result` types. An exception the source would raise is an `Err` carrying its kind.

The code is modelled in the form it takes.

- **Code that changes state is a class with methods:**
  - `Cache.FetchGateway` holds the dictionary, the file, the requests sent, the printed `Using cache!`/`Fetching` lines and the delay count.
  - `Events.EventLists` holds the event lists.
- **Each loop is a method whose contract ties it to a specification function:**
  - `Cache.Call` and `Cache.Run` are one cached call and a sequence of them.
  - `Events.AddCards`, `Events.AddCalendars`, `Events.AddPage` and `Events.AddPages` are what pages append.
  - `Paging.Crawl` is the page crawl; `Paging.Search` and `Paging.Gather` are the Yelp search.
  - `Cities.Matching` is the state filter; `Cities.Capitalized` is the display form.
- **The properties are lemmas about those functions.**

Two points of the source are worth stating up front:

- The crawl's page numbering. The docstring of `get_event_information` (city_comparing.py:59) shows the second page as `?page=2`. `crawl_event_pages` increments `i` before building the URL (city_comparing.py:165), so the pages fetched are the base URL, then `?page=2`, `?page=3`, ...; `?page=1` is never requested (`Paging.PageUrl`, `Paging.PageUrlNeverFirst`).
- `construct_unique_key` is not injective, although its docstring calls the key unique: `Keys.KeyCollision` exhibits two different parameter dictionaries with the same key.

## Model

| member | source | states |
|---|---|---|
| Text.NatToString | city_comparing.py:327 | `str(n)` of a natural number: non-empty, decimal digits only, a leading `0` only for zero, a single digit exactly below ten |
| Text.NatToStringInjective | city_comparing.py:327 | different numbers render differently, so rendered offsets and page numbers never collide |
| Text.Lower | city_comparing.py:256 | no contract: defines `str.lower()`, mapping each ASCII capital to its small letter and keeping every other character |
| Text.Capitalize | city_comparing.py:719-724 | no contract: defines `str.capitalize()`, the first character upper-cased and the rest lower-cased |
| Text.Split | city_comparing.py:84 | `str.split(sep)` always yields at least one piece |
| Text.Join | city_comparing.py:711-722 | no contract: defines `sep.join(parts)`, the pieces with the separator between each two |
| Text.JoinSplit | city_comparing.py:84 | joining the pieces of a split with the separator gives back the text (`sep.join(s.split(sep)) == s`) |
| Text.SplitJoin | city_comparing.py:125 | splitting a join of pieces that lack the separator's first character gives back the pieces |
| Text.SplitPair | city_comparing.py:84-87 | `a + sep + b` splits into exactly `[a, b]` when no occurrence of `sep` starts inside `a` and none lies inside `b` |
| Text.SeparatorMarked | city_comparing.py:84-90 | a separator character that appears in neither side (nor earlier in the separator) rules out every such occurrence, so `Text.SplitPair` applies |
| Text.SplitWhole | city_comparing.py:125-127 | a text without the separator splits into itself alone |
| Text.SplitAtFirst | city_comparing.py:84 | a split cuts at the first occurrence of the separator, then splits the rest |
| Text.SplitPiecesLackSeparator | city_comparing.py:711 | no piece of a split on one character contains that character |
| Text.Strip | city_comparing.py:73 | no contract: defines `str.strip()`, the leading and then the trailing white space removed |
| Text.StripLeadingShape | city_comparing.py:73 | `lstrip` removes exactly the leading white space: the result is a suffix that starts with a non-space |
| Text.StripTrailingShape | city_comparing.py:73 | `rstrip` removes exactly the trailing white space: the result is a prefix that ends with a non-space |
| Text.StripShape | city_comparing.py:73 | `strip` gives a slice of the text that neither starts nor ends with white space |
| Text.StripPadded | city_comparing.py:87 | a text with non-space ends, padded in front with white space, strips back to itself |
| Text.CapitalizeShape | city_comparing.py:719-724 | `str.capitalize` keeps the length, is idempotent, and introduces no white space |
| Text.JoinSnoc | city_comparing.py:716-722 | appending a separator and one more piece extends a join by that piece |
| Keys.LessEqTotal | city_comparing.py:328 | Python's string ordering is total |
| Keys.LessEqAntisymmetric | city_comparing.py:328 | Python's string ordering is antisymmetric |
| Keys.LessEqTransitive | city_comparing.py:328 | Python's string ordering is transitive |
| Keys.LessEqReflexive | city_comparing.py:328 | Python's string ordering is reflexive |
| Keys.InsertCounts | city_comparing.py:328 | one insertion step of the sort adds exactly the inserted token |
| Keys.InsertSorted | city_comparing.py:328 | inserting a token into a sorted list keeps it sorted |
| Keys.SortStringsSorts | city_comparing.py:328 | `list.sort()` of the tokens: the result is sorted and a permutation of the tokens |
| Keys.SortedUnique | city_comparing.py:328 | two sorted lists holding the same tokens are equal, so the sorted order is unique |
| Keys.UniqueKey | city_comparing.py:306-333 | no contract: defines `construct_unique_key`, the base URL alone without parameters, else the base URL, `_`, and the sorted `name_value` tokens joined by `_` |
| Keys.UniqueKeyShape | city_comparing.py:323-333 | the key starts with the base URL, and is the base URL alone exactly when there are no parameters |
| Keys.TokensPermutation | city_comparing.py:326-327 | reordering the parameters only reorders their `name_value` tokens |
| Keys.ApplyPermutation | city_comparing.py:326-327 | mapping a function over a reordering of a list gives a reordering of the images |
| Keys.UniqueKeyOrderIndependent | city_comparing.py:323-330 | the key does not depend on the order in which the parameters were inserted |
| Keys.KeyCollision | city_comparing.py:306-333 | two different parameter dictionaries can share a key, because `_` may appear inside a name or value |
| Cache.OpenCache | city_comparing.py:264-285 | no contract: defines what `open_cache` returns, the dictionary in the file, or `{}` when the file is missing or corrupt |
| Cache.Answer | city_comparing.py:355-362 | no contract: defines what `make_request` returns, the reply's JSON for the Yelp API URL and its text otherwise |
| Cache.Call | city_comparing.py:383-392 | no contract: defines one `make_request_with_cache` call on a gateway snapshot: a hit returns the cached value and logs `Using cache!`; a miss sends the request, stores and returns its answer, and logs `Fetching` |
| Cache.FetchGateway.constructor | city_comparing.py:12 | a run starts with an empty `CACHE_DICT`, nothing sent, nothing printed, no delay |
| Cache.FetchGateway.LoadCache | city_comparing.py:264-285 | `open_cache` loads the dictionary in the file, or `{}` when the file is missing or unreadable |
| Cache.FetchGateway.SaveCache | city_comparing.py:288-303 | `save_cache` overwrites the file, and opening it again gives back the same dictionary |
| Cache.FetchGateway.MakeRequest | city_comparing.py:336-362 | one network request is sent; a Yelp reply is taken as JSON with no delay, any other page as text after one delay |
| Cache.FetchGateway.MakeRequestWithCache | city_comparing.py:365-392 | a hit returns the stored value and changes only the log; a miss sends exactly one request, stores its answer under the key, writes the dictionary to the file and returns it; the gateway invariant (write-through, one request per key, one `Fetching` line per request, one delay per scraped page) is kept |
| Cache.SentOnceMore | city_comparing.py:387-392 | a miss on a key not yet cached keeps the invariant that every request sent has its own, cached key |
| Cache.SentOnceMeans | city_comparing.py:383-392 | that invariant holds exactly when every key sent is cached and no two requests sent share a key |
| Cache.KeySetSize | city_comparing.py:383-392 | requests have at most as many keys as there are requests, and exactly as many when no two share a key |
| Cache.RepeatRequest | city_comparing.py:383-392 | an identical second call is a cache hit and returns the same value, so both calls together send at most one request |
| Cache.Run | city_comparing.py:365-392 | a sequence of cached calls returns one value and prints one line per request |
| Cache.RunKeeps | city_comparing.py:383-392 | a run only adds entries, one per new key, and never changes an existing entry |
| Cache.RunResultsCached | city_comparing.py:383-392 | every value a run returns is what the dictionary holds for its key afterwards |
| Cache.RunFetchesNewKeysOnce | city_comparing.py:383-392 | a run sends one request for each key that was not cached and for no other key, and its `Fetching` lines name exactly those keys |
| Cache.RunFresh | city_comparing.py:387-392 | requests with distinct uncached keys all go over the network, in order |
| Cache.RunAllCached | city_comparing.py:383-386 | a run whose keys are all cached sends nothing, changes no entry and returns the cached values |
| Cache.RunAgain | city_comparing.py:365-392 | repeating a run is served wholly from the cache and returns the same values |
| Cache.RunShift | city_comparing.py:365-392 | what was sent and printed before a run does not affect what the run does |
| Events.AddCard | city_comparing.py:73-111 | no contract: defines one pass of the card loop, the stripped name and the location fields as far as they get, and IndexError when a field is missing |
| Events.AddCards | city_comparing.py:71-111 | no contract: defines the card loop over a page, stopped by the first card that raises |
| Events.AddCalendar | city_comparing.py:118-143 | no contract: defines one pass of the calendar loop, the stripped text and its day, date and time as far as they get |
| Events.AddCalendars | city_comparing.py:116-143 | no contract: defines the calendar loop over a page, stopped by the first text that raises |
| Events.AddPage | city_comparing.py:71-143 | no contract: defines what `get_event_information` appends for one parsed page, the card loop and then, if it did not raise, the calendar loop |
| Events.AddPages | city_comparing.py:161-168 | no contract: defines what a sequence of pages appends, stopped by the first page that raises |
| Events.LocationFields | city_comparing.py:76-111 | the card loop appends one to three location fields; fewer than three only for a location with the bullet |
| Events.SplitLocation | city_comparing.py:76-111 | a card without a location element gets the three placeholders; a location without the bullet keeps its stripped text with the city and state placeholders; every failure is an IndexError |
| Events.LocationRoundTrip | city_comparing.py:81-90 | a location printed as `Place • City, ST` is read back as the same venue, city and state |
| Events.CalendarFields | city_comparing.py:122-143 | the calendar loop appends two or three fields; a relative text takes its day and date from the clock |
| Events.SplitCalendar | city_comparing.py:125-143 | a text without `, ` takes the day and date from the clock; every failure is an IndexError |
| Events.CalendarRoundTrip | city_comparing.py:139-143 | a date printed as `Day, Date, Time` is read back as the same day, date and time |
| Events.RelativeCalendar | city_comparing.py:126-138 | `Today at 6:00 PM` gets the clock's weekday and `month day`, and the time after `at` |
| Events.AddCardOutcome | city_comparing.py:73-111 | one pass of the card loop gets through exactly when the card's location can be split |
| Events.AddCardsOk | city_comparing.py:71-111 | the card loop gets through a page exactly when every card's location can be split |
| Events.AddCardsSpareCalendars | city_comparing.py:71-111 | whatever happens, the card loop leaves the calendar lists alone |
| Events.AddCalendarOutcome | city_comparing.py:118-143 | one pass of the calendar loop gets through exactly when the stripped text can be split |
| Events.AddCalendarsOk | city_comparing.py:116-143 | the calendar loop gets through a page exactly when every stripped calendar text can be split |
| Events.AddCalendarsSpareCards | city_comparing.py:116-143 | whatever happens, the calendar loop leaves the card lists alone |
| Events.EveryMeans | city_comparing.py:71-143 | checking a test on each item from first to last, as the loops do, holds exactly when it holds of every item |
| Events.AddCardsStopped | city_comparing.py:71-111 | after a card raises, the later cards add nothing: the loop has stopped with that error |
| Events.AddCalendarsStopped | city_comparing.py:116-143 | after a calendar text raises, the later texts add nothing |
| Events.AddCardsRows | city_comparing.py:71-111 | the card loop keeps the earlier rows and adds one row per card: its stripped name and the split fields of its location |
| Events.AddCalendarsRows | city_comparing.py:116-143 | the calendar loop keeps the earlier rows and adds one row per text: the stripped text and its split day, date and time |
| Events.AddCardRaised | city_comparing.py:82-90 | a card that raises has a location with the bullet; its name and the text before ` •` are appended, at most one city and no state, and the error is IndexError |
| Events.AddCalendarRaised | city_comparing.py:120-143 | a calendar text that raises still has its text, day and date appended but no time, and the error is IndexError |
| Events.AddPageAligned | city_comparing.py:47-143 | a page keeps the name/location/city/state lists the same length, and likewise the calendar/day/date/time lists |
| Events.AddPagesAligned | city_comparing.py:146-168 | every page of a crawl keeps the lists aligned |
| Events.AddCardsTorn | city_comparing.py:71-111 | from aligned lists, a card loop that raises leaves the state list one row short of the name and location lists |
| Events.AddCalendarsTorn | city_comparing.py:116-143 | from aligned lists, a calendar loop that raises leaves the time list one row short of the calendar and day lists |
| Events.AddPageTorn | city_comparing.py:47-143 | a page that raises leaves the lists out of line with each other |
| Events.EventLists.constructor | city_comparing.py:20-29 | all eight event lists start empty |
| Events.EventLists.GetEventInformation | city_comparing.py:47-143 | one cached fetch of the page, then the lists hold what `AddPage` gives for its cards and calendar texts, partial rows included, and its exception is returned; when nothing is sent the cache file is unchanged |
| Events.EventLists.AppendCards | city_comparing.py:71-111 | the card loop appends exactly what `AddCards` gives, including the partial row of a card that raises, and returns that card's error |
| Events.EventLists.AppendCard | city_comparing.py:73-111 | one card appends its stripped name, then its location, city and state as far as the split reaches, as `AddCard` gives |
| Events.EventLists.AppendCalendars | city_comparing.py:116-143 | the calendar loop appends exactly what `AddCalendars` gives, including the partial row of a text that raises, and returns that text's error |
| Events.EventLists.AppendCalendar | city_comparing.py:118-143 | one calendar text appends the stripped text, its day and date, then its time if it has one, as `AddCalendar` gives |
| Paging.PageUrl | city_comparing.py:162-166 | no contract: defines the URL of iteration `i` of `crawl_event_pages`, the base URL for `i = 0` and `base?page=<i+1>` otherwise |
| Paging.PageRequests | city_comparing.py:161-168 | no contract: defines the requests of a crawl of `count` pages, one parameterless request per iteration and none for `count <= 0` |
| Paging.Crawl | city_comparing.py:146-168 | no contract: defines a crawl, each page one cached fetch followed by the rows it appends, and the first exception ending it |
| Paging.PageUrlNeverFirst | city_comparing.py:161-168 | no iteration of the crawl requests `?page=1` |
| Paging.PageUrlsDistinct | city_comparing.py:161-168 | different iterations request different URLs |
| Paging.PageKey | city_comparing.py:65 | a page request carries no parameters, so its cache key is its URL |
| Paging.PageUrlsExample | city_comparing.py:161-168 | the first three URLs are the base URL, `?page=2` and `?page=3` |
| Paging.StateCrawlPages | city_comparing.py:32 | the run's crawl of `state_event_crawling_numbers` asks for 52 pages, the base URL first and `?page=52` last |
| Paging.CrawlSnoc | city_comparing.py:161-168 | one more iteration of the crawl is one more cached fetch followed by that page's rows |
| Paging.CrawlStopped | city_comparing.py:161-168 | after a page raises, the crawl fetches nothing more and keeps that error |
| Paging.CrawlRunsEveryPage | city_comparing.py:161-168 | a crawl in which no page raises fetches exactly what the run of its page requests fetches, and appends what those pages add |
| Paging.CrawlFromSnoc | city_comparing.py:161-168 | the rest of a crawl followed by one more page is one more cached fetch and its rows, unless an exception already ended it |
| Paging.CrawlFromStart | city_comparing.py:161-168 | visiting the pages front to back, as the loop does, is the crawl `Crawl` |
| Paging.CrawlFromStep | city_comparing.py:161-168 | the rest of a crawl from page `i` is the fetch of page `i` and its rows, then the rest from page `i + 1` |
| Paging.CrawlPage | city_comparing.py:162-168 | one iteration fetches the base URL (first) or `?page=i+1` and appends its rows; an exception ends the crawl at that state |
| Paging.CrawlEventPages | city_comparing.py:146-168 | the gateway and the event lists end as `Crawl` of the `count` page requests says (none for a count of zero or less), with the first page's exception and its partial rows; when nothing is sent the cache file is unchanged |
| Paging.CrawlFetchesEveryPage | city_comparing.py:161-168 | a crawl with none of its pages cached sends every page request over the network, in order |
| Paging.GetYelpOffsetNumber | city_comparing.py:210-233 | the offsets are exactly 0, 50, ..., 950: twenty of them, the i-th being 50 times i |
| Paging.YelpKey | city_comparing.py:188-195 | the cache key of a search lists `limit_50`, `location_<city>` and `offset_<n>` in sorted order |
| Paging.YelpKeysDistinct | city_comparing.py:188-195 | searches at different offsets have different cache keys |
| Paging.YelpFetchesEveryOffset | city_comparing.py:171-207 | for a city none of whose searches is cached, all twenty go over the network, in offset order, with no delay |
| Paging.ApiOnlyNotScraped | city_comparing.py:357-361 | requests that all go to the Yelp API take no politeness delay |
| Paging.Businesses | city_comparing.py:198-205 | no contract: defines the businesses of one reply: none without a `businesses` key, the list's items (a string's characters), AttributeError for a reply that is not an object, TypeError for a value that cannot be iterated |
| Paging.Gather | city_comparing.py:196-205 | collecting the businesses succeeds exactly when every reply's businesses can be read |
| Paging.GatherSnoc | city_comparing.py:196-205 | one more reply appends its businesses |
| Paging.GatherAppend | city_comparing.py:196-205 | collecting over two batches of replies is collecting over each, concatenated |
| Paging.GatherNoBusinesses | city_comparing.py:198-202 | replies without `businesses` (past the last business) contribute nothing, and collecting them succeeds |
| Paging.AppendEach | city_comparing.py:203-205 | the inner loop appends the reply's items, in order, to the total |
| Paging.Search | city_comparing.py:192-205 | no contract: defines the Yelp search loop, each offset one cached call followed by its businesses, and the first exception ending it |
| Paging.SearchSnoc | city_comparing.py:192-205 | one more offset is one more cached search followed by its businesses |
| Paging.SearchStopped | city_comparing.py:192-205 | after a reply raises, no later offset is searched and the error is kept |
| Paging.SearchRunsEveryRequest | city_comparing.py:192-205 | a search in which every reply can be read makes every request, as their run does, and returns the businesses of all the replies |
| Paging.GetRestaurantInformation | city_comparing.py:171-207 | the gateway and the result end as `Search` of the twenty offset requests says: all the businesses in order, or the first reply's exception; when nothing is sent the cache file is unchanged |
| Cities.Matching | city_comparing.py:253-256 | no contract: defines the names the loop collects, the lower-cased first cell of each row whose third cell is the state, in table order |
| Cities.GetCitiesName | city_comparing.py:236-258 | an empty table raises StopIteration, a data row without a state cell raises IndexError, and otherwise the result is the lower-cased names of the state's rows, in table order |
| Cities.MatchingMembers | city_comparing.py:253-256 | a name is listed exactly when some row of the state carries it, lower-cased |
| Cities.MatchingLowerCase | city_comparing.py:256 | every listed name is already lower case |
| Text.LowerLower | city_comparing.py:256 | lower-casing twice is lower-casing once |
| Cities.Capitalized | city_comparing.py:711-724 | no contract: defines the display form, the capitalized words of the name joined by single spaces |
| Cities.CapitalizeCityName | city_comparing.py:702-726 | the loop builds exactly the capitalized words joined by single spaces, with no trailing space; a single word is capitalized whole |
| Cities.CapitalizeNoSpace | city_comparing.py:719-724 | capitalizing a word adds no space |
| Cities.CapitalizedWords | city_comparing.py:711-722 | the display form splits into the capitalized words of the name, so the word count is kept |
| Cities.CapitalizedIdempotent | city_comparing.py:702-726 | a name already in display form stays as it is |
| Cities.CapitalizedLength | city_comparing.py:702-726 | the display form is as long as the name: only letter cases change |

## Left out

- The HTTP call `requests.get` (city_comparing.py:355) is not modelled. The server is a fixed function `network` from request to reply, and the reply carries both the page text and the JSON already decoded from it. So `network` always answers: a failing request (connection error, time-out, error status) is not modelled, and neither is a reply body that is not JSON (`response.json()` raising at city_comparing.py:358). No member models those exceptions.
- `response.json()` decoding and the `json.loads`/`json.dumps` of the cache file are not modelled. Values are a `Json` datatype, and the file holds the dictionary itself, or is missing or corrupt.
- File I/O of `open_cache` and `save_cache` is abstracted the same way. A failure to read gives `{}`, as the bare `except` does.
- `time.sleep(1)` is recorded only as a count of delays.
- `print` is modelled only in `make_request_with_cache`, as the log of `Using cache!`/`Fetching` lines. The other `print` calls are left out.
- The BeautifulSoup HTML search in `get_event_information` is a parameter, `parse`. It maps a page body to its cards and calendar texts; that mapping is a foreign library.
- Events.EventLists.GetEventInformation: the clock (`datetime.now()`) is a parameter, read once per page. The source reads it once for each relative calendar text, so a page scraped across midnight could mix two dates. The model does not capture that.
- Paging.CrawlEventPages: the whole crawl shares one clock reading, `now`. In the source each relative calendar text reads the clock anew, so a crawl running across midnight could give pages different dates. The model does not capture that.
- Paging.Businesses: a reply whose `businesses` value is a JSON object is modelled as TypeError. Python would iterate the object's keys and append them, but the `Json` datatype keeps an object as a `map`, which loses key order, so that case is not modelled.
- Cache.FetchGateway.SaveCache: it never fails. In the source, `open(..., "w")` or `write` (city_comparing.py:301-302) can raise, and the exception propagates out of `make_request_with_cache`. A failed write is not modelled.
- Events.SplitCalendar: the Ok branch is stated only for relative dates. For the three-part form the round trip `Events.CalendarRoundTrip` stands in.
- `csv.reader` and the opening of the cities file are not modelled. `get_cities_name` takes the rows the reader would yield, header first. The source skips the header with `next()` on the file rather than the reader; this is modelled as skipping the first row.
- The sqlite code (`create_db`, `load_locations`, `load_events`, `load_restaurants`, `total_number_of_restaurants`, `average_city_restaurant_rating`, city_comparing.py:399-698) is not part of this model. It is a database interface with SQL text and floating-point averages.
- The interactive `__main__` loop and `exit()` are not part of this model (city_comparing.py:729-855).
- The module-level `YELP_API_KEY` comes from a secrets module that is not part of this model. It is a parameter, `apiKey`.
- A parameter dictionary is a sequence of name/value pairs, and it may repeat a name. `None` and `{}` are both the empty sequence, since both are falsy for `construct_unique_key`.
- Text.Lower, Text.Capitalize: only ASCII letters change case. Python's full Unicode case mapping is left out; the white space `strip` removes is Python's full set.
