# RotorHazard event parser, logging rules and field settings in Dafny

This project models three parts of RotorHazard and proves properties about them.

- **The `EventParser` helper and the `EventManager` example built on it.**
  - The parser finds an event identifier (`events/<uuid>`) in JavaScript or downloaded text.
  - It builds the REST endpoints for events, races and rounds, and fetches them.
  - It exists in three diverging copies: `event_parser.py`, `event_lib/event_lib/parser.py` and `src/server/event_lib/parser.py`.
  - The server copy ignores the configured address for downloads, rounds and races.
  - The manager keeps an in-memory cache from event id to event document.
- **The decision rules of the server's logging module (`src/server/log.py`).**
  - Per-level message counters and the counts summary string.
  - Validation of configured level names and deletion of old log files.
  - Which handlers `later_stage_setup` enables, and at which levels.
  - How the queue worker routes a record.
  - The one-time "errors were logged" alert.
  - The level filter applied to the log file sent to a newly connected client.
- **`_modelField` and `buildField`/`updateField` of the web UI helper (`src/server/static/rh-ui.js`).** `_modelField` overlays a field description on fixed defaults; `buildField` accepts, rejects or fails on a `field_type`, and `updateField` applies the value.

Modules, one per component:

- `Wrappers`: `Option` and `Result`.
- `Text`: Python `int()` on strings, `str.find` and `join`.
- `Seqs`: order-preserving filter.
- `EventId`: the identifier regex, written as a fixed-width predicate plus a leftmost search.
- `Url`: `rstrip('/')` and `urljoin` with an absolute path.
- `Transport`: HTTP as a function from URL to response.
- `Api`: what the parser copies share, plus the two copies that resolve against the base address.
- `ServerApi`: the server copy.
- `EventManager`.
- `LogLevels`, `LogCounters`, `LogSetup`, `LogRouting`, `LogFilter`: the logging rules.
- `RhUi`: the field settings.

Network I/O is the parameter `t: Transport`, a function from URL to response. The log directory is the list of its log files, oldest first. A log file is the list of its lines.

## Model

| member | source | states |
|---|---|---|
| Text.ParseInt | src/server/log.py:433 | `int()` of a string accepts exactly an optional `-` or `+` followed by one or more ASCII digits, and rejects everything else. Digits give their value, `+` digits the same value, and `-` digits the negated value. |
| Text.ParseIntOfIntToString | src/server/log.py:433-447 | Parsing the decimal text of any integer gives that integer back. This is how a negative retention count shows up in its error message. |
| Text.ParseIntOfNegative | src/server/log.py:446-447 | The text `-` followed by the digits of a positive number parses to the negated number. |
| Text.IntToString | src/server/log.py:446-447 | The decimal text of an integer starts with `-` exactly when the integer is negative. |
| Text.FindChar | src/server/log.py:409-413 | `str.find(c, start)` returns -1 exactly when `c` does not occur at or after `start`. Otherwise it returns the first such index. |
| Text.Join | src/server/log.py:352 | Joining no parts gives `""`, and joining one part gives that part. Any non-empty join begins with its first part. |
| EventId.FirstMatchFrom | event_parser.py:30-31 | `re.search` scanning: the result is the least index at or after the start where the pattern matches, or none when nothing matches from there. |
| EventId.ExtractEventId | event_parser.py:19-35 | None exactly when no position matches. Otherwise the result is a lower-case UUID, taken from the leftmost match, and `events/` + the result occurs in the text. |
| EventId.ExtractEventPath | event_parser.py:38-53 | Absent exactly when `extract_event_id` is absent. Otherwise it is `events/` + that identifier, 43 characters long. |
| EventId.LeftmostMatchDecides | event_lib/event_lib/parser.py:54-88 | Whatever follows the leftmost match, it determines both extracted values. |
| EventId.UppercaseNeverMatches | event_parser.py:30 | An upper-case hex letter in the token position rules out a match there. |
| EventId.FirstOfTwoMatches | event_parser.py:30-34 | Text that starts with a well-formed `events/<id>` yields that id and path, whatever follows, including a second identifier. |
| EventId.UppercaseIdIsAbsent | event_parser.py:30-35 | An identifier written in upper-case hex is not found at all. |
| EventId.EmptyHasNoId | event_parser.py:33-35 | The empty text yields neither an id nor a path. |
| Url.TrimTrailingSlashes | event_parser.py:16 | `rstrip('/')` gives a prefix of the input that does not end in `/`. Only `/` characters were removed. |
| Url.TrimIsIdempotent | event_lib/event_lib/parser.py:17 | Trimming an already trimmed address changes nothing. |
| Url.TrimIsUnique | src/server/event_lib/parser.py:16 | The three trimming properties determine the result uniquely. |
| Url.AuthorityEnd | event_parser.py:70 | Finds where the host part ends: the first `/`, `?` or `#` at or after the given index. |
| Url.Origin | event_parser.py:91 | The scheme and host kept by `urljoin`: a prefix of the base, and empty unless the base is `http://` or `https://`. |
| Url.Join | event_parser.py:109 | `urljoin(base, "/path")` is the base's origin followed by the path. The base's own path is discarded. |
| Url.JoinDropsBasePath | event_lib/event_lib/parser.py:104 | Two bases with the same origin give the same joined URL, whatever path follows the host. |
| Transport.FetchJson | event_parser.py:72-75 | Succeeds exactly when the GET delivered a non-4xx/5xx response whose body is JSON, and returns that JSON. A connection failure or an error status propagates as itself. |
| Transport.FetchTextOrEmpty | event_lib/event_lib/parser.py:25-32 | The body text of a delivered response, and `""` for every failure. A non-empty result implies delivery. |
| Api.NewParser | event_lib/event_lib/parser.py:10-17 | The stored address is the given one without its trailing slashes. |
| Api.NewParserIsIdempotent | event_parser.py:9-16 | Constructing a parser from a constructed parser's address gives the same parser. |
| Api.DefaultAddressDropsApiPath | event_lib/event_lib/parser.py:10-17 | With the default address `http://192.168.1.185:8080/api`, `get_all_events` targets `http://192.168.1.185:8080/events`. The `/api` path is lost. |
| Api.DefaultOrigin | event_lib/event_lib/parser.py:10 | The origin that `urljoin` keeps from the default address is `http://192.168.1.185:8080`: scheme, host and port. |
| Api.EventPath | event_parser.py:90 | The event endpoint is an absolute path: the events collection path, then `/` and the id. |
| Api.RacePath | event_parser.py:69 | The race endpoint is an absolute path below its event's endpoint, ending in `/Race.json`. |
| Api.RoundsPath | src/server/event_lib/parser.py:56 | The rounds endpoint is an absolute path below its event's endpoint, ending in `/Rounds.json`. |
| Api.EventPathOfExtractedId | event_parser.py:38-53 | The endpoint of an extracted id is `/` followed by the extracted path. |
| Api.FindEventIdIn | event_lib/event_lib/parser.py:41-51 | Empty downloaded text gives no id. Otherwise the result is the identifier search over the text. |
| Api.GetEventData | event_parser.py:77-96 | Succeeds exactly when the event endpoint, resolved against the base address, delivers JSON. The result is that JSON. |
| Api.GetAllEvents | event_parser.py:98-114 | The same as `GetEventData`, for the events collection endpoint. |
| Api.GetRaceData | event_parser.py:56-75 | The same, for the race endpoint resolved against the base address. |
| Api.DownloadApiData | event_lib/event_lib/parser.py:19-32 | GETs the base address itself. It returns the body when delivered and `""` on any failure. |
| Api.FindEventId | event_lib/event_lib/parser.py:34-51 | A failed download finds nothing. A delivered one gives the identifier search over its body. |
| Api.FailingTransportAsymmetry | event_lib/event_lib/parser.py:19-51 | When every request fails, the download and search degrade to `""`/None. `get_event_data` and `get_all_events` propagate the connection failure. |
| ServerApi.DownloadApiData | src/server/event_lib/parser.py:18-31 | GETs the fixed `http://192.168.1.185:8080/api`, whatever address the parser holds. It returns `""` on any failure. |
| ServerApi.FindEventId | src/server/event_lib/parser.py:33-50 | The identifier search over the fixed address's body. A failed download finds nothing. |
| ServerApi.ServerHostIsOrigin | src/server/event_lib/parser.py:56 | The host `urljoin` keeps from `http://192.168.1.185:8080` is that whole address. |
| ServerApi.RoundDataUrl | src/server/event_lib/parser.py:55-56 | The rounds request goes to `http://192.168.1.185:8080` followed by `/events/<id>/Rounds.json`. |
| ServerApi.RaceDataUrl | src/server/event_lib/parser.py:84-85 | The race request goes to `http://192.168.1.185:8080` followed by `/events/<id>/<race>/Race.json`. |
| ServerApi.FindRound | src/server/event_lib/parser.py:62-65 | Returns the first element in list order whose `ID` equals the round id. It gives none only when every element has an `ID` and none matches. An element without `ID` raises KeyError or TypeError, unless a match comes before it. |
| ServerApi.FindRoundFindsFirst | src/server/event_lib/parser.py:61-63 | When element i has the requested `ID` and every element before it has a different `ID`, the scan returns element i. |
| ServerApi.GetRoundData | src/server/event_lib/parser.py:54-65 | Fetch failures propagate. A fetched list gives exactly the scan of that list. An empty object or empty string iterates nothing and gives none; every other non-list document raises TypeError. A found round is an element of the fetched list with the requested `ID`. |
| ServerApi.RoundIsFound | src/server/event_lib/parser.py:54-63 | A round in the fetched list, preceded only by rounds with other `ID`s, is what `get_round_data` returns. |
| ServerApi.GetRaceData | src/server/event_lib/parser.py:68-93 | Succeeds exactly when the race endpoint on the fixed host delivers JSON. |
| ServerApi.TargetsIgnoreBaseAddress | src/server/event_lib/parser.py:57 | Two parsers with any addresses target the same rounds URL and the same race URL. |
| ServerApi.EventTargetFollowsBaseAddress | src/server/event_lib/parser.py:109 | `get_event_data` of the same copy does follow the address: two hosts give two different targets. |
| EventManager.NewManager | event_lib/examples/event_manager.py:9-17 | Starts with an empty cache and a parser on the trimmed address. |
| EventManager.ParseEventFromJs | event_lib/examples/event_manager.py:19-39 | Without an id, or when the fetch fails, it gives none and leaves the cache unchanged. When an id is found and its fetch succeeds, it returns the fetched document and caches it under the id. Every other key is unchanged. A JSON `null` document is returned as `Some(JNull)` (see Left out). |
| EventManager.LastWithId | event_lib/examples/event_manager.py:57-59 | The last event in the list carrying a given id, and none exactly when no event carries it. |
| EventManager.CacheEvents | event_lib/examples/event_manager.py:57-59 | The loop fails exactly when some listed id is unhashable (a list or object). Keys no listed event carries keep their entries. |
| EventManager.CacheEventsLastWins | event_lib/examples/event_manager.py:57-59 | Without a failure, each id is cached with the last listed event carrying it. |
| EventManager.ActiveListing | event_lib/examples/event_manager.py:49-54 | Defined exactly when the fetch succeeded, the document is an object, and its `events` entry is missing, a list of objects, an empty object or an empty string. A missing entry, an empty object and an empty string give `[]`. For a list, the result is an order-preserving subsequence holding every copy of each active event and nothing else. |
| Seqs.FilterCount | event_lib/examples/event_manager.py:52-54 | The comprehension keeps every copy of an element that passes the test and no copy of any other. |
| EventManager.GetAllActiveEvents | event_lib/examples/event_manager.py:41-64 | A failed fetch or malformed listing gives `[]` and an unchanged cache. Otherwise it returns the active list exactly when no listed id is unhashable, and `[]` when one is. Keys of unlisted ids are unchanged. |
| EventManager.ActiveEventsAreCached | event_lib/examples/event_manager.py:57-61 | After a successful listing, every listed id maps to the last active event carrying it. |
| EventManager.GetCachedEvent | event_lib/examples/event_manager.py:66-76 | None exactly when the id is not cached; otherwise the cached document. A cached JSON `null` is `Some(JNull)` here (see Left out). |
| EventManager.CachedAfterParse | event_lib/examples/event_manager.py:35 | After a successful `parse_event_from_js`, `get_cached_event` of the id returns the document it fetched. |
| LogLevels.LevelValue | src/server/log.py:200-204 | Non-negative exactly for the known names (including WARN, FATAL and NONE), and then one of the known levels. It is -1 for any other name. |
| LogLevels.LevelName | src/server/log.py:177 | A known level has a known name. |
| LogLevels.LevelNameRoundTrip | src/server/log.py:177-204 | Name then value gives back every known level. Any other level gives -1. |
| LogLevels.CfgLevelValue | src/server/log.py:210-211 | Only a string configuration value that is a known name resolves to a level. Numbers and other values do not. |
| LogLevels.AppendError | src/server/log.py:214-217 | The first error becomes the whole string. Later ones are appended after `, `. |
| LogLevels.LevelForItem | src/server/log.py:208-219 | A known name gives its level and leaves the error string unchanged. Anything else gives the default level and appends the invalid-name message. |
| LogCounters.GetCount | src/server/log.py:61-62 | A name never counted has count 0. |
| LogCounters.IncCount | src/server/log.py:57-59 | The name's count rises by exactly one and every other count is unchanged. A new name goes to the end of the first-seen order, and the validity invariant is kept. |
| LogCounters.Items | src/server/log.py:64-65 | One pair per counted name, with no name twice, each carrying that name's count. |
| LogCounters.ItemsCoverCounts | src/server/log.py:57-65 | Every counted name appears among the pairs with its count. |
| LogCounters.ItemsAfterIncCount | src/server/log.py:57-65 | Counting a new name appends `(name, 1)` to the pairs. Counting a known name changes only its own pair, in place. |
| LogCounters.Insert | src/server/log.py:349 | Inserting into a sorted list keeps it sorted and adds exactly the new entry. An entry whose key is not below the last key goes at the end. |
| LogCounters.Sort | src/server/log.py:349 | `sorted`: the result is ordered by key and is a permutation of the input. |
| LogCounters.SortSameKeys | src/server/log.py:349 | Sorting entries that all have the same key leaves them in their order (stability). |
| LogCounters.InsertAtEnd | src/server/log.py:349 | An entry whose key is not below the last key of a sorted list goes at its end, so a stable sort keeps entries with equal keys in order. |
| LogCounters.InsertIsStable | src/server/log.py:349 | Inserting one entry into a sorted list keeps the entries of every key in their order. The new entry comes after the old entries of its key. |
| LogCounters.SortIsStable | src/server/log.py:349 | `sorted` is stable: for every key, the entries with that key appear in the result in their input order. |
| LogCounters.Reverse | src/server/log.py:351 | `reverse()`: element i of the result is element n-1-i of the input. |
| LogCounters.ReverseMultiset | src/server/log.py:351 | Reversing keeps the same entries. |
| LogCounters.Formatted | src/server/log.py:350 | Item i is `name=count` of entry i. |
| LogCounters.KeyedAsWritten | src/server/log.py:349 | As written, the entries are the counter items and every sort key is -1. The key function receives the whole (name, count) pair, which it cannot resolve. |
| LogCounters.CountsAsWrittenIgnoreLevels | src/server/log.py:347-352 | As written, the summary lists names in reverse first-seen order, whatever their levels. |
| LogCounters.CountsStrAsWritten | src/server/log.py:347-352 | As written, the summary is empty exactly when nothing was counted. Otherwise it begins with the most recently first-seen name. |
| LogCounters.KeyedByLevel | src/server/log.py:349 | The intended entries are the counter items, each keyed by the level of its name. |
| LogCounters.CountsEntries | src/server/log.py:347-352 | Corrected summary: every counted name once with its count, and highest level first. Each entry's key is the level of its name. |
| LogCounters.WithKeyReverse | src/server/log.py:351 | `reverse()` reverses the order of the entries of each key. |
| LogCounters.CountsEntriesKeepTies | src/server/log.py:349-351 | Corrected summary: names of equal level appear in reverse first-seen order. |
| LogCounters.CountsStr | src/server/log.py:347-352 | Corrected summary text: empty exactly when nothing was counted. |
| LogCounters.SummaryLeadsWithFirst | src/server/log.py:350-352 | The joined text is empty exactly when there are no entries. Otherwise it begins with the first entry's name and `=`. |
| LogCounters.CountsStrLeadsWithHighestLevel | src/server/log.py:347-352 | Corrected summary text begins with a counted name whose level is the highest of all counted names. |
| LogCounters.ErrorThenDebug | src/server/log.py:57-59 | One ERROR and then one DEBUG message give the order ERROR, DEBUG with one count each. |
| LogCounters.CountsOrderAsWrittenCounterexample | src/server/log.py:347-352 | As written, one ERROR then one DEBUG message give `DEBUG=1, ERROR=1`. |
| LogCounters.CountsOrderByLevel | src/server/log.py:347-352 | Keyed by level, the same counters give `ERROR=1, DEBUG=1`. |
| LogSetup.DropLast | src/server/log.py:441 | Python `files[:-k]`: for k > 0, all but the last k files (none if there are fewer). `files[:-0]` is empty. |
| LogSetup.OldestBeyond | src/server/log.py:438-443 | The files deleted form a prefix of the oldest-first list. Its length is the number of files beyond `keep`. |
| LogSetup.DeleteForCount | src/server/log.py:434-447 | A count n > 0 keeps min(files, n-1) files, deletes the oldest rest and adds no error. 0 deletes nothing silently. A negative count deletes nothing and appends the invalid-value message with the number. |
| LogSetup.DeleteOldLogFiles | src/server/log.py:431-456 | A non-numeric string deletes nothing and appends the message with the original text. A value `int()` rejects with TypeError deletes nothing and adds no error. Numbers follow `DeleteForCount`, and the deleted files are always a prefix of the list. |
| LogSetup.DeletionErrorIffRejected | src/server/log.py:431-456 | The error string stays empty exactly when it was empty and the retention value is accepted. Accepted values are a non-negative integer, a string `int()` reads as one, or a value `int()` rejects with TypeError. |
| LogSetup.KeepOneDeletesAll | src/server/log.py:435-443 | Keeping 1 deletes every old file, because the new log file is the one kept. |
| LogSetup.ConfiguredLevel | src/server/log.py:208-219 | The level settled on for an item: its known level, or else the item's default. |
| LogSetup.MinLevel | src/server/log.py:242-296 | The root level is at most CRITICAL and at most every enabled handler's level. It is CRITICAL or one of those levels. |
| LogSetup.AddIfEnabled | src/server/log.py:247-252 | A handler is appended exactly when its level is enabled (0 < level < 9999), with that kind and level. Otherwise the list is unchanged. |
| LogSetup.EffectiveConfig | src/server/log.py:229-236 | The keys are the default keys plus the user's. A user value overrides the default, and a default key the user omits keeps its default value. |
| LogSetup.LevelErrors | src/server/log.py:244-266 | After the three level items, the error string is empty exactly when all three names are known. |
| LogSetup.Handlers | src/server/log.py:245-296 | The handler list is the console handler, then the syslog handler, then the file handler, each present exactly when its level is enabled (0 < level < 9999). |
| LogSetup.PlanSetup | src/server/log.py:223-308 | Records which handlers exist and whether console and file are on. The socket level is the file level when the file log is on, else NOTSET. With the file log off nothing is deleted. The root level is bounded by CRITICAL and every handler's level. |
| LogSetup.PlanErrorIffRejected | src/server/log.py:244-271 | Setup accumulates an error exactly when a level name is unknown, or the file log is on and the retention value is not accepted. Accepted values are a non-negative integer, a string `int()` reads as one, or a value `int()` rejects with TypeError (such as `null`, a list or an object), which is only printed. |
| LogSetup.PlanDeletesOldest | src/server/log.py:266-267 | With the file log on and retention n > 0, setup deletes the oldest files and leaves n-1. |
| LogSetup.DefaultLevels | src/server/log.py:229-236 | The defaults give console INFO, syslog NONE and file INFO, all valid. |
| LogSetup.DefaultHandlers | src/server/log.py:245-296 | Levels INFO/NONE/INFO create exactly the console and file handlers, in that order. |
| LogSetup.DefaultSetup | src/server/log.py:223-316 | The default configuration succeeds: console and file at INFO, root at INFO. |
| LogSetup.LaterStageSetupAsWritten | src/server/log.py:296-301 | As written, setup fails exactly when an error accumulated. With console and file both off, the failure is the unbound `hdlr_obj` rather than the message. In every other case, including a failure with a bound handler (`Logging configuration error: ` + the errors), the result equals the corrected setup. |
| LogSetup.LaterStageSetup | src/server/log.py:298-316 | Setup fails exactly when an error accumulated, with `Logging configuration error: ` + the errors. On success every handler is enabled and the root level is at most each handler's level and CRITICAL. |
| LogSetup.BadSysLogOnlyPlan | src/server/log.py:244-266 | Console NONE, file NONE and syslog BOGUS: only the syslog message accumulates, and neither console nor file is on. |
| LogSetup.UnboundHandlerCounterexample | src/server/log.py:244-303 | For that configuration, the as-written setup fails on the unbound handler. The corrected one raises the configuration error. |
| LogRouting.NewWorker | src/server/log.py:73-82 | A new queue handler has at most its one given destination, and a callback level of NOTSET with no callable. |
| LogRouting.AddHandler | src/server/log.py:84-85 | Appends the destination and keeps the callback. |
| LogRouting.SetLogLevelCallback | src/server/log.py:88-90 | Sets the callback level and callable and keeps the destinations. |
| LogRouting.Process | src/server/log.py:92-104 | Counts the record's level name once and leaves other counts unchanged. The record reaches exactly the destinations whose level is at most its level, in order, each as often as it is attached. The callback fires only if callable and the level reaches a threshold above NOTSET. |
| LogRouting.ProcessAll | src/server/log.py:92-104 | The worker loop keeps the counters well formed and produces one delivery per queued record. |
| LogRouting.DrainEmitted | src/server/log.py:92-104 | Draining a queue hands each record to the same destinations as processing it alone. |
| LogRouting.EmittedIgnoresCounters | src/server/log.py:97-100 | Which handlers take a record does not depend on the counters. |
| LogRouting.DrainCounts | src/server/log.py:92-97 | Draining adds to each name's count exactly the number of queued records with that name. |
| LogRouting.DrainCallbacks | src/server/log.py:101-104 | The callback receives exactly the records that pass its test, in queue order. |
| LogRouting.DrainCallbacksSnoc | src/server/log.py:101-104 | Draining one more record adds that record to the callback list exactly when it passes the callback test. |
| LogRouting.CountRecordAsWritten | src/server/log.py:383-392 | As written, a record is counted once per attached queue handler that takes it. Each queue's worker bumps the shared counters. |
| LogRouting.CountRecord | src/server/log.py:52-59 | Intended: a record that some queue takes is counted exactly once, and one that none takes is not counted. |
| LogRouting.SocketForwarderDoubleCounts | src/server/log.py:383-392 | With the socket forwarder at its default level, one ERROR record counts 2 as written and 1 as intended. |
| LogRouting.GetLogErrorAlertFlag | src/server/log.py:337-345 | Returns True exactly when not yet alerted, set up, and the ERROR count is positive. That call sets the alerted flag. |
| LogRouting.Step | src/server/log.py:337-366 | Once alerted, the flag stays set and a query answers False. A step sets the flag only by answering True. |
| LogRouting.Run | src/server/log.py:337-345 | Over any event sequence the alerted flag is never cleared. |
| LogRouting.TrueCountConcat | src/server/log.py:337-345 | Counting True answers is additive over concatenated answer lists. |
| LogRouting.AlertShownAtMostOnce | src/server/log.py:340-343 | Over any sequence of setups, closes, counted records and queries, the alert is returned at most once. It is never returned once it has been shown. |
| LogRouting.AlertNeedsError | src/server/log.py:341-343 | Starting with no ERROR count, an alert is only shown if an ERROR record was counted. |
| LogRouting.ErrorThenQueryAlerts | src/server/log.py:337-345 | Setup, one ERROR record, then a query: the query returns True. |
| LogFilter.LevelTag | src/server/log.py:408-414 | A line's level tag is a known level, on a line longer than 24 characters that starts with digits. |
| LogFilter.NumericPrefix | src/server/log.py:410 | `line_str[0:4].isnumeric()` fails on an empty line or one that does not start with a digit. Four leading digits pass. |
| LogFilter.NumericPrefixOfLonger | src/server/log.py:410 | Only the first four characters decide the test. |
| LogFilter.LastTag | src/server/log.py:414-423 | The level of the last tagged line, or none when no line is tagged. |
| LogFilter.Kept | src/server/log.py:405-423 | An untagged line with no tagged line before it is never sent. An untagged line that is sent follows some earlier tagged line at or above the minimum. |
| LogFilter.ReferenceFilter | src/server/log.py:402-423 | The reference filter never yields more lines than it is given. |
| LogFilter.FilterStep | src/server/log.py:405-423 | After each line, `min_lvl_flag` equals whether that line was sent. |
| LogFilter.StepFollowsTag | src/server/log.py:405-423 | A `pos1` carried from an earlier line is harmless: each step sends a tagged line iff its level reaches the minimum, and an untagged line iff the flag is set. |
| LogFilter.FilterLogLines | src/server/log.py:402-424 | The loop sends exactly the reference lines: tagged lines at or above the minimum, and untagged lines whose last tagged predecessor is at or above it. |
| LogFilter.TaggedLineDecidesItself | src/server/log.py:414-419 | A tagged line is sent exactly when its own level reaches the minimum, whatever came before. |
| LogFilter.HigherMinimumSendsFewer | src/server/log.py:402-423 | Raising the minimum level never sends a line that a lower minimum withheld. |
| LogFilter.EmitCurrentLogFile | src/server/log.py:394-428 | No log file sends nothing. A minimum at or below NOTSET sends the whole file and `NOTSET`. Otherwise it sends the filtered lines and the level's name. |
| RhUi.Default | src/server/static/rh-ui.js:4-18 | `{}` for `data` and `html_attributes`, `null` for every other key. |
| RhUi.ModelField | src/server/static/rh-ui.js:3-27 | The result has exactly the 13 settings keys. A nullish value in it is a `null` default. |
| RhUi.ModelFieldTakesPresentValues | src/server/static/rh-ui.js:21-22 | A present, non-nullish option value is taken as given. |
| RhUi.FalsyValuesAreKept | src/server/static/rh-ui.js:21-22 | `0`, `false` and `""` are taken, not replaced by the default. |
| RhUi.ModelFieldKeepsDefaults | src/server/static/rh-ui.js:4-24 | A missing or nullish option leaves the key's default. |
| RhUi.ModelFieldIsIdempotent | src/server/static/rh-ui.js:3-27 | Modelling a modelled field changes nothing. |
| RhUi.SelectedType | src/server/static/rh-ui.js:57-245 | The branch taken is a known type loosely equal to `field_type`. None means no known type is loosely equal. |
| RhUi.LooseEqualsName | src/server/static/rh-ui.js:57 | A string equals a type name exactly when it is that name. Only strings and one-element arrays can equal a name, and only truthy values. |
| RhUi.LooseEqualsIsUnique | src/server/static/rh-ui.js:57-228 | A value loosely equals at most one type name, so the branch chain is unambiguous. |
| RhUi.SelectedTypeIs | src/server/static/rh-ui.js:265 | `updateField`'s direct `== 'checkbox'` test agrees with the branch `buildField` selects. |
| RhUi.FirstOptionName | src/server/static/rh-ui.js:141 | `options[0].name` throws exactly when `options` is nullish or its first entry is nullish. |
| RhUi.SelectThrows | src/server/static/rh-ui.js:129-142 | A select without a truthy value throws when `options` is nullish or an empty list. A non-empty list of non-nullish options never throws. Nullish options with a truthy value do not throw. |
| RhUi.UpdateField | src/server/static/rh-ui.js:262-274 | A checkbox gets `checked` from the modelled value. Every other type gets `val` from the modelled value. |
| RhUi.BuildField | src/server/static/rh-ui.js:28-261 | Returns `false` exactly when no known type matches. It throws exactly when the type tests attributes and `html_attributes` is not an object, or the type is select and its options cannot be read. When it builds, it applies what `updateField` applies, and generates an id when `id` is falsy. |
| RhUi.EveryKnownTypeIsAccepted | src/server/static/rh-ui.js:57-241 | Each of the 13 type names selects its own branch. |
| RhUi.UnknownTypeIsRejected | src/server/static/rh-ui.js:242-245 | A missing `field_type`, or a string that is not a known type, makes `buildField` return `false`. |
| RhUi.SelectDefaultIsNotApplied | src/server/static/rh-ui.js:140-142 | A select with options and no value: the first option's name is read as a default, but the applied value stays `null`. `updateField` models the options afresh (lines 259, 263-268). |

## Left out

- HTTP, JSON decoding and response bodies are abstract: `Transport` is a parameter, and a response carries its decoded JSON or none.
- `urljoin` is modelled only for absolute-path references on `http://`/`https://` bases. Other bases give an empty origin, and dot segments are not removed.
- Python `int()` on strings accepts surrounding whitespace, underscores and non-ASCII digits; these are not modelled. Float and boolean configuration values are not modelled either (`int(3.5)` and `int(True)` succeed in Python).
- `LogFilter.NumericPrefix`: `isnumeric()` is modelled for ASCII digits only. Other Unicode numeric characters are not modelled.
- EventManager.GetCachedEvent, EventManager.ParseEventFromJs: a JSON `null` document is `Some(JNull)` here. Python returns None for it, the same value as a missing id or a failed fetch, so a Python caller cannot tell those cases apart, while the model can. The cache still stores the document under the id in both.
- Python dictionary keys `1`, `1.0` and `True` collide. The event cache treats JSON values as distinct keys.
- JavaScript numbers are integers here, so `NaN` and fractional numbers are not modelled. Loose equality of objects with custom `toString` is not modelled either.
- `RhUi.ModelField`: a non-object `field_options` is not modelled (JavaScript throws on `null`). The DOM building, jQuery, `window.performance.now()` ids, `__()` translation, `getFieldVal`, `buildQuickbuttons` and the socket click handler are I/O or UI.
- The StreamHandler, syslog, NT event log, file and socket handler objects; writing and flushing the error line; `StreamToLogger`; stdout/stderr redirection; the `CONSOLE_STREAM` choice; and `early_stage_setup` quieting third-party loggers. All of these are I/O.
- File-system effects: glob, mtime ordering (the file list is given already sorted), `os.remove`, the timestamped log file name, `makedirs`, and `create_log_files_zip`.
- Exceptions inside `emit` of a destination handler, and the worker's 5-second pause after an error. The gevent queue, its capacity and timeouts, and `waitForQueueEmpty` are concurrency.
- `set_socket_min_log_level` and `start_socket_forward_handler` are modelled only through the queue levels in `LogRouting.CountRecordAsWritten`.
- `save_events_to_file` is file I/O. The `__main__` blocks of the parsers and the manager, `event_lib/cli.py` and `event_lib/setup.py` are outside this model.
- LogCounters.Items: it and the summary functions built on it are stated only for well-formed counters (distinct names, one count per name). `inc_count` starting from empty counters only produces such states (`LogCounters.IncCount` keeps the invariant).
- Unknown level names registered at run time through `logging.addLevelName` by other code are not modelled. Only the standard names and NONE are known.

## Findings

| source | as written | input that shows it | evidently intended | confidence | as-written member | corrected member |
|---|---|---|---|---|---|---|
| src/server/log.py:349 | `sorted(..., key=get_logging_level_value)` passes the (name, count) pair, and `getLevelName` raises on it. Every key becomes -1, so the stable sort plus `reverse()` lists names in reverse first-seen order. | one ERROR message, then one DEBUG message: `DEBUG=1, ERROR=1` | order by the level of each name, highest first: `ERROR=1, DEBUG=1` | high, not executed | LogCounters.CountsOrderAsWrittenCounterexample | LogCounters.CountsEntries |
| src/server/log.py:298 | `if hdlr_obj:` reads a variable that only the console and file branches assign. | `CONSOLE_LEVEL` "NONE", `FILELOG_LEVEL` "NONE", `SYSLOG_LEVEL` "BOGUS": UnboundLocalError, and the configuration message is lost | raise the `Logging configuration error: ...` ValueError | high, not executed | LogSetup.UnboundHandlerCounterexample | LogSetup.LaterStageSetup |
| src/server/log.py:383-392 | The socket forwarder's queue handler has its own worker, which also calls `inc_count` on the shared counters. | socket forwarder started at its default level NOTSET, one ERROR record: count 2 | one count per logged message | medium, not executed | LogRouting.SocketForwarderDoubleCounts | LogRouting.CountRecord |
