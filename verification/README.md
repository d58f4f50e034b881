# compclimbingstats, modelled in Dafny

compclimbingstats collects competition-climbing results. This project models its three
sequential cores:

- **`scrape.py`**: the legacy scraper.
  - A `Scraper` keeps a resumption cursor `{year, wet_id}`.
  - It walks the yearly competition listings from a starting year up to the current year. Incremental mode starts at `max(cursor.year, 2014)`; full mode starts at 2014.
  - For each competition that answers with a readable date, it writes one results file of normalised 12-column rows.
  - The cursor moves after every competition written and after every year, and is written each time.
  - The module also covers the command-line loop that picks the mode.
- **`src/extract/extract.py`**: the extractor.
  - It walks index → season → event → discipline category → round.
  - It keeps seasons by year, keeps World Cup events with a requested discipline, and keeps finished semi-finals and finals.
  - For each kept round it writes the result document with a metadata record attached, under the name `season_loc_discipline_category_round.json`.
- **`src/transform/jsontocsv.py`**: the JSON-to-CSV transform.
  - Each ranking entry becomes a row: `flag_url` is dropped, the entry is merged over the event name and metadata, and its score is trimmed.
  - The header is the key list of the first row.
  - The output file name replaces the input stem's suffix with `.csv`.

Network responses and file contents are plain values:

- The scraper's remote API is a map from year to listing and from competition id to competition.
- Each extractor reference carries the document it links to.
- The transform takes decoded documents.

Files written and requests issued are logs that only grow. The current year is a parameter.

Files:

| file | module | contents |
|---|---|---|
| `wrappers.dfy` | `Wrappers` | `Option`, `Result` |
| `lists.dfy` | `Lists` | `Filter`, the list comprehension with `if` |
| `text.dfy` | `Text` | Python's `strip`, `lower`, `str(int)`, `int(str)`, `split('/')[-1]` and `rfind` |
| `dicts.dfy` | `Dicts` | insertion-ordered dictionaries: get, set, remove, `{**a, **b}` |
| `json.dfy` | `JsonValues` | decoded JSON values |
| `scrape.dfy` | `Scrape` | rows, the run as functions, the `Scraper` class, the cursor file |
| `scrape_cli.dfy` | `ScrapeCli` | the option loop |
| `extract.dfy` | `Extract` | the selections, the walk as functions, the `Extractor` class |
| `jsontocsv.dfy` | `JsonToCsv` | reshaping, writing, output names |

The scraper and the extractor are imperative:

- `Scrape.Scraper` and `Extract.Extractor` are classes. Their methods loop over years and competitions, or over seasons, events, categories and rounds, just as the source does.
- Each method is proved equal to a recursive function of the previous state: `Scrape.Years`, `Scrape.GetOne`, `Extract.SeasonRun`, `Extract.DcatsRun` and so on.
- The properties of a run are proved as lemmas about those functions.
- Each run is also compared with a plan written independently of it: `Scrape.PlannedRequests` lists the requests a scraper run issues, and `Extract.ExtractPlan` lists, in order, the files the extractor writes.

The transform is pure and is modelled by functions.

## Model

| member | source | states |
|---|---|---|
| `Scrape.Cell` | scrape.py:148 | a row value is `str(v).strip()`: neither end is whitespace |
| `Scrape.Show` | scrape.py:148 | Python's `str()` of a row value: a string is itself, an integer is printed in decimal, `None` is `None`. It has no contract of its own; `ShowIntRoundTrip` and `Cell` state its properties |
| `Scrape.ShowIntRoundTrip` | scrape.py:134-148 | an integer value shown in a row reads back with `int()` as the same integer |
| `Scrape.RawValues` | scrape.py:133-146 | the row dictionary has exactly the 12 listed keys, one value each |
| `Scrape.Normalise` | scrape.py:148 | normalising keeps one value per key |
| `Scrape.NormaliseAt` | scrape.py:148 | each normalised value is that key's value passed through `str()` and stripped |
| `Scrape.MakeRow` | scrape.py:133-148 | a row has one value per key of the 12 |
| `Scrape.MakeRowStripped` | scrape.py:148 | every value of a row is stripped |
| `Scrape.MakeRowId` | scrape.py:134-148 | the `comp_id` column is the competition id in decimal |
| `Scrape.MakeRowAt` | scrape.py:133-148 | column `i` is the `i`-th raw value printed and stripped |
| `Scrape.UnknownIsNormal` | scrape.py:136 | the fallback location survives normalisation unchanged |
| `Scrape.MakeRowLocation` | scrape.py:136 | `location` is the listing's `host_nation`, or `UNKNOWN` when the listing has none |
| `Scrape.CategoryRows` | scrape.py:132-149 | a category gives one row per result, in result order |
| `Scrape.CompRowsAppend` | scrape.py:123-149 | the rows of consecutive category blocks are the concatenation of their rows |
| `Scrape.CompRowsOrder` | scrape.py:123-149 | one row per result, category by category; the row of result `ri` of category `ci` sits after all rows of earlier categories |
| `Scrape.LengthIsCount` | scrape.py:119-149 | the number of rows is the number of results |
| `Scrape.CompRows` | scrape.py:119-149 | the rows of a competition, category by category, each category's results in order. It has no contract of its own; `CompRowsOrder`, `CompRowsAppend` and `LengthIsCount` state its properties |
| `Scrape.CompFileName` | scrape.py:152 | `'{}_{}.csv'.format(comp_date, comp_id)`. It has no contract of its own; `CompFileNameParts` states its shape |
| `Scrape.CompFileNameParts` | scrape.py:152 | a results file name is the date and `_`, then the competition id (which reads back as the id), then `.csv` |
| `Scrape.GetOne` | scrape.py:105-161 | the detail request is appended whatever happens. On a non-200 answer nothing else changes. On success the results file and then the cursor file are written, and the cursor's `wet_id` becomes the competition id. A failure is a bad date or an empty result set |
| `Scrape.GetOneFiles` | scrape.py:118-161 | an unreadable date writes nothing. A competition with no results at all fails with `NoResults` and leaves an empty `<date>_<id>.csv`. Otherwise `<date>_<id>.csv` holds exactly the competition's rows, in category-then-result order, and is followed by the cursor file |
| `Scrape.Comps` | scrape.py:98-99 | the competition loop of one year, stopping at the first competition that raises. It has no contract of its own; `CompsRequests`, `CompsRequestsInOrder`, `CompsCursor`, `CompsCursorOnFailure` and `CompsFailure` state its properties |
| `Scrape.Years` | scrape.py:89-103 | the year loop from the given year to the current one. It has no contract of its own; the `Years…` lemmas state its properties |
| `Scrape.StartYear` | scrape.py:66-69 | incremental mode starts at `max(cursor.year, 2014)`: never before 2014, and at the cursor year when that is later |
| `Scrape.ScrapeSpec` | scrape.py:53-64 | `scrape` dispatches on the mode. It has no contract of its own; `FullIgnoresCursor`, `IncrementalResumesAtLastYear` and `SingleNeedsId` state its properties |
| `Scrape.YearsRequestedAppend` | scrape.py:89-91 | the years requested by consecutive request blocks concatenate |
| `Scrape.LastWrittenAppend` | scrape.py:98-160 | the last competition written over consecutive listings is found from the back |
| `Scrape.CompsRequests` | scrape.py:98-116 | a year's competitions only append to the request log, and no listing request. The cursor year is left alone. Only a bad date or an empty result set stops the loop. A completed loop requested every listed competition itself |
| `Scrape.CompsRequestsInOrder` | scrape.py:98-111 | a year's competitions issue exactly one detail request each, in listing order, stopping right after the first competition that raises; a completed loop issues all of them |
| `Scrape.CompsCursor` | scrape.py:113-161 | after a year's competitions, `wet_id` is the id of the last competition that answered 200; skipped competitions leave it alone |
| `Scrape.CompsCursorOnFailure` | scrape.py:98-161 | when a year's loop stops at its `n`-th competition, the error names that competition (a bad date or no results), and `wet_id` is the id of the last competition written among the `n - 1` before it |
| `Scrape.CompsFailure` | scrape.py:98-155 | a year's loop fails exactly when one of its competitions answers with an unreadable date or with no results at all |
| `Scrape.YearsRequests` | scrape.py:89-103 | a completed run requested exactly the years from the start year to the current year, in ascending order, and every one of them answered |
| `Scrape.YearsStopAtMissingYear` | scrape.py:89-94 | a failed listing request aborts at the first year, from the start year on, that does not answer |
| `Scrape.YearsRequestedBeforeFailure` | scrape.py:89-94 | up to that abort, the listing requests went to every year from the start year to the failing one, in order |
| `Scrape.YearsRangeStep` | scrape.py:89-103 | one year's step extends the range of years requested before a failure |
| `Scrape.YearsCursor` | scrape.py:89-103 | after a completed run, `cursor.year` is the current year (or unchanged when there was no year to do). `wet_id` is the last competition written over all the years. The last file written is the cursor |
| `Scrape.YearsFailWhen` | scrape.py:89-103 | a run fails exactly when some year from the start year to the current year has a listing that does not answer, or lists a competition that raises |
| `Scrape.YearsFailureCursor` | scrape.py:89-103 | a failed run stops at the first such year `k`; `cursor.year` is then `k - 1`, the last year finished, or unchanged when `k` is the start year |
| `Scrape.YearsRequestEveryListing` | scrape.py:66-99 | the `comp_id` passed by incremental mode is never used: a completed run itself requests every listed competition of every year, including those already written |
| `Scrape.YearsRequestsPlanned` | scrape.py:89-111 | a run issues a prefix of the planned requests (each year's listing, then one detail request per listed competition, year after year), and all of them when it completes |
| `Scrape.YearsRequestsGrow` | scrape.py:89-99 | a run only appends to the request log |
| `Scrape.CompsIgnoresCursor` | scrape.py:98-116 | a year's requests and outcome do not depend on the cursor or the files already written |
| `Scrape.YearsIgnoresCursor` | scrape.py:89-103 | nor do a whole run's |
| `Scrape.FullIgnoresCursor` | scrape.py:71-74 | full mode starts at 2014 and does the same whatever cursor is stored |
| `Scrape.IncrementalResumesAtLastYear` | scrape.py:66-103 | after a completed incremental run, the next one starts at the last year processed, which is scanned again |
| `Scrape.SingleNeedsId` | scrape.py:58-62 | SINGLE mode without an id fails with no request and no write |
| `Scrape.AppendCategoryRows` | scrape.py:132-149 | the result loop appends exactly the category's rows, in order |
| `Scrape.CollectRows` | scrape.py:119-149 | the category loop builds exactly the competition's rows |
| `Scrape.Scraper.constructor` | scrape.py:24-29 | a new scraper has the cursor `{0, 0}` and empty logs |
| `Scrape.Scraper.Setup` | scrape.py:31-51 | the cursor becomes the stored row when there is one; nothing else changes |
| `Scrape.Scraper.WriteCursor` | scrape.py:163-166 | the cursor file is written with the current cursor; nothing else changes |
| `Scrape.Scraper.GetOneResult` | scrape.py:105-161 | the method's outcome and new state are those of `GetOne` on the old state |
| `Scrape.Scraper.DumpResultsFrom` | scrape.py:76-103 | the year loop with the competition loop inside: outcome and new state are those of `Years` on the old state |
| `Scrape.Scraper.DumpIncrementalResults` | scrape.py:66-69 | runs the years from `StartYear(cursor)` |
| `Scrape.Scraper.DumpAllResults` | scrape.py:71-74 | runs the years from 2014 |
| `Scrape.Scraper.Scrape` | scrape.py:53-64 | dispatches on the mode as `ScrapeSpec` describes |
| `Scrape.CursorLine` | scrape.py:163-166 | the row `write_cursor` stores: both fields printed in decimal. It has no contract of its own; `LoadCursorRoundTrip` states its property |
| `Scrape.LoadCursor` | scrape.py:39-49 | the cursor read back with `int()` on both fields; no stored row keeps the default. It has no contract of its own; `LoadCursorRoundTrip` states its property |
| `Scrape.LoadedYearAsWritten` | scrape.py:39-45 | the cursor year as `setup` leaves it: the integer 0 without a stored row, the row's string otherwise. It has no contract of its own; `StoredCursorBreaksIncremental` states its property |
| `Scrape.LoadCursorRoundTrip` | scrape.py:40-44 | a cursor written by `write_cursor` and read back with `int()` on both fields is the same cursor |
| `Scrape.MaxWithMinYearAsWritten` | scrape.py:68 | `max(cursor['year'], 2014)` as written: defined exactly when the year is an integer, and then equal to `StartYear` |
| `Scrape.StoredCursorBreaksIncremental` | scrape.py:41-44 | as written, every stored cursor makes the next incremental run raise, while the default cursor starts at 2014 |
| `ScrapeCli.ParseOptions` | scrape.py:192-214 | the option loop ends in the state that `Run` gives from the defaults |
| `ScrapeCli.Step` | scrape.py:196-214 | one turn of the option loop. It has no contract of its own; `CompletedRun`, `ConflictExits`, `UnknownExits` and `ExitCodes` state its properties |
| `ScrapeCli.Run` | scrape.py:196-214 | the option loop over the whole list. It has no contract of its own; the same lemmas state its properties |
| `ScrapeCli.LastValue` | scrape.py:196-209 | the last argument of an option is defined exactly when the option was given |
| `ScrapeCli.CompletedRun` | scrape.py:192-214 | when the loop finishes without usage, every option was `-c`, `-f` or `-o`. The mode is SINGLE iff `-c` was given and FULL iff `-f` was given; with no option it is INCREMENTAL. The id is the last `-c` argument. The directory is the last `-o` argument, default `data` |
| `ScrapeCli.ConflictExits` | scrape.py:197-207 | `-c` and `-f` together, in either order, stop the loop |
| `ScrapeCli.UnknownExits` | scrape.py:210-214 | help or an unrecognised option stops the loop |
| `ScrapeCli.ExitCodes` | scrape.py:196-214 | usage exits with 0 only when help was given, and with 1 only for a `-c`/`-f` conflict or an unrecognised option |
| `ScrapeCli.Invocations` | scrape.py:192-214 | worked examples: defaults, `-c 1637`, `-f -o out`, `-c` then `-f`, help first |
| `Extract.SelectSeasons` | src/extract/extract.py:34-35 | seasons are kept iff their name is a year no earlier than the start year, in index order. Any name that is not an integer fails the run, and it is the only way to fail |
| `Extract.KeptSeasons` | src/extract/extract.py:34-35 | a season is kept iff it is in the index and its name is a year no earlier than the start year |
| `Extract.WorldCupLeagues` | src/extract/extract.py:46 | the leagues named `World Cups and World Championships` |
| `Extract.LeagueIdOfUrl` | src/extract/extract.py:45-46 | `int()` of the url's last `/`-segment, failing exactly when that segment is not an integer |
| `Extract.LeagueId` | src/extract/extract.py:45-46 | fails with `NoLeague` exactly when no league has the World Cup name; otherwise the outcome is `int()` of the last url segment of a league with that name (`BadLeagueUrl` when that segment is not an integer); `LeagueIdFromFirstMatch` pins it to the first such league |
| `Extract.LeagueIdFromFirstMatch` | src/extract/extract.py:45-46 | the league id comes from the first league with that name |
| `Extract.LeagueIdOfDigitUrl` | src/extract/extract.py:46 | a url ending in `/<digits>` gives those digits' value |
| `Extract.WorldCupEvents` | src/extract/extract.py:51-52 | an event is kept iff its `league_season_id` is the World Cup id |
| `Extract.SelectEvents` | src/extract/extract.py:51-56 | an event is kept iff its `league_season_id` is the World Cup id and one of its discipline kinds is requested |
| `Extract.SelectRounds` | src/extract/extract.py:74-75 | a round is kept iff its lower-cased name is `semi-final` or `final` and its status is `finished` |
| `Extract.WantedRoundExamples` | src/extract/extract.py:74-75 | `Final` and `Semi-Final` are kept, a qualification round is not, and the status is compared exactly |
| `Extract.MetadataJson` | src/extract/extract.py:78-87 | the attached metadata has exactly the keys season, loc, discipline, category and round, in that order |
| `Extract.Filename` | src/extract/extract.py:89 | `season_loc_discipline_category_round.json`. It has no contract of its own; `FilenameInjective` and `FilenameCollision` state its properties |
| `Extract.ResultOutput` | src/extract/extract.py:84-89 | a result is written iff its document has a string `round` |
| `Extract.ResultDocument` | src/extract/extract.py:86-91 | the file goes to the output directory under `season_loc_discipline_category_round.json`, with the round lower-cased. Its document is the result document with `metadata` set to the metadata plus the round; every other key is unchanged |
| `Extract.FilenameInjective` | src/extract/extract.py:89 | when no field contains `_`, the file name determines the metadata and the round |
| `Extract.FilenameCollision` | src/extract/extract.py:89 | with `_` inside a field, two different results get the same file name |
| `Extract.DcatMetadata` | src/extract/extract.py:72-79 | the metadata of a category's rounds, with the category name lower-cased. It has no contract of its own; `DcatWrites` states its property |
| `Extract.RoundsRun` | src/extract/extract.py:77-79 | the round loop of one category. It has no contract of its own; the `RoundsRun…` lemmas state its properties |
| `Extract.DcatsRun` | src/extract/extract.py:67-79 | the category loop of one event. It has no contract of its own; `DcatsRunWrites` and `DcatsRunFollows` state its properties |
| `Extract.EventsRun` | src/extract/extract.py:58-59 | the event loop of one season. It has no contract of its own; `EventsRunWrites` and `EventsRunFollows` state its properties |
| `Extract.SeasonRun` | src/extract/extract.py:40-59 | `__extract_season`. It has no contract of its own; `SeasonRunWrites` and `SeasonRunFollows` state its properties |
| `Extract.SeasonsRun` | src/extract/extract.py:37-38 | the season loop. It has no contract of its own; `SeasonsRunWrites` and `SeasonsRunFollows` state its properties |
| `Extract.ExtractRun` | src/extract/extract.py:27-38 | `extract`. It has no contract of its own; `ExtractRunWrites`, `ExtractRunFollows` and `ExtractRunBadSeason` state its properties |
| `Extract.AppendAllWrites` | src/extract/extract.py:77-79 | the outcomes are applied in order: each one before the first failure appends its file, the first failure stops the walk with its error, nothing else is written |
| `Extract.RoundsRunGrows` | src/extract/extract.py:77-79 | the files of a category's rounds are well formed and carry the category's metadata |
| `Extract.RoundsRunCount` | src/extract/extract.py:77-79 | each round appends at most one file; without an error, exactly one per round |
| `Extract.RoundsRunUrls` | src/extract/extract.py:74-79 | the files are written in round order, the `k`-th for the `k`-th selected round |
| `Extract.RoundsRunStops` | src/extract/extract.py:77-86 | the walk stops at the first result document without a string round, and every round before it has one |
| `Extract.DcatWrites` | src/extract/extract.py:72-79 | a requested category's files come from its selected rounds, with its metadata and its lower-cased category name |
| `Extract.DcatsRunWrites` | src/extract/extract.py:67-79 | every file of an event comes from a selected round of a category of a requested discipline; unrequested categories write nothing |
| `Extract.GrowsTransitive` | src/extract/extract.py:77-79 | appending well-formed files twice appends well-formed files |
| `Extract.EventsRunWrites` | src/extract/extract.py:58-59 | every file of a season's walk comes from one of the events walked |
| `Extract.SeasonRunWrites` | src/extract/extract.py:40-59 | every file of a season comes from one of its selected World Cup events |
| `Extract.SeasonsRunWrites` | src/extract/extract.py:37-38 | every file of the walk comes from one of the seasons walked |
| `Extract.ExtractRunWrites` | src/extract/extract.py:27-38 | `extract` appends only well-formed files, each from a kept season, a selected event, a requested category and a selected round |
| `Extract.RoundsRunFollows` | src/extract/extract.py:74-79 | the files of a category are those of a prefix of its selected rounds, one per round in round order, each with the round's url, the category's metadata and the round's lower-cased name; all of them when no result document stops the walk |
| `Extract.DcatsRunFollows` | src/extract/extract.py:67-79 | the files of an event are a prefix of the plan that lists every selected round of every requested category, category by category; all of it when nothing stops the walk |
| `Extract.EventsRunFollows` | src/extract/extract.py:58-59 | the same for a season's events, event after event |
| `Extract.SeasonRunFollows` | src/extract/extract.py:40-59 | the same for a season: the plan of its selected World Cup events, or nothing without a league id |
| `Extract.SeasonsRunFollows` | src/extract/extract.py:37-38 | the same for the seasons walked, season after season |
| `Extract.ExtractRunFollows` | src/extract/extract.py:27-79 | `extract` writes the files of a prefix of its plan (every selected round of every requested category of every selected event of every kept season, in that order), keeps what was written before, and writes all of them when no error stops it: no planned file is skipped, repeated or reordered |
| `Extract.ExtractRunBadSeason` | src/extract/extract.py:34-35 | a season name that is not an integer stops `extract` before anything is written |
| `Extract.SelectedDisciplines` | src/extract/extract.py:111-112 | without `-d` the disciplines are `['lead']`; they are always among the allowed choices |
| `Extract.DefaultExtractsLead` | src/extract/extract.py:111-114 | without `-d`, every file written is a lead result |
| `Extract.DefaultStartsAt2012` | src/extract/extract.py:107-114 | without `-y`, every file written comes from a season whose year is 2012 or later |
| `Extract.SelectedStartYear` | src/extract/extract.py:107 | `-y` defaults to 2012. It has no contract of its own; `DefaultStartsAt2012` states its property |
| `Extract.Extractor.constructor` | src/extract/extract.py:21-25 | the extractor keeps its options and has written nothing |
| `Extract.Extractor.Extract` | src/extract/extract.py:27-38 | the season loop does what `ExtractRun` describes |
| `Extract.Extractor.ExtractSeason` | src/extract/extract.py:40-59 | a season without the World Cup league stops with that error, otherwise its selected events are walked, as `SeasonRun` describes |
| `Extract.Extractor.ExtractEvents` | src/extract/extract.py:58-59 | the event loop does what `EventsRun` describes |
| `Extract.Extractor.ExtractEvent` | src/extract/extract.py:61-79 | the category and round loops do what `DcatsRun` describes |
| `Extract.Extractor.ExtractResult` | src/extract/extract.py:81-91 | one result appends the file `ResultOutput` builds, or stops with its error and writes nothing |
| `JsonToCsv.CommonCols` | src/transform/jsontocsv.py:15 | defined iff `event` is present and `metadata` is an object; the keys are `fullname` plus the metadata keys |
| `JsonToCsv.CommonColsValues` | src/transform/jsontocsv.py:15 | metadata values override `fullname` |
| `JsonToCsv.Entries` | src/transform/jsontocsv.py:18-19 | iterating the ranking succeeds exactly when it is a list of objects, or an empty object or string (which iterate nothing); a list gives its objects in order; a missing ranking is a `KeyError`, anything else a `BadRanking` error |
| `JsonToCsv.DropFlags` | src/transform/jsontocsv.py:18-19 | one entry per input entry, none with `flag_url` |
| `JsonToCsv.RowOf` | src/transform/jsontocsv.py:22 | a row exists iff the entry's score is present and a string |
| `JsonToCsv.StripPaddedScore` | src/transform/jsontocsv.py:22 | the score `" 90.0 "` is written as `"90.0"` |
| `JsonToCsv.RowValues` | src/transform/jsontocsv.py:22 | the trimmed score wins, then the entry's fields, then the common columns |
| `JsonToCsv.RowKeys` | src/transform/jsontocsv.py:22 | a row's keys are the common columns' and the entry's |
| `JsonToCsv.CommonColsUnique` | src/transform/jsontocsv.py:15 | the common columns never repeat a key |
| `JsonToCsv.RowUnique` | src/transform/jsontocsv.py:22-25 | nor does a row, so the header taken from the first row names each column once |
| `JsonToCsv.FlagUrlDropped` | src/transform/jsontocsv.py:18-22 | an entry's `flag_url` never reaches its row |
| `JsonToCsv.Rows` | src/transform/jsontocsv.py:22-23 | on success, one row per entry, in order, each that entry's `RowOf` |
| `JsonToCsv.RowsSucceed` | src/transform/jsontocsv.py:22-23 | the rows are built exactly when every entry has a string score |
| `JsonToCsv.CsvLine` | src/transform/jsontocsv.py:30-32 | a line has one cell per header key: the row's value, or empty when the row lacks the key |
| `JsonToCsv.WriteRows` | src/transform/jsontocsv.py:30-32 | rows are written in order until the first with a key outside the header, which raises; the earlier rows are already written |
| `JsonToCsv.Suffix` | src/transform/jsontocsv.py:26-27 | the suffix is empty, or a proper tail of the name that starts with a dot, holds no other dot and is more than the dot |
| `JsonToCsv.Stem` | src/transform/jsontocsv.py:26-27 | the stem followed by the suffix is the name |
| `JsonToCsv.StemAtLastDot` | src/transform/jsontocsv.py:26-27 | when the last dot neither leads nor ends the name, the stem is everything before it |
| `JsonToCsv.WithSuffix` | src/transform/jsontocsv.py:26-27 | `with_suffix` puts the new suffix after the stem |
| `JsonToCsv.OutName` | src/transform/jsontocsv.py:26-27 | the output name ends in `.csv` |
| `JsonToCsv.OutNameOfPlainBase` | src/transform/jsontocsv.py:26-27 | `base.json` becomes `base.csv` |
| `JsonToCsv.OutNameDropsDottedTail` | src/transform/jsontocsv.py:26-27 | `a.b.json` becomes `a.csv`: the dotted tail of the stem is lost |
| `JsonToCsv.Reshape` | src/transform/jsontocsv.py:14-23 | on success, one row per ranking entry, in order: the entry without `flag_url`, merged over the common columns, with its score trimmed |
| `JsonToCsv.ReshapeSucceeds` | src/transform/jsontocsv.py:14-23 | reshaping succeeds exactly when the document is an object, the common columns can be built, the ranking iterates as objects and every entry has a string score |
| `JsonToCsv.TransformFile` | src/transform/jsontocsv.py:7-32 | a file `OutName(name)` is created in the output directory exactly when reshaping succeeds with at least one row; the call raises nothing exactly when, moreover, every row fits the first row's keys; a reshaping error is the call's error, and an empty result is `EmptyRanking` |
| `JsonToCsv.TransformFileSuccess` | src/transform/jsontocsv.py:25-32 | the header is the key list of the first row, and there is one line per entry, in order |
| `JsonToCsv.EmptyRankingFails` | src/transform/jsontocsv.py:18-25 | an empty ranking list, object or string is an error and creates no file |
| `JsonToCsv.UntilError` | src/transform/jsontocsv.py:39-40 | the files of successive calls, stopping at the first call that raises |
| `JsonToCsv.TransformDir` | src/transform/jsontocsv.py:35-40 | `transform`: each `*.json` entry in listing order, until a file raises. It has no contract of its own; `TransformDirOutputs` states its property |
| `JsonToCsv.TransformDirOutputs` | src/transform/jsontocsv.py:39-40 | only `*.json` entries are transformed; a run without error writes one CSV per such entry, named after it, in listing order |
| `Text.Strip` | scrape.py:148 | `str.strip()`: neither end of the result is whitespace |
| `Text.StripIsSlice` | scrape.py:148 | what `strip()` removes is whitespace on either side of a slice |
| `Text.StripIdempotent` | src/transform/jsontocsv.py:22 | stripping twice is stripping once |
| `Text.Lower` | src/extract/extract.py:72 | ASCII lower-casing keeps the length and leaves no capital letters |
| `Text.IntToString` | scrape.py:148 | `str(i)` is non-empty and stripped |
| `Text.IntToStringRoundTrip` | scrape.py:41-44 | `int(str(i)) == i` |
| `Text.ParseInt` | src/extract/extract.py:34-35 | `int()` of a string: optional surrounding whitespace and sign, then ASCII digits. It has no contract of its own; `IntToStringRoundTrip` and `LeagueIdOfDigitUrl` state its properties |
| `Text.LastSegment` | src/extract/extract.py:46 | `split('/')[-1]` is the longest suffix without `/` |
| `Text.RFind` | src/transform/jsontocsv.py:26-27 | the position of the last occurrence of the character, or -1 when there is none |
| `Lists.Filter` | src/extract/extract.py:34-35 | a comprehension with `if` keeps exactly the elements that pass, and no more elements than it is given |
| `Lists.FilterConcat` | src/extract/extract.py:34-35 | filtering keeps order: what is kept from an earlier block comes before what is kept from a later one |
| `Lists.FilterHead` | src/extract/extract.py:46 | the first element kept is the first that passes |
| `Dicts.Get` | src/transform/jsontocsv.py:22 | lookup succeeds exactly for present keys |
| `Dicts.SetGet` | src/extract/extract.py:87 | assigning a key changes that key only |
| `Dicts.RemoveGet` | src/transform/jsontocsv.py:18 | dropping a key removes that key only |
| `Dicts.MergeGet` | src/transform/jsontocsv.py:22 | in `{**a, **b}`, `b` wins |
| `Dicts.Set` | src/extract/extract.py:87 | `d[k] = v`: the key order is unchanged when `k` is present, otherwise `k` is appended |
| `Dicts.Remove` | src/transform/jsontocsv.py:18 | the comprehension without `k` keeps every other key, in order |
| `Dicts.Merge` | src/transform/jsontocsv.py:22 | `{**a, **b}`: `a`'s keys come first in their order, and the keys are exactly those of `a` or `b` |

## Left out

- HTTP is left out: `requests.get`, `raise_for_status`, timeouts and the headers read from `.env`. Responses are values: the scraper's `Api`, and the documents carried by the extractor's references. A transport failure is not modelled; a failing year listing is a missing key.
- File I/O is left out: directory creation, opening, CSV and JSON encoding. Writes are entries in a log (`Scrape.Write`, `Extract.Written`, `JsonToCsv.CsvFile`). The cursor file is read as an optional row of two strings.
- `dateutil` is left out: a competition date is an opaque string, or `None` when parsing raises. `datetime.date.today()` is the parameter `today`.
- The per-category request `r2` in `_get_one_result` is left out; its answer is never used.
- `getopt` and `argparse` themselves are left out, along with usage text, printing and `os.path.abspath`. The option loop sees the parsed list. That list is taken as already validated: in the program `getopt` rejects an unknown option, or `-c` without an argument, with exit status 1 before the loop runs, so the loop's own `Unrecognized option` branch is never reached (the model lets it exit with 1, and lets `-h` before an unknown option exit with 0).
- `Scrape.Scrape` takes the competition id as an integer, while the command line passes the `-c` string through unconverted.
- Scraping a single competition passes no listing metadata, so its location is `UNKNOWN`.
- The `Invalid scrape type` branch of `scrape` is left out; the enumeration makes it unreachable.
- `Text.Lower` maps ASCII letters only, so non-ASCII names in file names lower-case differently.
- `Text.ParseInt` accepts surrounding whitespace, a sign and ASCII digits. Underscores and non-ASCII digits accepted by `int()` are not modelled.
- A decoded object is a list of key-value pairs and may repeat a key, which `json.loads` never produces (it keeps the last value, while `Dicts.Get` finds the first). The lemmas that read values out of an entry require `UniqueKeys`, which every decoded document has.
- JSON floats are left out: numbers are integers, which the transform never inspects. Decoding failures of `json.loads` are left out.
- `Path.glob` order is the order of the given listing.
- A response missing a key the source indexes is not modelled, except where an error case is listed. For example, `categorys`, `competitions`, `dcats` or `url` raise `KeyError` in the source, but the datatypes always have them.
- `Extract.SelectEvents` reads an event's discipline kinds as a list of strings, not as the objects holding them.
- `Extract.ResultOutput` does not model `.lower()` on non-ASCII round names.

## Findings

| source | as written | input that shows it | evidently intended | confidence | as-written member | corrected member |
|---|---|---|---|---|---|---|
| scrape.py:41-44 and 68 | `setup` stores the row that `csv.DictReader` returns, whose values are strings, and `_dump_incremental_results` then evaluates `max(cursor['year'], 2014)`, which raises `TypeError` in Python 3 | any cursor already written, e.g. year 2023 and wet_id 7935 stored as the row `2023,7935` | read both fields back as integers, so incremental mode resumes at the stored year | high; not executed | `Scrape.StoredCursorBreaksIncremental` (with `Scrape.MaxWithMinYearAsWritten`) | `Scrape.LoadCursorRoundTrip` (with `Scrape.Scraper.Setup` and `Scrape.StartYear`) |
