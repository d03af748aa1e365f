# zeitsprung crawl pipeline in Dafny

A model of the incremental crawler of the *zeitsprung* podcast archive.

- The `Scraper` binds to a SQLite file `<data>/zeitsprung.db`. It creates the schema when the file is new or a reset is asked for. It then takes its cursor `current_episode` from the largest stored episode uid.
- `run` loops forever:
  - It requests the page of episode `cursor + 1`.
  - When the page is not (yet) there, it sleeps and tries again.
  - When the page is there, it extracts the episode's meta data and inserts the `meta` row. It then downloads the audio, when the page links to any, and inserts the `audio` row. Finally it advances the cursor by one.
- `SQLiteEngine` owns the two tables `meta` and `audio`, both keyed by the integer primary key `uid`.

## Layout

| file | module | contents |
|---|---|---|
| `wrappers.dfy` | `Wrappers` | `Option`, `Result` |
| `text.dfy` | `Text` | the Python string behaviour the code relies on: `str(int)`, `str.zfill`, `str.strip`, `str.split` on one character, slicing `[1:]`, `replace("'", "")` |
| `database.dfy` | `Database` | the rows, the tables, and the `SQLiteEngine` class; tables are `map<int, _>` fields that the insert methods reassign |
| `extraction.dfy` | `Extraction` | the episode URL, `search_key`, the title split, `get_episode_meta` on an already parsed page, the `None` branch of `get_episode_audio`, the audio file name |
| `crawl.dfy` | `Crawl` | the loop body as pure functions on a value state, plus the `Scraper` class, whose methods are proved to do exactly what those functions say |

### How the crawl is modelled

- **The outside world is a `World`.**
  - `fetch(t, url)` is the HTTP status and the parsed page served for `url` on attempt `t`.
  - `download(t)(url)` is what downloading, decoding and exporting the audio yields on attempt `t`.
  - Sleeping is moving on to attempt `t + 1`.
- **One loop iteration, as pure functions:**
  - `Commit` inserts the meta row, then the audio row, then advances the cursor.
  - `StepOn` is one iteration given what `get_episode_meta` returned.
  - `Step` is one iteration against the world.
  - `Runs` is `n` iterations that stop at the first exception.
- **The class methods are proved against those functions:**
  - `Scraper.RunStep` ensures `(r, State()) == Step(old(State()), …)`.
  - `Scraper.CommitStep` is proved the same way against `Commit`.
  - `Scraper.Run` ensures `(e, State()) == Runs(old(State()), …)`.
  - What the source promises is stated as lemmas about `Step`, `StepOn`, `Commit` and `Runs`.
- **Invariants:**
  - `Inv`: the cursor is the largest meta uid, or 0 while `meta` is empty.
  - `AudioWithinMeta`: every audio row has its meta row.
  - `Dense`: the committed episodes are exactly 1 to the cursor.

### Behaviour of the code worth knowing

- **Title with a second ':'.** The stored title is the segment between the first and the second ':' of the stripped `<title>`, minus its first character (`title[1][1:]` after `split(":")`). A page title `"ZS12: A: B"` stores the title `"A"`.
- **Missing audio URL.** Python formats `None` into the INSERT statement, so `url_audio` holds the text `"None"` (`Database.MissingUrlStoredAsNone`).
- **Row order of the queries.** `SELECT *` has no `ORDER BY`, so SQLite promises no order; `PRAGMA reverse_unordered_selects`, for one, reverses it. A plain scan of a table whose `INTEGER PRIMARY KEY` is the rowid yields ascending uids in practice, and the model fixes that order: `QueryAllMeta` and `QueryAllAudio` return the rows in ascending uid order.

## Model

| member | source | states |
|---|---|---|
| Text.NatStr | zeitsprung/scraping.py:88 | `str(n)` for n >= 0 is a non-empty digit string without a leading zero (unless it is "0"); NatStrValue and NatStrLength characterise it further |
| Text.Str | zeitsprung/scraping.py:88 | definition of `str(i)`: '-' before the digits of -i for negative i, the digits of i otherwise; for the uids the crawler uses (i >= 1) NatStrValue, NatStrLength and ZFillNatStr state what it yields |
| Text.ZFill | zeitsprung/scraping.py:176 | `s.zfill(w)` has length max(w, length of s); it is s when s is at least w long; otherwise the zeros go before s, or after a leading sign; ZFillNatStr states what it yields on `str(n)` |
| Text.NatStrValue | zeitsprung/scraping.py:88 | the decimal text `str(n)` produces reads back as n |
| Text.NatStrLength | zeitsprung/scraping.py:88 | `str(n)` has one digit below 10, two below 100, three below 1000, at least three from 100 |
| Text.ZFillNatStr | zeitsprung/scraping.py:176 | `str(n).zfill(w)` is all digits, still denotes n, and has length max(w, length of `str(n)`) |
| Text.Strip | zeitsprung/scraping.py:94 | the stripped text neither starts nor ends with whitespace |
| Text.StripRemovesSurroundingSpace | zeitsprung/scraping.py:94 | the stripped text is the slice s[i..j] of the input, with only whitespace before i and from j on: strip removes the surrounding whitespace and keeps the middle unchanged |
| Text.StripTrimmed | zeitsprung/scraping.py:94 | stripping text without surrounding whitespace leaves it unchanged |
| Text.Split | zeitsprung/scraping.py:94 | `split(sep)` always yields at least one piece; SplitJoin, SplitFirst and SplitPiecesFree characterise the pieces |
| Text.SplitJoin | zeitsprung/scraping.py:94 | `split(sep)` loses nothing: joining the pieces with sep gives the text back |
| Text.SplitFirst | zeitsprung/scraping.py:94 | the first piece is the text before the first sep; the other pieces are the split of the text after it; without sep there is a single piece |
| Text.SplitPiecesFree | zeitsprung/scraping.py:94 | no piece contains the separator |
| Text.DropFirst | zeitsprung/scraping.py:100 | `s[1:]` is s without its first character, and the empty text for the empty text (no error) |
| Text.StripQuotes | zeitsprung/database.py:58-59 | after `replace("'", "")` the text contains no single quote |
| Text.StripQuotesKeepsOthers | zeitsprung/database.py:58-59 | quote removal shortens the text by exactly its number of quotes and keeps every other character as often as it occurred |
| Text.StripQuotesQuoteFree | zeitsprung/database.py:58-59 | text without quotes passes through unchanged |
| Text.StripQuotesAppend | zeitsprung/database.py:58-59 | quote removal distributes over concatenation and deletes a single quote while keeping any other character, so the kept characters stay in their order |
| Text.StripQuotesIdempotent | zeitsprung/database.py:58-59 | removing quotes twice is removing them once |
| Database.OptionalText | zeitsprung/database.py:59 | the written text is "None" exactly when the URL is missing or is itself the text "None"; any other URL is written unchanged |
| Database.Normalize | zeitsprung/database.py:58-59 | NFKD followed by quote removal yields quote-free text |
| Database.MetaRecordOf | zeitsprung/database.py:56-60 | the stored meta record keeps the uid, has quote-free title and description, and holds the URL text or "None" |
| Database.MetaRoundTrip | zeitsprung/database.py:56-60 | reading a stored record back gives the row again when its free text is already normalised and its URL is not the text "None" |
| Database.MissingUrlStoredAsNone | zeitsprung/database.py:59 | a missing audio URL and the URL text "None" produce the same stored record, whose url_audio is "None" |
| Database.MaxKey | zeitsprung/database.py:78 | the result is a member of the non-empty uid set and at least every member |
| Database.AscendingKeys | zeitsprung/database.py:86 | the uids come out strictly ascending, each stored uid exactly once and nothing else |
| Database.SQLiteEngine.constructor | zeitsprung/database.py:9-12 | the engine binds to the file and sees what the file holds (no tables, or the stored tables) |
| Database.SQLiteEngine.SetupSchema | zeitsprung/database.py:22-50 | afterwards both tables exist and are empty, whatever they held before |
| Database.SQLiteEngine.InsertMetaRow | zeitsprung/database.py:52-62 | without tables, or on a uid already stored, it fails and changes nothing; otherwise it adds exactly the normalised record under the row's uid; `audio` is untouched |
| Database.SQLiteEngine.InsertAudioRow | zeitsprung/database.py:64-73 | the same for `audio`: fails without tables or on a stored uid, otherwise adds exactly this row; `meta` is untouched |
| Database.SQLiteEngine.QueryLastEpisodeId | zeitsprung/database.py:75-80 | 0 for an empty `meta`, otherwise a stored uid at least every stored uid; fails only without tables |
| Database.SQLiteEngine.QueryAllMeta | zeitsprung/database.py:82-94 | every stored meta row exactly once, equal to the stored record, in ascending uid order; fails only without tables |
| Database.SQLiteEngine.QueryAllAudio | zeitsprung/database.py:96-105 | every stored audio row exactly once, equal to the stored record, in ascending uid order; fails only without tables |
| Extraction.EpisodeNumber | zeitsprung/scraping.py:88 | definition of the URL number `'0'+str(i) if i < 10 else str(i)`; EpisodeNumberForm and EpisodeNumberValue state its form and value |
| Extraction.EpisodeUrl | zeitsprung/scraping.py:88 | definition of the page URL `https://www.zeitsprung.fm/podcast/zs<number>/`; EpisodeUrlInjective states that distinct episodes get distinct URLs |
| Extraction.EpisodeNumberForm | zeitsprung/scraping.py:88 | for i >= 1 the URL number is '0' plus the digit below 10 and `str(i)` from 10 on; it has two characters exactly when i < 100 |
| Extraction.EpisodeNumberValue | zeitsprung/scraping.py:88 | the URL number reads back as i |
| Extraction.EpisodeUrlInjective | zeitsprung/scraping.py:88 | different episodes are requested from different URLs |
| Extraction.FirstValue | zeitsprung/scraping.py:110-113 | specification of `search_key`: the value of the first entry holding the key, or None; FirstValueIsFirst characterises it, and Extraction.SearchKey is proved against it |
| Extraction.FirstValueIsFirst | zeitsprung/scraping.py:109-113 | the key search finds nothing exactly when no entry has the key; otherwise it returns the value of the lowest-index entry that has it |
| Extraction.SearchKey | zeitsprung/scraping.py:109-113 | the early-return loop returns what the first-match search specifies |
| Extraction.ParseTitle | zeitsprung/scraping.py:94-100 | definition of the title split on the stripped `<title>`: fewer than two pieces is an error, otherwise the first piece and the second minus its first character; ParseTitleByIndex and ParseTitleColonFree characterise it |
| Extraction.ParseTitleByIndex | zeitsprung/scraping.py:94-100 | with k the first ':' of the stripped title: no ':' is an error; otherwise the abbreviation is the text before k, and the title is the text from k+1 up to the next ':' minus its first character |
| Extraction.ParseTitleColonFree | zeitsprung/scraping.py:94-100 | neither the abbreviation nor the title contains ':' |
| Extraction.GetEpisodeMeta | zeitsprung/scraping.py:72-107 | None exactly when the status is not 200; an extracted row carries uid i, and lacks an audio URL exactly when the page has no download list |
| Extraction.GetEpisodeMetaFields | zeitsprung/scraping.py:91-105 | an extracted row takes its dates from the first graph entries that have them, abbreviation and title from the title split, description and episode URL from the og tags, and the audio URL from the first download link |
| Extraction.GetEpisodeMetaFails | zeitsprung/scraping.py:92-105 | on a 200 page, extraction raises exactly when the title, either date, a ':' in the title, the description or the og:url is missing or the download list has no link; otherwise it yields a row |
| Extraction.GetEpisodeAudio | zeitsprung/scraping.py:115-137 | no audio exactly when the URL is None; otherwise the download of that URL |
| Extraction.AudioFileName | zeitsprung/scraping.py:176 | definition of the file name `str(uid).zfill(3) + ".wav"`; AudioFileNameForm and FirstAudioFileName state its form |
| Extraction.AudioPath | zeitsprung/scraping.py:176 | definition of the audio path `<data>/audio/<file name>`; AudioPathInjective and AudioPathQuoteFree state its properties |
| Extraction.AudioFileNameForm | zeitsprung/scraping.py:176 | the file name is the uid's digits zero-padded to at least three, which still read as the uid, then ".wav" |
| Extraction.FirstAudioFileName | zeitsprung/scraping.py:176 | episode 1 is stored as "001.wav" |
| Extraction.AudioPathInjective | zeitsprung/scraping.py:176 | two episodes never share an audio file |
| Extraction.AudioPathQuoteFree | zeitsprung/scraping.py:176 | the audio path has no quote when the data folder has none, so the audio INSERT stays well-formed |
| Crawl.ExtractedRowSqlSafe | zeitsprung/database.py:56-60 | a row extracted from a page whose raw fields are quote-free has quote-free abbreviation and URLs |
| Crawl.BootTables | zeitsprung/scraping.py:42-55 | when the file is absent or reset is asked for, the store is empty; when the file exists and no reset is asked for, it is what the file held |
| Crawl.SetupCalled | zeitsprung/scraping.py:42-55 | definition of whether `__init__` calls setup_schema, branch by branch; SetupCalledExactly characterises it |
| Crawl.SetupCalledExactly | zeitsprung/scraping.py:42-55 | setup_schema runs exactly when the file is absent or reset is asked for |
| Crawl.Commit | zeitsprung/scraping.py:171-183 | specification of the insert, download and advance part of an iteration; CommitKeepsInvariant and the Step lemmas state its effect, and Crawl.Scraper.CommitStep is proved against it |
| Crawl.StepOn | zeitsprung/scraping.py:168-186 | specification of one iteration given what get_episode_meta returned; StepAdvances, StepFails, StepKeepsInvariant, StepNeverDuplicates and AudioFailureCommitsMetaOnly state its effect |
| Crawl.Step | zeitsprung/scraping.py:168-186 | specification of one iteration against the world; StepWaits and ExtractedRowFor state its effect, and Crawl.Scraper.RunStep is proved against it |
| Crawl.CommitKeepsInvariant | zeitsprung/scraping.py:171-183 | committing episode cursor+1 keeps every row under its own uid, and after a commit that does not fail the cursor is again the largest meta uid |
| Crawl.ExtractedRowFor | zeitsprung/scraping.py:169 | the row extracted for the loop carries uid cursor+1 |
| Crawl.StepWaits | zeitsprung/scraping.py:184-186 | an iteration waits exactly when the page status is not 200, and a wait changes neither tables nor cursor |
| Crawl.StepAdvances | zeitsprung/scraping.py:169-183 | an advancing iteration adds the meta row of episode cursor+1 and adds the audio row under the same uid and path `audio/<zfill(3)>.wav` exactly when the page had an audio URL; the cursor moves by exactly one |
| Crawl.StepFails | zeitsprung/scraping.py:169-183 | a failing iteration leaves the cursor and `audio` unchanged, never removes or rewrites a meta row, and adds at most the meta row of episode cursor+1 |
| Crawl.StepKeepsInvariant | zeitsprung/scraping.py:168-183 | every row stays under its own uid; after an iteration that does not fail, the cursor is the largest meta uid (or 0) |
| Crawl.StepNeverDuplicates | zeitsprung/scraping.py:171-182 | under the invariant an iteration never fails on a duplicate key, and audio rows keep their meta rows |
| Crawl.AudioFailureCommitsMetaOnly | zeitsprung/scraping.py:171-172 | when the audio step raises, the meta row of episode cursor+1 stays committed with no audio row; it is then the largest stored uid while the cursor in memory has not moved |
| Crawl.FirstEpisodeWithAudio | zeitsprung/scraping.py:174-183 | on an empty store, episode 1 with decodable audio yields one meta row, one audio row at `<data>/audio/001.wav`, and cursor 1 |
| Crawl.Runs | zeitsprung/scraping.py:168-186 | specification of n iterations that stop at the first exception; RunsKeepInvariant and RunsStayDense state its effect, and Crawl.Scraper.Run is proved against it |
| Crawl.RunsKeepInvariant | zeitsprung/scraping.py:168-186 | over any run, audio rows keep their meta rows, no duplicate-key error occurs, and a run without error ends with the cursor equal to the largest meta uid |
| Crawl.DenseIsLast | zeitsprung/database.py:75-80 | when episodes 1..cursor are exactly the stored ones, max(uid) (or 0) is the cursor |
| Crawl.StepKeepsDense | zeitsprung/scraping.py:169-183 | an iteration that does not fail keeps the stored episodes exactly 1..cursor |
| Crawl.RunsStayDense | zeitsprung/scraping.py:168-186 | a run without error that starts with episodes 1..cursor stored ends with episodes 1..cursor stored, so a restart resumes where the run stopped |
| Crawl.Scraper.Create | zeitsprung/scraping.py:17-57 | binds to `<data>/zeitsprung.db` and sets up the schema in the absent-or-reset branches; then takes the cursor from query_last_episode_id, so the invariant holds; fails when bound to a file without tables |
| Crawl.Scraper.RunStep | zeitsprung/scraping.py:168-186 | one loop iteration does exactly what Step specifies to the engine's tables and the cursor; it needs only an engine with tables, so it may be called again after an iteration raised, and it keeps the invariant when it held before and the iteration does not raise |
| Crawl.Scraper.CommitStep | zeitsprung/scraping.py:171-183 | the insert, download and advance part does exactly what Commit specifies |
| Crawl.Scraper.Run | zeitsprung/scraping.py:158-186 | n loop iterations do exactly what Runs specifies; `run` may be started again after it raised, and the invariant holds at the end when it held at the start and no iteration raised |

## Left out

- HTTP (`requests.get`) is not modelled. The page and the audio download are the `World` parameter.
- BeautifulSoup parsing and `json.loads` of the structured-data script are not modelled. The `Page` holds the parsed fields. A missing `<script>` or malformed JSON is not modelled, and neither is a tag present without its `content` or `href` attribute.
- `datetime.fromisoformat` and the pandas frames are not modelled. Timestamps are the page's text, so a malformed date is not an error in the model.
- pydub decoding and export, and `round(duration_seconds)`, are not modelled. A download is either `Decoded` with integer properties or `AudioFailed`.
- `time.sleep`, `mkdir`, `created_at`, `__str__` and the `verbose` logging have no modelled effect.
- Unicode NFKD normalisation is an engine constant `nfkd: string -> string`. Only the quote removal after it is modelled.
- `str.strip` is modelled on ASCII whitespace only; Unicode spaces are not stripped.
- SQL text, connections and escaping are not modelled.
  - The inserts require the fields they interpolate raw to be free of single quotes (`SqlSafe`, `AudioSqlSafe`).
  - A quote in those fields would break the statement.
- Crawl.Scraper.Run: models the first n iterations of `while True`, not the unbounded loop.
- Crawl.Scraper.Create: joins paths as `<data> + "/zeitsprung.db"`; `pathlib` normalisation is not modelled.
- Extraction.AudioPath: joins `<data> + "/audio/" + name` without `pathlib` normalisation. For a data folder with a trailing '/', such as "data/", the source stores "data/audio/001.wav" while the model stores "data//audio/001.wav". Crawl.FirstEpisodeWithAudio states the model's path, so it differs from the source's for such folders.
- A transport error raised by `requests.get` (zeitsprung/scraping.py:90, 132) is not modelled. `World.fetch` always yields a response, so the model has no iteration that ends `run` on a network failure before extraction. A failed audio download is modelled, as `AudioFailed`.
- The KeyError that `script_content['@graph']` raises when the structured data has no `@graph` (zeitsprung/scraping.py:97) is not modelled. The `Page` always carries a graph, possibly empty.
- `uid` is an unbounded integer. SQLite's 64-bit limit on `INTEGER PRIMARY KEY` is not modelled.
- One `hasSchema` flag stands for both tables. A file that holds only `meta` or only `audio` cannot be represented, nor can the errors a query on the missing one would raise.
- Crawl.Scraper.CommitStep: states the invariant only for a state that had it before the call.
- Database.SQLiteEngine.QueryAllMeta: returns the rows in ascending uid order, an order SQLite does not promise for a `SELECT` without `ORDER BY`; the same holds for Database.SQLiteEngine.QueryAllAudio.
