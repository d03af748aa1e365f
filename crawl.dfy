/**
 * The crawl loop of zeitsprung/scraping.py: the Scraper's bootstrap and the
 * body of its `while True` loop. The network is a World: what the site
 * serves for a URL on attempt t, and what downloading, decoding and
 * exporting an audio URL yields on attempt t. Sleeping is moving on to the
 * next attempt.
 *
 * Step and Runs say what one iteration and a run of iterations do to a
 * value state; the Scraper class is proved to do exactly that to its
 * engine, and the lemmas say what follows for the cursor and the tables.
 */
module Crawl {
  import opened Wrappers
  import opened Text
  import opened Database
  import opened Extraction

  /** The properties the crawler keeps from a decoded audio file (duration already rounded). */
  datatype AudioProps = AudioProps(durationSeconds: int, frameRate: int, frameWidth: int)

  /** Downloading, decoding and exporting one audio file: its properties, or a failure. */
  datatype AudioFetch = Decoded(props: AudioProps) | AudioFailed

  datatype World = World(fetch: (nat, string) -> Response, download: nat -> string -> AudioFetch)

  /** The exception that ends the loop. */
  datatype CrawlError =
    | PageError(extract: ExtractError)
    | StoreError(db: DbError)
    | AudioError

  datatype StepResult = Advanced | Waited | Failed(error: CrawlError)

  /** The committed tables and the in-memory cursor (current_episode). */
  datatype CrawlState = CrawlState(tables: Tables, cursor: int)

  /** The state of a database file before the Scraper binds to it. */
  datatype DbFile = Absent | Present(stored: Option<Tables>)

  // ---------------------------------------------------------------------
  // Invariants
  // ---------------------------------------------------------------------

  /** The cursor is the largest committed meta uid, or 0 while there is none. */
  ghost predicate Inv(s: CrawlState) {
    Keyed(s.tables) && IsLastId(s.tables.meta.Keys, s.cursor)
  }

  /** Every audio row belongs to a meta row (meta is always written first). */
  ghost predicate AudioWithinMeta(s: CrawlState) {
    s.tables.audio.Keys <= s.tables.meta.Keys
  }

  /** The committed episodes are exactly 1 to the cursor. */
  ghost predicate Dense(s: CrawlState) {
    s.cursor >= 0 && forall k :: k in s.tables.meta <==> 1 <= k <= s.cursor
  }

  /** The page yields no quote in a field the INSERT statement interpolates raw. */
  ghost predicate PageSqlSafe(p: Page) {
    && (p.title.Some? ==> QuoteFree(UpTo(Strip(p.title.value), ':')))
    && (p.ogUrl.Some? ==> QuoteFree(p.ogUrl.value))
    && (p.downloadList.Some? && |p.downloadList.value| > 0 ==> QuoteFree(p.downloadList.value[0]))
  }

  ghost predicate WorldSqlSafe(w: World) {
    forall t: nat, u: string :: PageSqlSafe(w.fetch(t, u).page)
  }

  lemma ExtractedRowSqlSafe(i: int, resp: Response)
    requires PageSqlSafe(resp.page)
    requires GetEpisodeMeta(i, resp).Ok? && GetEpisodeMeta(i, resp).value.Some?
    ensures SqlSafe(GetEpisodeMeta(i, resp).value.value)
  {
    GetEpisodeMetaFields(i, resp);
    ParseTitleByIndex(resp.page.title.value);
  }

  // ---------------------------------------------------------------------
  // Bootstrap
  // ---------------------------------------------------------------------

  /** Whether the constructor calls setup_schema: the three branches of __init__. */
  function SetupCalled(file: DbFile, reset: bool): bool
  {
    if file.Present? && reset then true
    else if file.Present? && !reset then false
    else true
  }

  /** The tables the Scraper's engine holds once the constructor's branch has run. */
  function BootTables(file: DbFile, reset: bool): (t: Option<Tables>)
    ensures file.Absent? || reset ==> t == Some(EmptyTables)
    ensures file.Present? && !reset ==> t == file.stored
  {
    if SetupCalled(file, reset) then Some(EmptyTables) else file.stored
  }

  /** setup_schema runs exactly when there is no file yet or a reset was asked for. */
  lemma SetupCalledExactly(file: DbFile, reset: bool)
    ensures SetupCalled(file, reset) <==> file.Absent? || reset
    ensures !SetupCalled(file, reset) ==> BootTables(file, reset) == file.stored
  {
  }

  // ---------------------------------------------------------------------
  // One iteration of the loop
  // ---------------------------------------------------------------------

  /**
   * The part of an iteration after the page was found: insert the meta row,
   * then, when there is audio, the audio row, then advance the cursor.
   * `audio` is what get_episode_audio returned.
   */
  function Commit(s: CrawlState, row: MetaRow, audio: Option<AudioFetch>, dataFolder: string, nfkd: string -> string)
    : (StepResult, CrawlState)
  {
    var i := s.cursor + 1;
    if row.uid in s.tables.meta then (Failed(StoreError(DuplicateKey(row.uid))), s)
    else
      var withMeta := s.tables.(meta := s.tables.meta[row.uid := MetaRecordOf(row, nfkd)]);
      match audio
      case None => (Advanced, CrawlState(withMeta, i))
      case Some(AudioFailed) => (Failed(AudioError), CrawlState(withMeta, s.cursor))
      case Some(Decoded(p)) =>
        var audioRow := AudioRecord(i, AudioPath(dataFolder, i), p.durationSeconds, p.frameRate, p.frameWidth);
        if i in withMeta.audio then (Failed(StoreError(DuplicateKey(i))), CrawlState(withMeta, s.cursor))
        else (Advanced, CrawlState(withMeta.(audio := withMeta.audio[i := audioRow]), i))
  }

  /** Committing episode cursor+1 keeps the tables keyed and, when it does not fail, the cursor the last id. */
  lemma CommitKeepsInvariant(s: CrawlState, row: MetaRow, audio: Option<AudioFetch>, dataFolder: string, nfkd: string -> string)
    requires Inv(s) && row.uid == s.cursor + 1
    ensures Keyed(Commit(s, row, audio, dataFolder, nfkd).1.tables)
    ensures !Commit(s, row, audio, dataFolder, nfkd).0.Failed? ==> Inv(Commit(s, row, audio, dataFolder, nfkd).1)
  {
  }

  /**
   * One pass through the body of `run`'s loop, given what get_episode_meta
   * returned for episode cursor+1 and how audio URLs download on this attempt.
   */
  function StepOn(s: CrawlState, m: Result<Option<MetaRow>, ExtractError>, download: string -> AudioFetch,
                  dataFolder: string, nfkd: string -> string): (StepResult, CrawlState)
  {
    match m
    case Err(e) => (Failed(PageError(e)), s)
    case Ok(None) => (Waited, s)
    case Ok(Some(row)) => Commit(s, row, GetEpisodeAudio(row.urlAudio, download), dataFolder, nfkd)
  }

  /** One pass through the body of `run`'s loop on attempt t. */
  function Step(s: CrawlState, w: World, t: nat, dataFolder: string, nfkd: string -> string): (StepResult, CrawlState)
  {
    var i := s.cursor + 1;
    StepOn(s, GetEpisodeMeta(i, w.fetch(t, EpisodeUrl(i))), w.download(t), dataFolder, nfkd)
  }

  /** What get_episode_meta promises about the row it extracts for episode cursor+1. */
  ghost predicate RowFor(s: CrawlState, m: Result<Option<MetaRow>, ExtractError>) {
    m.Ok? && m.value.Some? ==> m.value.value.uid == s.cursor + 1
  }

  lemma ExtractedRowFor(s: CrawlState, w: World, t: nat)
    ensures RowFor(s, GetEpisodeMeta(s.cursor + 1, w.fetch(t, EpisodeUrl(s.cursor + 1))))
  {
  }

  /** "Not yet published": any status but 200 is a wait, and a wait changes nothing. */
  lemma StepWaits(s: CrawlState, w: World, t: nat, dataFolder: string, nfkd: string -> string)
    ensures var r := Step(s, w, t, dataFolder, nfkd);
            && (r.0 == Waited <==> w.fetch(t, EpisodeUrl(s.cursor + 1)).status != 200)
            && (r.0 == Waited ==> r.1 == s)
  {
  }

  /**
   * A step that advances commits the meta row of episode cursor+1, the audio
   * row under the same uid exactly when the page had an audio URL, and moves
   * the cursor by exactly one.
   */
  lemma StepAdvances(s: CrawlState, m: Result<Option<MetaRow>, ExtractError>, download: string -> AudioFetch,
                     dataFolder: string, nfkd: string -> string)
    requires RowFor(s, m)
    requires StepOn(s, m, download, dataFolder, nfkd).0 == Advanced
    ensures var i := s.cursor + 1;
            var s' := StepOn(s, m, download, dataFolder, nfkd).1;
            && m.Ok? && m.value.Some?
            && s'.cursor == i
            && i !in s.tables.meta
            && s'.tables.meta == s.tables.meta[i := MetaRecordOf(m.value.value, nfkd)]
            && (m.value.value.urlAudio.None? ==> s'.tables.audio == s.tables.audio)
            && (m.value.value.urlAudio.Some? ==>
                  var d := download(m.value.value.urlAudio.value);
                  && d.Decoded?
                  && i !in s.tables.audio
                  && s'.tables.audio == s.tables.audio[i := AudioRecord(i, AudioPath(dataFolder, i), d.props.durationSeconds,
                                                                        d.props.frameRate, d.props.frameWidth)])
  {
  }

  /** A failing step never moves the cursor and never removes or rewrites a row. */
  lemma StepFails(s: CrawlState, m: Result<Option<MetaRow>, ExtractError>, download: string -> AudioFetch,
                  dataFolder: string, nfkd: string -> string)
    requires RowFor(s, m)
    requires StepOn(s, m, download, dataFolder, nfkd).0.Failed?
    ensures var s' := StepOn(s, m, download, dataFolder, nfkd).1;
            && s'.cursor == s.cursor
            && s'.tables.audio == s.tables.audio
            && s.tables.meta.Keys <= s'.tables.meta.Keys
            && (forall k :: k in s.tables.meta ==> s'.tables.meta[k] == s.tables.meta[k])
            && s'.tables.meta.Keys <= s.tables.meta.Keys + {s.cursor + 1}
  {
  }

  /** The loop's invariant holds after every step that does not fail. */
  lemma {:induction false} StepKeepsInvariant(s: CrawlState, m: Result<Option<MetaRow>, ExtractError>, download: string -> AudioFetch,
                                              dataFolder: string, nfkd: string -> string)
    requires Inv(s) && RowFor(s, m)
    ensures Keyed(StepOn(s, m, download, dataFolder, nfkd).1.tables)
    ensures !StepOn(s, m, download, dataFolder, nfkd).0.Failed? ==> Inv(StepOn(s, m, download, dataFolder, nfkd).1)
  {
    match m
    case Ok(Some(row)) =>
      CommitKeepsInvariant(s, row, GetEpisodeAudio(row.urlAudio, download), dataFolder, nfkd);
    case _ =>
  }

  /**
   * Meta is always written before audio, so an audio row never lacks its
   * meta row; under the invariant the uid written is always fresh, so a step
   * never fails on a duplicate key.
   */
  lemma {:induction false} StepNeverDuplicates(s: CrawlState, m: Result<Option<MetaRow>, ExtractError>, download: string -> AudioFetch,
                                               dataFolder: string, nfkd: string -> string)
    requires Inv(s) && AudioWithinMeta(s) && RowFor(s, m)
    ensures AudioWithinMeta(StepOn(s, m, download, dataFolder, nfkd).1)
    ensures !(StepOn(s, m, download, dataFolder, nfkd).0.Failed? && StepOn(s, m, download, dataFolder, nfkd).0.error.StoreError?)
  {
    var i := s.cursor + 1;
    assert i !in s.tables.meta;
    assert i !in s.tables.audio;
  }

  /**
   * A failed audio step leaves the meta row of episode cursor+1 committed
   * with no audio row: the cursor on disk has moved past an episode whose
   * audio was never stored, while the cursor in memory has not.
   */
  lemma {:induction false} AudioFailureCommitsMetaOnly(s: CrawlState, m: Result<Option<MetaRow>, ExtractError>,
                                                       download: string -> AudioFetch, dataFolder: string, nfkd: string -> string)
    requires Inv(s) && AudioWithinMeta(s) && RowFor(s, m)
    requires StepOn(s, m, download, dataFolder, nfkd).0 == Failed(AudioError)
    ensures var s' := StepOn(s, m, download, dataFolder, nfkd).1;
            && s'.cursor == s.cursor
            && s.cursor + 1 in s'.tables.meta
            && s.cursor + 1 !in s'.tables.audio
            && IsLastId(s'.tables.meta.Keys, s.cursor + 1)
  {
    var s' := StepOn(s, m, download, dataFolder, nfkd).1;
    assert s'.tables.meta.Keys == s.tables.meta.Keys + {s.cursor + 1};
  }

  /**
   * The first episode of an empty store, found with an audio URL that
   * decodes: one meta row, one audio row stored as "<data>/audio/001.wav",
   * and the cursor at 1.
   */
  lemma FirstEpisodeWithAudio(row: MetaRow, download: string -> AudioFetch, dataFolder: string, nfkd: string -> string)
    requires row.uid == 1 && row.urlAudio.Some? && download(row.urlAudio.value).Decoded?
    ensures var r := StepOn(CrawlState(EmptyTables, 0), Ok(Some(row)), download, dataFolder, nfkd);
            && r.0 == Advanced
            && r.1.cursor == 1
            && r.1.tables.meta.Keys == {1}
            && r.1.tables.audio.Keys == {1}
            && r.1.tables.audio[1].filePath == dataFolder + "/audio/001.wav"
  {
    FirstAudioFileName();
  }

  // ---------------------------------------------------------------------
  // A run of iterations
  // ---------------------------------------------------------------------

  /** Iterations t up to n, stopping at the first that fails. */
  function Runs(s: CrawlState, w: World, t: nat, n: nat, dataFolder: string, nfkd: string -> string): (Option<CrawlError>, CrawlState)
    decreases n - t
  {
    if t >= n then (None, s)
    else
      var (r, s') := Step(s, w, t, dataFolder, nfkd);
      if r.Failed? then (Some(r.error), s') else Runs(s', w, t + 1, n, dataFolder, nfkd)
  }

  /**
   * Over any run: the invariants hold at the end of a run without error,
   * the run never fails on a duplicate key, and audio rows always have
   * their meta rows.
   */
  lemma {:induction false} RunsKeepInvariant(s: CrawlState, w: World, t: nat, n: nat, dataFolder: string, nfkd: string -> string)
    requires Inv(s) && AudioWithinMeta(s)
    ensures var (e, s') := Runs(s, w, t, n, dataFolder, nfkd);
            && AudioWithinMeta(s')
            && Keyed(s'.tables)
            && (e.None? ==> Inv(s'))
            && (e.Some? ==> !e.value.StoreError?)
    decreases n - t
  {
    if t < n {
      var m := GetEpisodeMeta(s.cursor + 1, w.fetch(t, EpisodeUrl(s.cursor + 1)));
      ExtractedRowFor(s, w, t);
      StepKeepsInvariant(s, m, w.download(t), dataFolder, nfkd);
      StepNeverDuplicates(s, m, w.download(t), dataFolder, nfkd);
      var (r, s') := Step(s, w, t, dataFolder, nfkd);
      if !r.Failed? {
        RunsKeepInvariant(s', w, t + 1, n, dataFolder, nfkd);
      }
    }
  }

  /** The episodes 1 to cursor are committed and no others: cursor is then the last id. */
  lemma DenseIsLast(s: CrawlState)
    requires Dense(s)
    ensures IsLastId(s.tables.meta.Keys, s.cursor)
  {
    if s.cursor > 0 {
      assert s.cursor in s.tables.meta.Keys;
    } else {
      assert s.tables.meta.Keys == {} by {
        forall k | k in s.tables.meta.Keys ensures false {
        }
      }
    }
  }

  /** A step that does not fail commits episode cursor+1 and nothing else, or nothing at all. */
  lemma {:induction false} StepKeepsDense(s: CrawlState, m: Result<Option<MetaRow>, ExtractError>, download: string -> AudioFetch,
                                          dataFolder: string, nfkd: string -> string)
    requires Dense(s) && RowFor(s, m)
    ensures !StepOn(s, m, download, dataFolder, nfkd).0.Failed? ==> Dense(StepOn(s, m, download, dataFolder, nfkd).1)
  {
    if StepOn(s, m, download, dataFolder, nfkd).0 == Advanced {
      StepAdvances(s, m, download, dataFolder, nfkd);
    }
  }

  /**
   * Starting from the committed episodes 1..cursor (an empty store is the
   * case cursor = 0), a run without error ends with the committed episodes
   * 1..cursor again; with DenseIsLast, a restart, which reads max(uid),
   * resumes exactly where the run stopped.
   */
  lemma {:induction false} RunsStayDense(s: CrawlState, w: World, t: nat, n: nat, dataFolder: string, nfkd: string -> string)
    requires Dense(s)
    ensures var (e, s') := Runs(s, w, t, n, dataFolder, nfkd);
            e.None? ==> Dense(s')
    decreases n - t
  {
    if t < n {
      var m := GetEpisodeMeta(s.cursor + 1, w.fetch(t, EpisodeUrl(s.cursor + 1)));
      ExtractedRowFor(s, w, t);
      StepKeepsDense(s, m, w.download(t), dataFolder, nfkd);
      var (r, s') := StepOn(s, m, w.download(t), dataFolder, nfkd);
      if !r.Failed? {
        assert Runs(s, w, t, n, dataFolder, nfkd) == Runs(s', w, t + 1, n, dataFolder, nfkd);
        RunsStayDense(s', w, t + 1, n, dataFolder, nfkd);
      }
    }
  }

  // ---------------------------------------------------------------------
  // The Scraper
  // ---------------------------------------------------------------------

  class Scraper {
    const dataFolder: string
    const updateInterval: int
    const db: SQLiteEngine
    var currentEpisode: int

    ghost function State(): CrawlState
      reads this, db
    {
      CrawlState(Tables(db.meta, db.audio), currentEpisode)
    }

    ghost predicate Valid()
      reads this, db
    {
      db.Valid() && db.hasSchema && Inv(State())
    }

    constructor (dataFolder: string, updateInterval: int, db: SQLiteEngine, currentEpisode: int)
      ensures this.dataFolder == dataFolder && this.updateInterval == updateInterval
      ensures this.db == db && this.currentEpisode == currentEpisode
    {
      this.dataFolder := dataFolder;
      this.updateInterval := updateInterval;
      this.db := db;
      this.currentEpisode := currentEpisode;
    }

    /**
     * Scraper.__init__: bind an engine to `<dataFolder>/zeitsprung.db`, set
     * the schema up when the file is new or a reset is asked for, then read
     * the cursor from the table. Fails when it binds to a file without
     * tables.
     */
    static method Create(dataFolder: string, updateInterval: int, reset: bool, file: DbFile, nfkd: string -> string)
      returns (r: Result<Scraper, DbError>)
      requires file.Present? && file.stored.Some? ==> Keyed(file.stored.value)
      ensures r.Ok? <==> BootTables(file, reset).Some?
      ensures r.Err? ==> r.error == NoSuchTable
      ensures r.Ok? ==> fresh(r.value) && fresh(r.value.db)
      ensures r.Ok? ==> && r.value.Valid()
                        && r.value.db.Stored() == BootTables(file, reset)
                        && r.value.db.dbFile == dataFolder + "/zeitsprung.db"
                        && r.value.db.nfkd == nfkd
                        && r.value.dataFolder == dataFolder
                        && r.value.updateInterval == updateInterval
    {
      var db := new SQLiteEngine(dataFolder + "/zeitsprung.db", nfkd, if file.Present? then file.stored else None);
      if file.Present? && reset {
        db.SetupSchema();
      } else if file.Present? && !reset {
      } else {
        db.SetupSchema();
      }
      var last := db.QueryLastEpisodeId();
      match last
      case Err(e) =>
        r := Err(e);
      case Ok(n) =>
        var s := new Scraper(dataFolder, updateInterval, db, n);
        r := Ok(s);
    }

    /** One iteration of `run`: exactly what Step says. */
    method RunStep(w: World, t: nat) returns (r: StepResult)
      requires db.Valid() && db.hasSchema && QuoteFree(dataFolder)
      requires PageSqlSafe(w.fetch(t, EpisodeUrl(currentEpisode + 1)).page)
      modifies this, db
      ensures (r, State()) == Step(old(State()), w, t, dataFolder, db.nfkd)
      ensures db.Valid() && db.hasSchema
      ensures Inv(old(State())) && !r.Failed? ==> Valid()
    {
      ghost var s := State();
      var i := currentEpisode + 1;
      var resp := w.fetch(t, EpisodeUrl(i));
      var meta := GetEpisodeMeta(i, resp);
      match meta
      case Err(e) =>
        return Failed(PageError(e));
      case Ok(None) =>
        // "not yet published": sleep(update_interval), then try again
        return Waited;
      case Ok(Some(row)) =>
        var audio: Option<AudioFetch> := GetEpisodeAudio(row.urlAudio, w.download(t));
        assert Step(s, w, t, dataFolder, db.nfkd) == StepOn(s, meta, w.download(t), dataFolder, db.nfkd);
        ExtractedRowSqlSafe(i, resp);
        r := CommitStep(row, audio);
    }

    /** The commit half of an iteration: exactly what Commit says. */
    method CommitStep(row: MetaRow, audio: Option<AudioFetch>) returns (r: StepResult)
      requires db.Valid() && db.hasSchema && QuoteFree(dataFolder) && SqlSafe(row) && row.uid == currentEpisode + 1
      modifies this, db
      ensures (r, State()) == Commit(old(State()), row, audio, dataFolder, db.nfkd)
      ensures db.Valid() && db.hasSchema
      ensures Inv(old(State())) && !r.Failed? ==> Valid()
    {
      ghost var s := State();
      if Inv(s) {
        CommitKeepsInvariant(s, row, audio, dataFolder, db.nfkd);
      }
      var i := currentEpisode + 1;
      var err := db.InsertMetaRow(row);
      if err.Some? {
        return Failed(StoreError(err.value));
      }
      if audio.Some? {
        match audio.value
        case AudioFailed =>
          return Failed(AudioError);
        case Decoded(p) =>
          var audioRow := AudioRecord(i, AudioPath(dataFolder, i), p.durationSeconds, p.frameRate, p.frameWidth);
          AudioPathQuoteFree(dataFolder, i);
          err := db.InsertAudioRow(audioRow);
          if err.Some? {
            return Failed(StoreError(err.value));
          }
      }
      currentEpisode := currentEpisode + 1;
      return Advanced;
    }

    /**
     * `run`, for its first n iterations: loop until an iteration raises,
     * exactly as Runs says.
     */
    method Run(w: World, n: nat) returns (e: Option<CrawlError>)
      requires db.Valid() && db.hasSchema && QuoteFree(dataFolder) && WorldSqlSafe(w)
      modifies this, db
      ensures (e, State()) == Runs(old(State()), w, 0, n, dataFolder, db.nfkd)
      ensures db.Valid() && db.hasSchema
      ensures Inv(old(State())) && e.None? ==> Valid()
    {
      var t := 0;
      while t < n
        invariant t <= n && db.Valid() && db.hasSchema
        invariant Inv(old(State())) ==> Inv(State())
        invariant Runs(State(), w, t, n, dataFolder, db.nfkd) == Runs(old(State()), w, 0, n, dataFolder, db.nfkd)
        decreases n - t
      {
        var r := RunStep(w, t);
        if r.Failed? {
          return Some(r.error);
        }
        t := t + 1;
      }
      return None;
    }
  }
}
