/**
 * The SQLite store of zeitsprung/database.py: two tables, `meta` and `audio`,
 * each keyed by its INTEGER PRIMARY KEY `uid`. A table is a map from uid to
 * row; the connection, the SQL text and the pandas frames are not modelled.
 */
module Database {
  import opened Wrappers
  import opened Text

  /** A timestamp as the page gave it; date parsing is outside the model. */
  datatype Timestamp = Timestamp(iso: string)

  /** The eight-element list get_episode_meta builds and insert_meta_row takes. */
  datatype MetaRow = MetaRow(
    uid: int,
    publishedAt: Timestamp,
    modifiedAt: Timestamp,
    abbreviation: string,
    title: string,
    description: string,
    urlEpisode: string,
    urlAudio: Option<string>)

  /** A stored row of table `meta`: its eight columns. */
  datatype MetaRecord = MetaRecord(
    uid: int,
    publishedAt: Timestamp,
    modifiedAt: Timestamp,
    abbreviation: string,
    title: string,
    description: string,
    urlEpisode: string,
    urlAudio: string)

  /** A row of table `audio`, as inserted and as stored: its five columns. */
  datatype AudioRecord = AudioRecord(
    uid: int,
    filePath: string,
    duration: int,
    frameRate: int,
    frameWidth: int)

  /** The contents of both tables. */
  datatype Tables = Tables(meta: map<int, MetaRecord>, audio: map<int, AudioRecord>)

  datatype DbError =
    | NoSuchTable          // the file holds no schema yet
    | DuplicateKey(uid: int) // PRIMARY KEY constraint failed

  /** Every row is filed under its own uid. */
  ghost predicate Keyed(t: Tables) {
    && (forall k :: k in t.meta ==> t.meta[k].uid == k)
    && (forall k :: k in t.audio ==> t.audio[k].uid == k)
  }

  const EmptyTables := Tables(map[], map[])

  // ---------------------------------------------------------------------
  // What insert_meta_row writes
  // ---------------------------------------------------------------------

  /** How Python formats an optional text into the statement: None becomes the text "None". */
  function OptionalText(u: Option<string>): (r: string)
    ensures r == "None" <==> (u == None || u == Some("None"))
    ensures u.Some? && u.value != "None" ==> Some(r) == u
  {
    match u
    case Some(s) => s
    case None => "None"
  }

  /** The free-text normalisation: NFKD (given) followed by removal of every single quote. */
  function Normalize(nfkd: string -> string, s: string): (r: string)
    ensures QuoteFree(r)
  {
    StripQuotes(nfkd(s))
  }

  /** The record a successful insert_meta_row stores for a row. */
  function MetaRecordOf(row: MetaRow, nfkd: string -> string): (r: MetaRecord)
    ensures r.uid == row.uid
    ensures QuoteFree(r.title) && QuoteFree(r.description)
    ensures r.urlAudio == OptionalText(row.urlAudio)
  {
    MetaRecord(row.uid, row.publishedAt, row.modifiedAt, row.abbreviation,
               Normalize(nfkd, row.title), Normalize(nfkd, row.description),
               row.urlEpisode, OptionalText(row.urlAudio))
  }

  /**
   * The fields that are interpolated into the INSERT statement without any
   * quote handling: a single quote in one of them breaks the statement.
   * (Timestamps are written through str(datetime), which has no quotes.)
   */
  predicate SqlSafe(row: MetaRow) {
    && QuoteFree(row.abbreviation)
    && QuoteFree(row.urlEpisode)
    && QuoteFree(OptionalText(row.urlAudio))
  }

  predicate AudioSqlSafe(row: AudioRecord) {
    QuoteFree(row.filePath)
  }

  /** Reading a stored meta record back into the row shape, with "None" read as a missing URL. */
  function MetaRowOf(rec: MetaRecord): MetaRow
  {
    MetaRow(rec.uid, rec.publishedAt, rec.modifiedAt, rec.abbreviation, rec.title,
            rec.description, rec.urlEpisode, if rec.urlAudio == "None" then None else Some(rec.urlAudio))
  }

  /**
   * Storing is lossless for a row whose free text is already normalised and
   * whose audio URL is not literally "None".
   */
  lemma MetaRoundTrip(row: MetaRow, nfkd: string -> string)
    requires nfkd(row.title) == row.title && QuoteFree(row.title)
    requires nfkd(row.description) == row.description && QuoteFree(row.description)
    requires row.urlAudio != Some("None")
    ensures MetaRowOf(MetaRecordOf(row, nfkd)) == row
  {
    StripQuotesQuoteFree(row.title);
    StripQuotesQuoteFree(row.description);
  }

  /** A missing audio URL and the URL text "None" are stored identically. */
  lemma MissingUrlStoredAsNone(row: MetaRow, nfkd: string -> string)
    ensures MetaRecordOf(row.(urlAudio := None), nfkd) == MetaRecordOf(row.(urlAudio := Some("None")), nfkd)
    ensures MetaRecordOf(row.(urlAudio := None), nfkd).urlAudio == "None"
  {
  }

  // ---------------------------------------------------------------------
  // max(uid) and the uid-ordered table scan
  // ---------------------------------------------------------------------

  /** n is what `SELECT max(uid)` yields for these keys, with NULL read as 0. */
  ghost predicate IsLastId(keys: set<int>, n: int) {
    if keys == {} then n == 0 else n in keys && forall k :: k in keys ==> k <= n
  }

  /** A set is empty or has a member (what lets a loop pick from a non-empty set). */
  lemma EmptyOrMember(keys: set<int>)
    ensures keys == {} || exists k :: k in keys
  {
    if forall k :: k !in keys {
      assert keys == {};
    }
  }

  /** The largest element of a non-empty finite set of uids. */
  method MaxKey(keys: set<int>) returns (m: int)
    requires keys != {}
    ensures m in keys
    ensures forall k :: k in keys ==> k <= m
  {
    EmptyOrMember(keys);
    m :| m in keys;
    var rest := keys - {m};
    while rest != {}
      invariant rest <= keys && m in keys
      invariant forall k :: k in keys && k !in rest ==> k <= m
      decreases rest
    {
      EmptyOrMember(rest);
      var k :| k in rest;
      if k > m {
        m := k;
      }
      rest := rest - {k};
    }
  }

  /** The uids in ascending order, each exactly once: the order of a rowid table scan. */
  method AscendingKeys(keys: set<int>) returns (ks: seq<int>)
    ensures forall i, j :: 0 <= i < j < |ks| ==> ks[i] < ks[j]
    ensures forall k :: k in keys <==> k in ks
  {
    var rest := keys;
    ks := [];
    while rest != {}
      invariant rest <= keys
      invariant forall i, j :: 0 <= i < j < |ks| ==> ks[i] < ks[j]
      invariant forall k :: k in keys <==> (k in rest || k in ks)
      invariant forall k, i :: k in rest && 0 <= i < |ks| ==> k < ks[i]
      decreases rest
    {
      var m := MaxKey(rest);
      ks := [m] + ks;
      rest := rest - {m};
    }
  }

  /** rows lists the table once per stored row, in ascending uid order. */
  ghost predicate ListsMeta(rows: seq<MetaRecord>, table: map<int, MetaRecord>) {
    && (forall i, j :: 0 <= i < j < |rows| ==> rows[i].uid < rows[j].uid)
    && (forall i :: 0 <= i < |rows| ==> rows[i].uid in table && table[rows[i].uid] == rows[i])
    && (forall k :: k in table ==> exists i :: 0 <= i < |rows| && rows[i].uid == k)
  }

  ghost predicate ListsAudio(rows: seq<AudioRecord>, table: map<int, AudioRecord>) {
    && (forall i, j :: 0 <= i < j < |rows| ==> rows[i].uid < rows[j].uid)
    && (forall i :: 0 <= i < |rows| ==> rows[i].uid in table && table[rows[i].uid] == rows[i])
    && (forall k :: k in table ==> exists i :: 0 <= i < |rows| && rows[i].uid == k)
  }

  // ---------------------------------------------------------------------
  // The engine
  // ---------------------------------------------------------------------

  class SQLiteEngine {
    const dbFile: string
    /** Unicode NFKD normalisation, taken as given. */
    const nfkd: string -> string
    /** Whether the file holds the two tables (setup_schema has run on it). */
    var hasSchema: bool
    var meta: map<int, MetaRecord>
    var audio: map<int, AudioRecord>

    ghost predicate Valid()
      reads this
    {
      && (!hasSchema ==> meta == map[] && audio == map[])
      && Keyed(Tables(meta, audio))
    }

    /** The store's contents: None while the file has no tables. */
    ghost function Stored(): Option<Tables>
      reads this
    {
      if hasSchema then Some(Tables(meta, audio)) else None
    }

    /** Binds to a database file whose current contents are `stored`. */
    constructor (dbFile: string, nfkd: string -> string, stored: Option<Tables>)
      requires stored.Some? ==> Keyed(stored.value)
      ensures Valid()
      ensures this.dbFile == dbFile && this.nfkd == nfkd
      ensures Stored() == stored
    {
      this.dbFile := dbFile;
      this.nfkd := nfkd;
      match stored
      case None =>
        hasSchema, meta, audio := false, map[], map[];
      case Some(t) =>
        hasSchema, meta, audio := true, t.meta, t.audio;
    }

    /** Drops and recreates both tables: afterwards both are empty, whatever they held. */
    method SetupSchema()
      modifies this
      ensures Valid()
      ensures Stored() == Some(EmptyTables)
    {
      hasSchema, meta, audio := true, map[], map[];
    }

    /**
     * Appends one row to `meta`. Fails, changing nothing, when there is no
     * schema or when the uid is already stored.
     */
    method InsertMetaRow(row: MetaRow) returns (err: Option<DbError>)
      requires Valid() && SqlSafe(row)
      modifies this
      ensures Valid()
      ensures hasSchema == old(hasSchema) && audio == old(audio)
      ensures !hasSchema ==> err == Some(NoSuchTable) && meta == old(meta)
      ensures hasSchema && row.uid in old(meta) ==> err == Some(DuplicateKey(row.uid)) && meta == old(meta)
      ensures hasSchema && row.uid !in old(meta) ==>
                err == None && meta == old(meta)[row.uid := MetaRecordOf(row, nfkd)]
    {
      if !hasSchema {
        err := Some(NoSuchTable);
      } else if row.uid in meta {
        err := Some(DuplicateKey(row.uid));
      } else {
        meta := meta[row.uid := MetaRecordOf(row, nfkd)];
        err := None;
      }
    }

    /** Appends one row to `audio`, with the same failure cases as InsertMetaRow. */
    method InsertAudioRow(row: AudioRecord) returns (err: Option<DbError>)
      requires Valid() && AudioSqlSafe(row)
      modifies this
      ensures Valid()
      ensures hasSchema == old(hasSchema) && meta == old(meta)
      ensures !hasSchema ==> err == Some(NoSuchTable) && audio == old(audio)
      ensures hasSchema && row.uid in old(audio) ==> err == Some(DuplicateKey(row.uid)) && audio == old(audio)
      ensures hasSchema && row.uid !in old(audio) ==> err == None && audio == old(audio)[row.uid := row]
    {
      if !hasSchema {
        err := Some(NoSuchTable);
      } else if row.uid in audio {
        err := Some(DuplicateKey(row.uid));
      } else {
        audio := audio[row.uid := row];
        err := None;
      }
    }

    /** `SELECT max(uid) FROM meta`, 0 for an empty table. */
    method QueryLastEpisodeId() returns (r: Result<int, DbError>)
      requires Valid()
      ensures r.Err? <==> !hasSchema
      ensures r.Err? ==> r.error == NoSuchTable
      ensures r.Ok? ==> IsLastId(meta.Keys, r.value)
    {
      if !hasSchema {
        return Err(NoSuchTable);
      }
      if meta == map[] {
        return Ok(0);
      }
      var m := MaxKey(meta.Keys);
      return Ok(m);
    }

    /** `SELECT * FROM meta`: every stored row once, in uid order. */
    method QueryAllMeta() returns (r: Result<seq<MetaRecord>, DbError>)
      requires Valid()
      ensures r.Err? <==> !hasSchema
      ensures r.Err? ==> r.error == NoSuchTable
      ensures r.Ok? ==> ListsMeta(r.value, meta)
    {
      if !hasSchema {
        return Err(NoSuchTable);
      }
      var ks := AscendingKeys(meta.Keys);
      forall i | 0 <= i < |ks| ensures ks[i] in meta {
        assert ks[i] in ks;
      }
      var rows: seq<MetaRecord> := [];
      for n := 0 to |ks|
        invariant |rows| == n
        invariant forall i :: 0 <= i < n ==> rows[i] == meta[ks[i]]
      {
        rows := rows + [meta[ks[n]]];
      }
      forall k | k in meta
        ensures exists i :: 0 <= i < |rows| && rows[i].uid == k
      {
        var i :| 0 <= i < |ks| && ks[i] == k;
        assert rows[i].uid == k;
      }
      return Ok(rows);
    }

    /** `SELECT * FROM audio`: every stored row once, in uid order. */
    method QueryAllAudio() returns (r: Result<seq<AudioRecord>, DbError>)
      requires Valid()
      ensures r.Err? <==> !hasSchema
      ensures r.Err? ==> r.error == NoSuchTable
      ensures r.Ok? ==> ListsAudio(r.value, audio)
    {
      if !hasSchema {
        return Err(NoSuchTable);
      }
      var ks := AscendingKeys(audio.Keys);
      forall i | 0 <= i < |ks| ensures ks[i] in audio {
        assert ks[i] in ks;
      }
      var rows: seq<AudioRecord> := [];
      for n := 0 to |ks|
        invariant |rows| == n
        invariant forall i :: 0 <= i < n ==> rows[i] == audio[ks[i]]
      {
        rows := rows + [audio[ks[n]]];
      }
      forall k | k in audio
        ensures exists i :: 0 <= i < |rows| && rows[i].uid == k
      {
        var i :| 0 <= i < |ks| && ks[i] == k;
        assert rows[i].uid == k;
      }
      return Ok(rows);
    }
  }
}
