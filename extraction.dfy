/**
 * The request/response part of zeitsprung/scraping.py: the episode URL, the
 * first-match key search over the page's structured-data graph, the title
 * split, get_episode_meta on an already parsed page, the `None` branch of
 * get_episode_audio, and the zero-padded audio file name.
 */
module Extraction {
  import opened Wrappers
  import opened Text
  import opened Database

  // ---------------------------------------------------------------------
  // Episode URL
  // ---------------------------------------------------------------------

  /** The episode number as written into the URL: a '0' in front of anything below 10. */
  function EpisodeNumber(i: int): string
  {
    if i < 10 then "0" + Str(i) else Str(i)
  }

  function EpisodeUrl(i: int): string
  {
    "https://www.zeitsprung.fm/podcast/zs" + EpisodeNumber(i) + "/"
  }

  /**
   * For the episode numbers the crawler requests (from 1 on): two digits
   * with a leading '0' below 10, the plain decimal form from 10 on, so
   * always exactly two characters below 100.
   */
  lemma EpisodeNumberForm(i: int)
    requires i >= 1
    ensures IsDigits(EpisodeNumber(i))
    ensures i < 10 ==> EpisodeNumber(i) == ['0', DigitChar(i)]
    ensures i >= 10 ==> EpisodeNumber(i) == NatStr(i)
    ensures i < 100 <==> |EpisodeNumber(i)| == 2
  {
    NatStrLength(i);
    if i >= 10 {
      assert i >= 100 ==> |EpisodeNumber(i)| >= 3;
    }
  }

  /** The number can be read back from its URL form. */
  lemma EpisodeNumberValue(i: int)
    requires i >= 1
    ensures IsDigits(EpisodeNumber(i)) && Value(EpisodeNumber(i)) == i
  {
    EpisodeNumberForm(i);
    NatStrValue(i);
    if i < 10 {
      ValueLeadingZeros(1, NatStr(i));
      assert Zeros(1) + NatStr(i) == EpisodeNumber(i);
    }
  }

  /** Different episodes are fetched from different URLs. */
  lemma EpisodeUrlInjective(i: int, j: int)
    requires i >= 1 && j >= 1
    requires EpisodeUrl(i) == EpisodeUrl(j)
    ensures i == j
  {
    var prefix := "https://www.zeitsprung.fm/podcast/zs";
    var a, b := EpisodeNumber(i), EpisodeNumber(j);
    assert |a| == |b|;
    assert a == EpisodeUrl(i)[|prefix|..|prefix| + |a|];
    assert b == EpisodeUrl(j)[|prefix|..|prefix| + |b|];
    EpisodeNumberValue(i);
    EpisodeNumberValue(j);
  }

  // ---------------------------------------------------------------------
  // search_key
  // ---------------------------------------------------------------------

  /**
   * The value under key in the first entry that has it; None when no entry
   * has it.
   */
  function FirstValue<K, V>(key: K, entries: seq<map<K, V>>): Option<V>
  {
    if entries == [] then None
    else if key in entries[0] then Some(entries[0][key])
    else FirstValue(key, entries[1..])
  }

  /** FirstValue finds the entry of lowest index that has the key, and finds nothing only when no entry has it. */
  lemma {:induction false} FirstValueIsFirst<K, V>(key: K, entries: seq<map<K, V>>)
    ensures FirstValue(key, entries).None? <==> forall i :: 0 <= i < |entries| ==> key !in entries[i]
    ensures FirstValue(key, entries).Some? ==>
              exists i :: && 0 <= i < |entries| && key in entries[i]
                          && entries[i][key] == FirstValue(key, entries).value
                          && forall j :: 0 <= j < i ==> key !in entries[j]
  {
    if entries != [] && key !in entries[0] {
      var tail := entries[1..];
      FirstValueIsFirst(key, tail);
      forall i | 0 < i < |entries| ensures entries[i] == tail[i - 1] {
      }
      var r := FirstValue(key, tail);
      if r.Some? {
        var i :| && 0 <= i < |tail| && key in tail[i] && tail[i][key] == r.value
                 && forall j :: 0 <= j < i ==> key !in tail[j];
        assert forall j :: 0 <= j < i + 1 ==> key !in entries[j] by {
          forall j | 0 < j < i + 1 ensures key !in entries[j] {
            assert entries[j] == tail[j - 1];
          }
        }
      }
    }
  }

  /** search_key: scan the entries in order and return at the first that has the key. */
  method SearchKey<K, V>(key: K, entries: seq<map<K, V>>) returns (r: Option<V>)
    ensures r == FirstValue(key, entries)
  {
    for n := 0 to |entries|
      invariant FirstValue(key, entries) == FirstValue(key, entries[n..])
    {
      assert entries[n..][1..] == entries[n + 1..];
      if key in entries[n] {
        return Some(entries[n][key]);
      }
    }
    return None;
  }

  // ---------------------------------------------------------------------
  // The page and get_episode_meta
  // ---------------------------------------------------------------------

  /**
   * What the HTML parser finds on an episode page: the entries of the
   * structured-data graph, the <title> text, the og:description and og:url
   * meta contents, and the hrefs of the links inside the download list
   * (None when the page has no download list).
   */
  datatype Page = Page(
    graph: seq<map<string, string>>,
    title: Option<string>,
    description: Option<string>,
    ogUrl: Option<string>,
    downloadList: Option<seq<string>>)

  datatype Response = Response(status: int, page: Page)

  /** The exception get_episode_meta raises on a page that breaks its assumptions. */
  datatype ExtractError =
    | MissingTitle
    | MissingDatePublished
    | MissingDateModified
    | MalformedTitle
    | MissingDescription
    | MissingEpisodeUrl
    | EmptyDownloadList

  /**
   * The stripped title split on ':': the first piece is the abbreviation,
   * the second piece without its first character is the title. Fewer than
   * two pieces is the IndexError of `title[1]`.
   */
  function ParseTitle(text: string): Result<(string, string), ExtractError>
  {
    var parts := Split(Strip(text), ':');
    if |parts| < 2 then Err(MalformedTitle) else Ok((parts[0], DropFirst(parts[1])))
  }

  /**
   * The title rule stated through indices: with k the first ':' of the
   * stripped text, the abbreviation is everything before k and the title is
   * what lies between k and the next ':' (or the end), minus its first
   * character; without a ':' the title is malformed.
   */
  lemma ParseTitleByIndex(text: string)
    ensures var s := Strip(text); var k := FirstIndexOf(s, ':');
            ParseTitle(text) == if k == |s| then Err(MalformedTitle)
                                else Ok((s[..k], DropFirst(UpTo(s[k + 1..], ':'))))
  {
    var s := Strip(text);
    var k := FirstIndexOf(s, ':');
    SplitFirst(s, ':');
    if k < |s| {
      SplitFirst(s[k + 1..], ':');
    }
  }

  /** Neither part of a parsed title contains ':'. */
  lemma ParseTitleColonFree(text: string)
    requires ParseTitle(text).Ok?
    ensures ':' !in ParseTitle(text).value.0 && ':' !in ParseTitle(text).value.1
  {
    var parts := Split(Strip(text), ':');
    SplitPiecesFree(Strip(text), ':');
    assert ':' !in parts[0] && ':' !in parts[1];
  }

  /**
   * get_episode_meta on the response to episode i's URL: None for any
   * status but 200, otherwise the eight fields in the order Python
   * evaluates them, or the first exception that evaluation hits.
   */
  function GetEpisodeMeta(i: int, resp: Response): (r: Result<Option<MetaRow>, ExtractError>)
    ensures r == Ok(None) <==> resp.status != 200
    ensures r.Ok? && r.value.Some? ==> r.value.value.uid == i
    ensures r.Ok? && r.value.Some? ==> (r.value.value.urlAudio.None? <==> resp.page.downloadList.None?)
  {
    if resp.status != 200 then Ok(None)
    else
      var p := resp.page;
      if p.title.None? then Err(MissingTitle)
      else
        var published := FirstValue("datePublished", p.graph);
        var modified := FirstValue("dateModified", p.graph);
        var title := ParseTitle(p.title.value);
        if published.None? then Err(MissingDatePublished)
        else if modified.None? then Err(MissingDateModified)
        else if title.Err? then Err(MalformedTitle)
        else if p.description.None? then Err(MissingDescription)
        else if p.ogUrl.None? then Err(MissingEpisodeUrl)
        else if p.downloadList == Some([]) then Err(EmptyDownloadList)
        else
          var audioUrl := match p.downloadList
                          case None => None
                          case Some(links) => Some(links[0]);
          Ok(Some(MetaRow(i, Timestamp(published.value), Timestamp(modified.value),
                          title.value.0, title.value.1, p.description.value, p.ogUrl.value, audioUrl)))
  }

  /** What a successful extraction takes from each part of the page. */
  lemma GetEpisodeMetaFields(i: int, resp: Response)
    requires GetEpisodeMeta(i, resp).Ok? && GetEpisodeMeta(i, resp).value.Some?
    ensures var row := GetEpisodeMeta(i, resp).value.value; var p := resp.page;
            && resp.status == 200
            && p.title.Some? && ParseTitle(p.title.value) == Ok((row.abbreviation, row.title))
            && Some(row.publishedAt.iso) == FirstValue("datePublished", p.graph)
            && Some(row.modifiedAt.iso) == FirstValue("dateModified", p.graph)
            && Some(row.description) == p.description
            && Some(row.urlEpisode) == p.ogUrl
            && (p.downloadList.Some? ==> |p.downloadList.value| > 0 && row.urlAudio == Some(p.downloadList.value[0]))
  {
  }

  /**
   * On a 200 page, extraction raises exactly when the title, either date, a
   * ':' in the stripped title, the description or the og:url is missing, or
   * the download list holds no link; otherwise it yields a row.
   */
  lemma GetEpisodeMetaFails(i: int, resp: Response)
    requires resp.status == 200
    ensures GetEpisodeMeta(i, resp).Err? <==>
              || resp.page.title.None?
              || FirstValue("datePublished", resp.page.graph).None?
              || FirstValue("dateModified", resp.page.graph).None?
              || (resp.page.title.Some? && ':' !in Strip(resp.page.title.value))
              || resp.page.description.None?
              || resp.page.ogUrl.None?
              || resp.page.downloadList == Some([])
    ensures !GetEpisodeMeta(i, resp).Err? ==> GetEpisodeMeta(i, resp).Ok? && GetEpisodeMeta(i, resp).value.Some?
  {
    if resp.page.title.Some? {
      ParseTitleByIndex(resp.page.title.value);
    }
  }

  // ---------------------------------------------------------------------
  // get_episode_audio and the audio file name
  // ---------------------------------------------------------------------

  /**
   * get_episode_audio: no audio for a missing URL, otherwise whatever
   * downloading and decoding the URL yields.
   */
  function GetEpisodeAudio<A>(url: Option<string>, download: string -> A): (r: Option<A>)
    ensures r.None? <==> url.None?
    ensures url.Some? ==> r == Some(download(url.value))
  {
    match url
    case None => None
    case Some(u) => Some(download(u))
  }

  /** f'{str(uid).zfill(3)}.wav' */
  function AudioFileName(uid: int): string
  {
    ZFill(Str(uid), 3) + ".wav"
  }

  /** data_folder / 'audio' / AudioFileName(uid) */
  function AudioPath(dataFolder: string, uid: int): string
  {
    dataFolder + "/audio/" + AudioFileName(uid)
  }

  /**
   * For an episode number, the file name is the number padded with zeros to
   * at least three digits, which still read as the number, then ".wav".
   */
  lemma AudioFileNameForm(uid: int)
    requires uid >= 0
    ensures var stem := AudioFileName(uid)[..|AudioFileName(uid)| - 4];
            && AudioFileName(uid) == stem + ".wav"
            && IsDigits(stem) && Value(stem) == uid
            && |stem| == (if uid < 1000 then 3 else |NatStr(uid)|)
  {
    var stem := ZFill(NatStr(uid), 3);
    assert AudioFileName(uid) == stem + ".wav";
    assert AudioFileName(uid)[..|AudioFileName(uid)| - 4] == stem;
    ZFillNatStr(uid, 3);
    NatStrLength(uid);
  }

  /** The first episode's audio file. */
  lemma FirstAudioFileName()
    ensures AudioFileName(1) == "001.wav"
  {
    assert Str(1) == [DigitChar(1)] == "1";
    assert ZFill("1", 3) == Zeros(2) + "1";
  }

  /** Two episodes never share an audio file. */
  lemma AudioPathInjective(dataFolder: string, a: int, b: int)
    requires a >= 0 && b >= 0
    requires AudioPath(dataFolder, a) == AudioPath(dataFolder, b)
    ensures a == b
  {
    var pre := dataFolder + "/audio/";
    assert AudioFileName(a) == AudioPath(dataFolder, a)[|pre|..];
    assert AudioFileName(b) == AudioPath(dataFolder, b)[|pre|..];
    AudioFileNameForm(a);
    AudioFileNameForm(b);
  }

  /** The path has no quote when the data folder has none. */
  lemma AudioPathQuoteFree(dataFolder: string, uid: int)
    requires QuoteFree(dataFolder)
    ensures QuoteFree(AudioPath(dataFolder, uid))
  {
    var n := if uid < 0 then NatStr(-uid) else NatStr(uid);
    assert QuoteFree(n) by {
      assert forall c :: c in n ==> IsDigit(c) by {
        forall c | c in n ensures IsDigit(c) {
          var j :| 0 <= j < |n| && n[j] == c;
        }
      }
    }
    var s := Str(uid);
    assert QuoteFree(s) by {
      if uid < 0 {
        assert s == "-" + n;
      }
    }
    var z := ZFill(s, 3);
    assert QuoteFree(z) by {
      if |s| < 3 && |s| > 0 && (s[0] == '+' || s[0] == '-') {
        assert z == [s[0]] + Zeros(3 - |s|) + s[1..];
        assert forall c :: c in s[1..] ==> c in s;
      }
    }
    assert AudioPath(dataFolder, uid) == dataFolder + "/audio/" + z + ".wav";
  }
}
