/** The live-source resolver of youtube/youtube_stream_grepper.py
    (`YouTubeLiveStreamGrabber`). The extractor (yt_dlp's `extract_info`) is a
    parameter: a total function from a URL to what it reports, or to a failure
    standing for any exception it raises. */
module StreamGrabber {
  import opened Common
  import opened FormatRanking

  /** One item of a channel page's `entries` list. */
  datatype Entry = Entry(isLive: Field<bool>, liveStatus: Field<string>, url: Field<string>)

  /** The dictionary the extractor returns for one URL (the keys the resolver reads). */
  datatype Info = Info(
    isLive: Field<bool>,
    liveStatus: Field<string>,
    url: Field<string>,
    title: Field<string>,
    channel: Field<string>,
    viewCount: Field<int>,
    formats: Field<seq<Format>>,
    entries: Field<seq<Entry>>)

  datatype Extraction = Extracted(info: Info) | ExtractorError

  type Extractor = string -> Extraction

  /** The dictionary the resolver hands back. Every key is always there;
      `url` may hold `None`, and `formats` is `None` only when the extractor
      reported `formats: None`. */
  datatype Descriptor = Descriptor(
    url: Field<string>,
    title: Field<string>,
    channel: Field<string>,
    viewCount: Field<int>,
    isLive: bool,
    formats: Option<seq<Format>>)

  /** `d.get(k)` stored back under a key: a missing key becomes `None`. */
  function Stored<T>(f: Field<T>): (r: Field<T>)
    ensures r.Present()
  {
    if f.Absent? then Null else f
  }

  /** `info.get('formats', [])`. */
  function FormatsOrEmpty(f: Field<seq<Format>>): Option<seq<Format>> {
    match f
    case Absent => Some([])
    case Null => None
    case Value(s) => Some(s)
  }

  /** `x.get('is_live') or x.get('live_status') == 'is_live'`. */
  predicate ReportsLive(isLive: Field<bool>, liveStatus: Field<string>) {
    isLive == Value(true) || liveStatus == Value("is_live")
  }

  predicate EntryLive(e: Entry) {
    ReportsLive(e.isLive, e.liveStatus)
  }

  /** The descriptor built from extractor output once it is taken to be live. */
  function LiveDescriptor(info: Info): (d: Descriptor)
    ensures d.isLive && d.url.Present()
  {
    Descriptor(Stored(info.url), Stored(info.title), Stored(info.channel),
               Stored(info.viewCount), true, FormatsOrEmpty(info.formats))
  }

  // ---------------------------------------------------------------------
  // URL normalisation (`_normalize_channel_url`)
  // ---------------------------------------------------------------------

  /** The four channel URL forms that are returned as they are. */
  predicate IsChannelForm(url: string) {
    || Contains(url, "youtube.com/c/")
    || Contains(url, "youtube.com/channel/")
    || Contains(url, "youtube.com/user/")
    || Contains(url, "youtube.com/@")
  }

  const HandlePrefix := "https://www.youtube.com/@"
  const WatchPrefix := "https://www.youtube.com/watch?v="

  function NormalizeChannelUrl(raw: string): string {
    var url := RStrip(raw, '/');
    if Contains(url, "youtube.com/c/") then url
    else if Contains(url, "youtube.com/channel/") then url
    else if Contains(url, "youtube.com/user/") then url
    else if Contains(url, "youtube.com/@") then url
    else if Contains(url, "youtube.com/") && Contains(url, "/live") then RemoveAll(url, "/live")
    else if Contains(url, "youtu.be/") then WatchPrefix + AfterLast(url, '/')
    else if !StartsWith(url, "http") then HandlePrefix + url
    else url
  }

  /** The case split of the normaliser, in its order: trailing slashes go
      first, the channel forms win over the `/live` rule, short links become
      watch URLs, bare names become handles, anything else is kept. */
  lemma NormalizeCases(raw: string)
    ensures var url := RStrip(raw, '/');
      && (IsChannelForm(url) ==> NormalizeChannelUrl(raw) == url)
      && (!IsChannelForm(url) && Contains(url, "youtube.com/") && Contains(url, "/live") ==>
            NormalizeChannelUrl(raw) == RemoveAll(url, "/live")
            && |NormalizeChannelUrl(raw)| <= |url| - 5)
      && (!IsChannelForm(url) && !(Contains(url, "youtube.com/") && Contains(url, "/live"))
          && Contains(url, "youtu.be/") ==>
            NormalizeChannelUrl(raw) == WatchPrefix + AfterLast(url, '/')
            && '/' !in AfterLast(url, '/'))
      && (!IsChannelForm(url) && !(Contains(url, "youtube.com/") && Contains(url, "/live"))
          && !Contains(url, "youtu.be/") ==>
            NormalizeChannelUrl(raw) == (if StartsWith(url, "http") then url else HandlePrefix + url))
  {
    var url := RStrip(raw, '/');
    if !IsChannelForm(url) && Contains(url, "youtube.com/") && Contains(url, "/live") {
      RemoveAllShrinks(url, "/live");
    }
  }

  /** A URL already in one of the four channel forms is a fixed point. */
  lemma NormalizeChannelFormIsFixed(raw: string)
    requires IsChannelForm(RStrip(raw, '/'))
    ensures NormalizeChannelUrl(raw) == RStrip(raw, '/')
    ensures NormalizeChannelUrl(NormalizeChannelUrl(raw)) == NormalizeChannelUrl(raw)
  {
    RStripIdempotent(raw, '/');
  }

  /** A bare name turned into a handle URL is a fixed point. */
  lemma NormalizeHandleIsFixed(raw: string)
    requires var url := RStrip(raw, '/');
      && !IsChannelForm(url)
      && !(Contains(url, "youtube.com/") && Contains(url, "/live"))
      && !Contains(url, "youtu.be/")
      && !StartsWith(url, "http")
    ensures NormalizeChannelUrl(raw) == HandlePrefix + RStrip(raw, '/')
    ensures NormalizeChannelUrl(NormalizeChannelUrl(raw)) == NormalizeChannelUrl(raw)
  {
    var url := RStrip(raw, '/');
    var out := HandlePrefix + url;
    assert out[|out| - 1] != '/';
    assert RStrip(out, '/') == out;
    HandleUrlIsChannelForm(url);
  }

  lemma HandleUrlIsChannelForm(name: string)
    ensures Contains(HandlePrefix + name, "youtube.com/@")
  {
    var out := HandlePrefix + name;
    assert out[12..12 + |"youtube.com/@"|] == "youtube.com/@";
    ContainsAt(out, "youtube.com/@", 12);
  }

  lemma ContainsTooShort(s: string, p: string)
    requires |s| < |p|
    ensures !Contains(s, p)
  {
  }

  /** Two inputs of the repository's normalisation test: a channel-with-live
      handle keeps its `/live`, and a bare name becomes a handle URL. */
  lemma NormalizeTestInputs()
    ensures NormalizeChannelUrl("https://www.youtube.com/@nasa/live") == "https://www.youtube.com/@nasa/live"
    ensures NormalizeChannelUrl("nasa") == "https://www.youtube.com/@nasa"
  {
    var a := "https://www.youtube.com/@nasa/live";
    assert a == HandlePrefix + "nasa/live";
    assert RStrip(a, '/') == a;
    HandleUrlIsChannelForm("nasa/live");
    NormalizeChannelFormIsFixed(a);
    var b := "nasa";
    assert RStrip(b, '/') == b;
    ContainsTooShort(b, "youtube.com/c/");
    ContainsTooShort(b, "youtube.com/channel/");
    ContainsTooShort(b, "youtube.com/user/");
    ContainsTooShort(b, "youtube.com/@");
    ContainsTooShort(b, "youtube.com/");
    ContainsTooShort(b, "youtu.be/");
    assert !StartsWith(b, "http");
  }

  // ---------------------------------------------------------------------
  // Second tier (`_find_live_stream_alternative`)
  // ---------------------------------------------------------------------

  /** The index of the first entry flagged live. */
  function FirstLive(entries: seq<Entry>): (r: Option<nat>)
    ensures r.Some? ==> r.value < |entries| && EntryLive(entries[r.value])
    ensures r.Some? ==> forall j :: 0 <= j < r.value ==> !EntryLive(entries[j])
    ensures r.None? ==> forall j :: 0 <= j < |entries| ==> !EntryLive(entries[j])
    decreases |entries|
  {
    if entries == [] then None
    else if EntryLive(entries[0]) then Some(0)
    else match FirstLive(entries[1..])
      case None => None
      case Some(k) => Some(k + 1)
  }

  /** `entries[:10]`. */
  function FirstTen(entries: seq<Entry>): (r: seq<Entry>)
    ensures |r| <= 10 && r <= entries
    ensures |entries| <= 10 ==> r == entries
  {
    if |entries| <= 10 then entries else entries[..10]
  }

  /** Re-extracting a live entry's own URL; a missing or `None` URL raises. */
  function EntryDescriptor(extract: Extractor, e: Entry): Option<Descriptor> {
    match e.url
    case Value(u) => (match extract(u)
                      case Extracted(full) => Some(LiveDescriptor(full))
                      case ExtractorError => None)
    case _ => None
  }

  /** What the second tier yields for a channel URL. */
  function AlternativeResult(extract: Extractor, channelUrl: string): Option<Descriptor> {
    match extract(channelUrl)
    case ExtractorError => None
    case Extracted(info) =>
      match info.entries
      case Value(entries) =>
        (match FirstLive(FirstTen(entries))
         case None => None
         case Some(k) => EntryDescriptor(extract, FirstTen(entries)[k]))
      case _ => None
  }

  /** The second tier returns the descriptor of the first live entry among
      the first ten, and nothing when there is no such entry. */
  lemma {:induction false} AlternativeScansFirstTen(extract: Extractor, channelUrl: string)
    ensures var r := AlternativeResult(extract, channelUrl);
      r.Some? ==>
        && r.value.isLive
        && extract(channelUrl).Extracted?
        && extract(channelUrl).info.entries.Value?
        && exists k :: 0 <= k < 10 && k < |extract(channelUrl).info.entries.value|
             && EntryLive(extract(channelUrl).info.entries.value[k])
             && (forall j :: 0 <= j < k ==> !EntryLive(extract(channelUrl).info.entries.value[j]))
             && r == EntryDescriptor(extract, extract(channelUrl).info.entries.value[k])
    ensures extract(channelUrl).Extracted? && extract(channelUrl).info.entries.Value? &&
      (forall j :: 0 <= j < 10 && j < |extract(channelUrl).info.entries.value| ==>
         !EntryLive(extract(channelUrl).info.entries.value[j]))
      ==> AlternativeResult(extract, channelUrl).None?
  {
    var r := AlternativeResult(extract, channelUrl);
    if extract(channelUrl).Extracted? && extract(channelUrl).info.entries.Value? {
      var entries := extract(channelUrl).info.entries.value;
      var scan := FirstTen(entries);
      forall j | 0 <= j < |scan| ensures scan[j] == entries[j] {
      }
      if FirstLive(scan).Some? {
        var k := FirstLive(scan).value;
        assert scan[k] == entries[k];
      }
    }
  }

  method FindLiveStreamAlternative(extract: Extractor, channelUrl: string) returns (r: Option<Descriptor>)
    ensures r == AlternativeResult(extract, channelUrl)
  {
    var probe := extract(channelUrl);
    if probe.ExtractorError? {
      return None;
    }
    if !probe.info.entries.Value? {
      // no 'entries' key, or slicing `None` raises
      return None;
    }
    var scan := FirstTen(probe.info.entries.value);
    var i := 0;
    while i < |scan|
      invariant 0 <= i <= |scan|
      invariant forall j :: 0 <= j < i ==> !EntryLive(scan[j])
    {
      if EntryLive(scan[i]) {
        assert FirstLive(scan) == Some(i) by {
          FirstLiveAt(scan, i);
        }
        var entry := scan[i];
        if !entry.url.Value? {
          return None;
        }
        var full := extract(entry.url.value);
        if full.ExtractorError? {
          return None;
        }
        return Some(LiveDescriptor(full.info));
      }
      i := i + 1;
    }
    FirstLiveNone(scan);
    return None;
  }

  lemma FirstLiveAt(entries: seq<Entry>, i: nat)
    requires i < |entries| && EntryLive(entries[i])
    requires forall j :: 0 <= j < i ==> !EntryLive(entries[j])
    ensures FirstLive(entries) == Some(i)
  {
  }

  lemma FirstLiveNone(entries: seq<Entry>)
    requires forall j :: 0 <= j < |entries| ==> !EntryLive(entries[j])
    ensures FirstLive(entries) == None
  {
  }

  // ---------------------------------------------------------------------
  // First tier (`get_live_stream_url`) and `is_channel_live`
  // ---------------------------------------------------------------------

  /** What the two-tier lookup yields for a channel URL. */
  function LiveStreamResult(extract: Extractor, channelUrl: string): Option<Descriptor> {
    var normalized := NormalizeChannelUrl(channelUrl);
    var probe := extract(normalized + "/live");
    if probe.Extracted? then
      if ReportsLive(probe.info.isLive, probe.info.liveStatus) then Some(LiveDescriptor(probe.info)) else None
    else AlternativeResult(extract, normalized)
  }

  /** The first tier probes `normalized + "/live"`. A live answer gives a
      descriptor, a clean not-live answer gives nothing without any fallback,
      and only an extractor failure runs the second tier on the normalised URL. */
  method GetLiveStreamUrl(extract: Extractor, channelUrl: string) returns (r: Option<Descriptor>)
    ensures var probe := extract(NormalizeChannelUrl(channelUrl) + "/live");
      && (probe.Extracted? && ReportsLive(probe.info.isLive, probe.info.liveStatus) ==>
            r == Some(LiveDescriptor(probe.info)))
      && (probe.Extracted? && !ReportsLive(probe.info.isLive, probe.info.liveStatus) ==> r == None)
      && (probe.ExtractorError? ==> r == AlternativeResult(extract, NormalizeChannelUrl(channelUrl)))
    ensures r.Some? ==> r.value.isLive && r.value.url.Present()
    ensures r == LiveStreamResult(extract, channelUrl)
  {
    var normalized := NormalizeChannelUrl(channelUrl);
    var liveUrl := normalized + "/live";
    var probe := extract(liveUrl);
    if probe.Extracted? {
      if ReportsLive(probe.info.isLive, probe.info.liveStatus) {
        r := Some(LiveDescriptor(probe.info));
      } else {
        r := None;
      }
    } else {
      r := FindLiveStreamAlternative(extract, normalized);
      AlternativeHasLiveDescriptors(extract, normalized);
    }
  }

  lemma AlternativeHasLiveDescriptors(extract: Extractor, channelUrl: string)
    ensures var r := AlternativeResult(extract, channelUrl);
      r.Some? ==> r.value.isLive && r.value.url.Present()
  {
  }

  /** `is_channel_live` holds exactly when the resolver finds a descriptor,
      because every descriptor it builds carries `is_live: True`. */
  method IsChannelLive(extract: Extractor, channelUrl: string) returns (live: bool)
    ensures var probe := extract(NormalizeChannelUrl(channelUrl) + "/live");
      live <==> (if probe.Extracted? then ReportsLive(probe.info.isLive, probe.info.liveStatus)
                 else AlternativeResult(extract, NormalizeChannelUrl(channelUrl)).Some?)
  {
    var info := GetLiveStreamUrl(extract, channelUrl);
    live := info.Some? && info.value.isLive;
  }

  // ---------------------------------------------------------------------
  // Best audio format (`get_stream_formats`, `get_best_audio_format`)
  // ---------------------------------------------------------------------

  /** `get_stream_formats`: the formats the extractor reports, `[]` when it
      fails, and `None` when it reports `formats: None`. */
  function GetStreamFormats(extract: Extractor, streamUrl: string): Option<seq<Format>> {
    match extract(streamUrl)
    case ExtractorError => Some([])
    case Extracted(info) => FormatsOrEmpty(info.formats)
  }

  /** The formats the ranking is applied to: the audio-only ones when there
      are any, otherwise every format with audio. */
  function AudioPool(formats: seq<Format>): seq<Format> {
    var audioOnly := Filter(formats, IsAudioOnly);
    if audioOnly != [] then audioOnly else Filter(formats, HasAudio)
  }

  function BestAudioFormat(formats: seq<Format>): Option<Format> {
    var pool := AudioPool(formats);
    if pool != [] then Some(SortDesc(pool)[0]) else None
  }

  /** `get_best_audio_format`; iterating over `formats: None` raises, which is
      caught and gives `None`. */
  function GetBestAudioFormat(extract: Extractor, streamUrl: string): Option<Format> {
    match GetStreamFormats(extract, streamUrl)
    case None => None
    case Some(formats) => BestAudioFormat(formats)
  }

  /** The best audio format is absent exactly when no format has audio; when
      present it is one of the input formats, has audio, is audio-only
      whenever some format is, and is the earliest of highest rank in the pool
      it was chosen from. */
  lemma {:induction false} BestAudioFormatChoice(formats: seq<Format>)
    ensures BestAudioFormat(formats).None? <==> forall f :: f in formats ==> !HasAudio(f)
    ensures var r := BestAudioFormat(formats);
      r.Some? ==>
        && r.value in formats
        && HasAudio(r.value)
        && ((exists f :: f in formats && IsAudioOnly(f)) ==> IsAudioOnly(r.value))
        && (forall f :: f in AudioPool(formats) ==> Rank(f) <= Rank(r.value))
        && exists k :: IsFirstBest(AudioPool(formats), k) && r.value == AudioPool(formats)[k]
  {
    var pool := AudioPool(formats);
    var audioOnly := Filter(formats, IsAudioOnly);
    if pool != [] {
      SortHeadIsFirstBest(pool);
      SortDescIsSortedPermutation(pool);
      var best := SortDesc(pool)[0];
      assert best in multiset(SortDesc(pool));
      assert best in pool;
      var k :| IsFirstBest(pool, k) && best == pool[k];
      forall f | f in pool ensures Rank(f) <= Rank(best) {
        var j :| 0 <= j < |pool| && pool[j] == f;
      }
      if exists f :: f in formats && IsAudioOnly(f) {
        var f :| f in formats && IsAudioOnly(f);
        assert f in audioOnly;
      }
    } else {
      forall f | f in formats ensures !HasAudio(f) {
        assert f !in Filter(formats, HasAudio);
      }
    }
  }
}
