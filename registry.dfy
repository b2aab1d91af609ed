/** The HTTP surface of serve.py over its `active_streams` dictionary: start a
    stream for a target language, report its status, stream its audio, stop
    it, list the streams, and stop everything at shutdown. An HTTP error is
    the `HTTPException` the endpoint raises. The random id suffix
    (`uuid.uuid4().hex[:8]`) and the clock (`time.time()`) are parameters;
    the background task that runs `start_processing` is not run here. */
module Registry {
  import opened Common
  import opened Processor
  import Framing

  // ---------------------------------------------------------------------
  // Supported languages (`TARGET_LANGUAGES`)
  // ---------------------------------------------------------------------

  /** The URL language key and the language name handed to the translator,
      in the dictionary's order. */
  const TargetLanguages: seq<(string, string)> := [
    ("english", "English (en)"),
    ("tamil", "Tamil (ta)"),
    ("malayalam", "Malayalam (ml)"),
    ("gujarati", "Gujarati (gu)"),
    ("kannada", "Kannada (kn)"),
    ("marathi", "Marathi (mr)"),
    ("japanese", "Japanese (ja)"),
    ("korean", "Korean (ko)"),
    ("hindi", "Hindi (hi)"),
    ("spanish", "Spanish (es)"),
    ("french", "French (fr)"),
    ("german", "German (de)"),
    ("chinese", "Chinese - Simplified (zh-CN)"),
    ("arabic", "Arabic (ar)"),
    ("portuguese", "Portuguese (pt)"),
    ("russian", "Russian (ru)"),
    ("italian", "Italian (it)")
  ]

  function Keys(table: seq<(string, string)>): (r: seq<string>)
    ensures |r| == |table| && forall i :: 0 <= i < |table| ==> r[i] == table[i].0
  {
    seq(|table|, i requires 0 <= i < |table| => table[i].0)
  }

  /** `table[key]` for a key that is present, `None` for one that is not. */
  function Lookup(table: seq<(string, string)>, key: string): (r: Option<string>)
    ensures r.Some? <==> key in Keys(table)
    ensures r.Some? ==> (key, r.value) in table
    decreases |table|
  {
    if table == [] then None
    else if table[0].0 == key then Some(table[0].1)
    else
      var r := Lookup(table[1..], key);
      assert Keys(table) == [table[0].0] + Keys(table[1..]);
      r
  }

  /** Python's `repr` of a list of strings with no quote in them. */
  function ListRepr(items: seq<string>): string {
    "[" + QuotedItems(items) + "]"
  }

  function QuotedItems(items: seq<string>): string
    decreases |items|
  {
    if items == [] then ""
    else if |items| == 1 then "'" + items[0] + "'"
    else "'" + items[0] + "', " + QuotedItems(items[1..])
  }

  /** The 400 detail for an unknown language key. */
  function UnsupportedDetail(table: seq<(string, string)>, language: string): string {
    "Unsupported language: " + language + ". Supported languages: " + ListRepr(Keys(table))
  }

  const NotFoundDetail := "Stream not found"

  // ---------------------------------------------------------------------
  // Requests and responses
  // ---------------------------------------------------------------------

  /** The body of `POST /start/{language}`. */
  datatype StreamRequest = StreamRequest(youtubeUrl: string, chunkDuration: int, quality: string,
                                         transcriberModel: string, originLanguage: string)

  /** A request that gives only the URL takes the model's defaults. */
  function DefaultRequest(youtubeUrl: string): StreamRequest {
    StreamRequest(youtubeUrl, 30, "audio_only", "base", "Automatic detection")
  }

  datatype HttpError = HttpError(statusCode: int, detail: string)

  datatype StartResponse = StartResponse(streamId: string, language: string, targetLanguage: string,
                                         youtubeUrl: string, status: string, websocketUrl: string,
                                         statusUrl: string)

  /** The `StreamStatus` model. */
  datatype StatusReport = StatusReport(streamId: string, status: string, targetLanguage: string,
                                       youtubeUrl: string, chunksProcessed: int, totalDuration: int,
                                       errorMessage: Option<string>)

  /** One item of `GET /streams`. */
  datatype StreamSummary = StreamSummary(streamId: string, language: string, targetLanguage: string,
                                         status: string, chunksProcessed: int, totalDuration: int,
                                         createdAt: real)

  /** One value of `active_streams`. */
  datatype StreamEntry = StreamEntry(processor: LiveStreamProcessor, language: string, createdAt: real)

  /** Python's `del d[k]` on the key order of a dictionary. */
  function Without(ids: seq<string>, id: string): (r: seq<string>)
    ensures forall x :: x in r <==> x in ids && x != id
    ensures |r| <= |ids|
    decreases |ids|
  {
    if ids == [] then []
    else if ids[0] == id then Without(ids[1..], id)
    else [ids[0]] + Without(ids[1..], id)
  }

  /** Each key listed once. */
  predicate Distinct(ids: seq<string>) {
    forall i, j :: 0 <= i < j < |ids| ==> ids[i] != ids[j]
  }

  lemma {:induction false} WithoutKeepsDistinct(ids: seq<string>, id: string)
    requires Distinct(ids)
    ensures Distinct(Without(ids, id))
    decreases |ids|
  {
    if ids != [] {
      WithoutKeepsDistinct(ids[1..], id);
      var rest := Without(ids[1..], id);
      assert ids[0] !in rest by {
        assert ids[0] !in ids[1..];
      }
      if ids[0] != id {
        var r := [ids[0]] + rest;
        assert Without(ids, id) == r;
        forall i, j | 0 <= i < j < |r|
          ensures r[i] != r[j]
        {
          if i == 0 {
            assert r[j] == rest[j - 1] && rest[j - 1] in rest;
          } else {
            assert r[i] == rest[i - 1] && r[j] == rest[j - 1];
          }
        }
      }
    }
  }

  // ---------------------------------------------------------------------
  // The registry
  // ---------------------------------------------------------------------

  class StreamRegistry {
    /** `TARGET_LANGUAGES`. */
    const languages: seq<(string, string)>
    /** The keys of `active_streams`, in insertion order. */
    var order: seq<string>
    var streams: map<string, StreamEntry>

    ghost function Processors(): set<LiveStreamProcessor>
      reads this
    {
      set id | id in streams :: streams[id].processor
    }

    /** The key order lists each stored stream exactly once, and every
        stream has a processor of its own. */
    ghost predicate Valid()
      reads this
    {
      && (forall id :: id in streams <==> id in order)
      && Distinct(order)
      && (forall a, b :: a in streams && b in streams && a != b ==> streams[a].processor != streams[b].processor)
    }

    constructor()
      ensures Valid() && order == [] && streams == map[] && languages == TargetLanguages
    {
      languages := TargetLanguages;
      order := [];
      streams := map[];
    }

    /** `GET /status/{stream_id}`. */
    function GetStreamStatus(id: string): (r: Result<StatusReport, HttpError>)
      reads this, Processors()
      ensures r.Err? <==> id !in streams
      ensures r.Err? ==> r.error == HttpError(404, NotFoundDetail)
      ensures r.Ok? ==> r.value.streamId == id
    {
      if id !in streams then Err(HttpError(404, NotFoundDetail))
      else
        var p := streams[id].processor;
        Ok(StatusReport(id, StatusText(p.status), p.targetLanguage, p.youtubeUrl,
                        p.chunksProcessed, p.totalDuration, p.errorMessage))
    }

    /** The row of `GET /streams` for a stored stream. */
    function Summary(id: string): (r: StreamSummary)
      requires id in streams
      reads this, streams[id].processor
      ensures r.streamId == id && r.language == streams[id].language && r.createdAt == streams[id].createdAt
      ensures r.targetLanguage == streams[id].processor.targetLanguage
      ensures r.chunksProcessed == streams[id].processor.chunksProcessed
      ensures r.totalDuration == streams[id].processor.totalDuration
      ensures r.status == StatusText(streams[id].processor.status)
    {
      var p := streams[id].processor;
      StreamSummary(id, streams[id].language, p.targetLanguage, StatusText(p.status),
                    p.chunksProcessed, p.totalDuration, streams[id].createdAt)
    }

    /** The summaries of `ids`, in that order. */
    function Summaries(ids: seq<string>): (r: seq<StreamSummary>)
      requires forall id :: id in ids ==> id in streams
      reads this, Processors()
      ensures |r| == |ids|
      ensures forall i :: 0 <= i < |ids| ==>
        && r[i].streamId == ids[i]
        && r[i].language == streams[ids[i]].language
        && r[i].createdAt == streams[ids[i]].createdAt
        && r[i].targetLanguage == streams[ids[i]].processor.targetLanguage
        && r[i].chunksProcessed == streams[ids[i]].processor.chunksProcessed
        && r[i].totalDuration == streams[ids[i]].processor.totalDuration
        && r[i].status == StatusText(streams[ids[i]].processor.status)
      decreases |ids|
    {
      if ids == [] then []
      else Summaries(ids[..|ids| - 1]) + [Summary(ids[|ids| - 1])]
    }

    /** `POST /start/{language}`: an unknown language is a 400 that names the
        supported keys; otherwise a new processor in "starting" is stored
        under `{language}_{suffix}` (replacing one already stored there, whose
        key keeps its place) and described in the response. */
    method StartTranslationStream(language: string, request: StreamRequest, suffix: string, createdAt: real)
      returns (r: Result<StartResponse, HttpError>)
      requires Valid()
      modifies this
      ensures Valid()
      ensures Lookup(languages, language).None? ==>
        && r == Err(HttpError(400, UnsupportedDetail(languages, language)))
        && streams == old(streams) && order == old(order)
      ensures Lookup(languages, language).Some? ==>
        var id := language + "_" + suffix;
        var target := Lookup(languages, language).value;
        && r == Ok(StartResponse(id, language, target, request.youtubeUrl, "starting",
                                 "/stream/" + id, "/status/" + id))
        && id in streams && fresh(streams[id].processor)
        && streams[id].language == language && streams[id].createdAt == createdAt
        && streams[id].processor.chunkDuration == request.chunkDuration
        && GetStreamStatus(id) == Ok(StatusReport(id, "starting", target, request.youtubeUrl, 0, 0, None))
        && (forall other :: other != id ==> (other in streams <==> other in old(streams)))
        && (forall other :: other != id && other in streams ==> streams[other] == old(streams)[other])
        && order == (if id in old(streams) then old(order) else old(order) + [id])
    {
      var target := Lookup(languages, language);
      if target.None? {
        return Err(HttpError(400, UnsupportedDetail(languages, language)));
      }
      var id := language + "_" + suffix;
      var p := new LiveStreamProcessor(id, request.youtubeUrl, target.value, request.chunkDuration,
                                       request.transcriberModel, request.originLanguage);
      if id !in streams {
        order := order + [id];
      }
      streams := streams[id := StreamEntry(p, language, createdAt)];
      r := Ok(StartResponse(id, language, target.value, request.youtubeUrl, "starting",
                            "/stream/" + id, "/status/" + id));
    }

    /** `POST /stop/{stream_id}`: a 404 for an unknown id; otherwise the
        processor is stopped and the id is dropped, so its status is a 404
        from then on. */
    method StopTranslationStream(id: string) returns (r: Result<string, HttpError>)
      requires Valid()
      modifies this, if id in streams then {streams[id].processor} else {}
      ensures Valid()
      ensures id !in old(streams) ==>
        r == Err(HttpError(404, NotFoundDetail)) && streams == old(streams) && order == old(order)
      ensures id in old(streams) ==>
        var p := old(streams[id].processor);
        && r == Ok("Stream " + id + " stopped successfully")
        && streams == old(streams) - {id} && order == Without(old(order), id)
        && p.stopFlag && p.status == Stopped
        && p.chunksProcessed == old(p.chunksProcessed) && p.totalDuration == old(p.totalDuration)
        && p.errorMessage == old(p.errorMessage) && p.audioQueue == old(p.audioQueue)
        && p.streamInfo == old(p.streamInfo) && p.inFlight == old(p.inFlight)
        && GetStreamStatus(id) == Err(HttpError(404, NotFoundDetail))
      ensures forall other :: other in streams ==> unchanged(streams[other].processor)
    {
      if id !in streams {
        return Err(HttpError(404, NotFoundDetail));
      }
      var p := streams[id].processor;
      p.Stop();
      WithoutKeepsDistinct(order, id);
      streams := streams - {id};
      order := Without(order, id);
      r := Ok("Stream " + id + " stopped successfully");
    }

    /** `GET /stream/{stream_id}`: a 404 for an unknown id; otherwise the
        body the audio generator writes in `rounds` rounds. */
    method StreamTranslatedAudio(id: string, rounds: nat) returns (r: Result<seq<Bytes>, HttpError>)
      requires Valid()
      modifies if id in streams then {streams[id].processor} else {}
      ensures Valid()
      ensures streams == old(streams) && order == old(order)
      ensures id !in streams ==> r == Err(HttpError(404, NotFoundDetail))
      ensures id in streams ==>
        var p := streams[id].processor;
        var live := old(p.status) == Active && !old(p.stopFlag);
        r == Ok(if live then Framing.PiecesOf(Framing.StreamFrames(old(p.audioQueue), rounds)) else [])
      ensures forall other :: other in streams && other != id ==> unchanged(streams[other].processor)
    {
      if id !in streams {
        return Err(HttpError(404, NotFoundDetail));
      }
      var p := streams[id].processor;
      var out := Framing.GenerateAudio(p, rounds);
      r := Ok(out);
    }

    /** `GET /streams`: one summary per stream in key order, and their
        number. */
    method ListActiveStreams() returns (items: seq<StreamSummary>, count: nat)
      requires Valid()
      ensures items == Summaries(order)
      ensures count == |streams| && count == |items|
    {
      items := [];
      var i := 0;
      while i < |order|
        invariant 0 <= i <= |order|
        invariant items == Summaries(order[..i])
      {
        assert order[..i + 1] == order[..i] + [order[i]];
        items := items + [Summary(order[i])];
        i := i + 1;
      }
      assert order[..|order|] == order;
      DistinctKeysCount(order, streams);
      count := |items|;
    }

    /** `shutdown`: every stored processor is stopped, then the dictionary is
        cleared. Counters and queues are left as they were. */
    method Shutdown()
      requires Valid()
      modifies this, Processors()
      ensures Valid() && streams == map[] && order == []
      ensures forall p :: p in old(Processors()) ==>
        && p.stopFlag && p.status == Stopped
        && p.chunksProcessed == old(p.chunksProcessed) && p.totalDuration == old(p.totalDuration)
        && p.errorMessage == old(p.errorMessage) && p.audioQueue == old(p.audioQueue)
        && p.streamInfo == old(p.streamInfo) && p.inFlight == old(p.inFlight)
    {
      var ids := order;
      var i := 0;
      while i < |ids|
        invariant 0 <= i <= |ids|
        invariant streams == old(streams) && order == old(order) && ids == order
        invariant forall j :: 0 <= j < i ==> streams[ids[j]].processor.stopFlag
        invariant forall j :: 0 <= j < i ==> streams[ids[j]].processor.status == Stopped
        invariant forall p :: p in old(Processors()) ==>
          && p.chunksProcessed == old(p.chunksProcessed) && p.totalDuration == old(p.totalDuration)
          && p.errorMessage == old(p.errorMessage) && p.audioQueue == old(p.audioQueue)
          && p.streamInfo == old(p.streamInfo) && p.inFlight == old(p.inFlight)
      {
        var p := streams[ids[i]].processor;
        p.Stop();
        i := i + 1;
      }
      streams := map[];
      order := [];
    }
  }

  /** Distinct keys listed once each: as many keys as stored streams. */
  lemma {:induction false} DistinctKeysCount(ids: seq<string>, m: map<string, StreamEntry>)
    requires forall id :: id in m <==> id in ids
    requires Distinct(ids)
    ensures |m| == |ids|
    decreases |ids|
  {
    if ids != [] {
      var last := ids[|ids| - 1];
      var init := ids[..|ids| - 1];
      assert last !in init;
      DistinctKeysCount(init, m - {last});
    } else {
      assert m.Keys == {};
    }
  }

  /** The table holds seventeen languages, and no key occurs twice. */
  lemma TargetLanguagesAreDistinct()
    ensures |TargetLanguages| == 17
    ensures forall i, j :: 0 <= i < j < |TargetLanguages| ==> TargetLanguages[i].0 != TargetLanguages[j].0
  {
  }
}
