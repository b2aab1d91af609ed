/** The per-stream state machine of serve.py (`LiveStreamProcessor`): it
    resolves the live source, picks a stream URL from the format list, cuts the
    decoded PCM pipe into fixed-size chunks, and queues translated chunks for
    delivery. The decoder, the translator and the clock are parameters: the
    decoder started on a URL fails or yields the blocks its reads return, a
    translation is the bytes it produced or nothing, and a timestamp is the
    text it was written as.
    A `stop()` arriving while the stream is read is placed by `stopAt`, the
    number of reads that complete before it. */
module Processor {
  import opened Common
  import opened FormatRanking
  import StreamGrabber

  datatype Status = Starting | Active | Stopped | Error

  /** The `status` strings the service reports. */
  function StatusText(s: Status): string {
    match s
    case Starting => "starting"
    case Active => "active"
    case Stopped => "stopped"
    case Error => "error"
  }

  /** One item of `audio_queue`. */
  datatype QueuedChunk = QueuedChunk(chunkId: int, audioData: Bytes, timestamp: string)

  /** The decoder writes mono 16-bit PCM at 16 kHz; one read asks for at most
      this many bytes. */
  const SampleRate := 16000
  const ReadSize := 4096

  /** `16000 * chunk_duration` samples, two bytes each. */
  function ChunkBytes(chunkDuration: int): int {
    SampleRate * chunkDuration * 2
  }

  const NoStreamMessage := "No live stream found at the provided URL"
  const NoneLengthMessage := "object of type 'NoneType' has no len()"
  const MissingUrlMessage := "Invalid stream info: missing URL"
  const NotIterableMessage := "argument of type 'NoneType' is not iterable"
  const AudioMissingUrlMessage := "Audio format missing URL"
  const FallbackMissingUrlMessage := "Fallback format missing URL"
  const NoUrlFormatMessage := "No valid formats with URL found"
  const NoAudioMessage := "No audio format available"
  /** `str(KeyError('url'))`. */
  const UrlKeyErrorMessage := "'url'"
  /** The `TypeError` that starting a process with a `None` argument raises. */
  const NoneUrlMessage := "expected str, bytes or os.PathLike object, not NoneType"

  // ---------------------------------------------------------------------
  // Start (`start_processing`)
  // ---------------------------------------------------------------------

  /** Why `start_processing` gives up on a resolved descriptor, if it does:
      no descriptor; `len(None)` while logging the formats; no `'url'` key. */
  function StartRejection(info: Option<StreamGrabber.Descriptor>): Option<string> {
    if info.None? then Some(NoStreamMessage)
    else if info.value.formats.None? then Some(NoneLengthMessage)
    else if !info.value.url.Present() then Some(MissingUrlMessage)
    else None
  }

  /** The resolver always stores a `'url'` key, so the missing-URL rejection
      never happens for a descriptor it returns. */
  lemma ResolvedDescriptorsHaveUrlKey(extract: StreamGrabber.Extractor, url: string)
    ensures StartRejection(StreamGrabber.LiveStreamResult(extract, url)) != Some(MissingUrlMessage)
  {
    var info := StreamGrabber.LiveStreamResult(extract, url);
    if info.Some? {
      StreamGrabber.AlternativeHasLiveDescriptors(extract, StreamGrabber.NormalizeChannelUrl(url));
      assert info.value.url.Present();
    }
  }

  // ---------------------------------------------------------------------
  // Stream URL choice (`_process_stream`, first part)
  // ---------------------------------------------------------------------

  /** `f['url']` after the check `'url' in f`: a missing key is the error
      `missing`, and a key holding `None` gives a `None` URL. */
  function PickUrl(f: Format, missing: string): (r: Result<Option<string>, string>)
    ensures r.Err? <==> !f.url.Present()
    ensures r.Ok? ==> r.value == f.url.Get()
  {
    if !f.url.Present() then Err(missing) else Ok(f.url.Get())
  }

  /** The URL `_process_stream` hands to the decoder, or the message of the
      exception it raises. A non-empty format list is ranked; otherwise the
      best audio format of the descriptor's own URL is fetched again. */
  function SelectStreamUrl(info: Option<StreamGrabber.Descriptor>, extract: StreamGrabber.Extractor)
    : Result<Option<string>, string>
  {
    if info.None? then Err(NotIterableMessage)
    else if info.value.formats.Some? && info.value.formats.value != [] then
      var formats := info.value.formats.value;
      var audio := Filter(formats, HasAudio);
      if audio != [] then
        SortDescKeeps(audio);
        PickUrl(SortDesc(audio)[0], AudioMissingUrlMessage)
      else
        var fallback := Filter(formats, f => HasAudio(f));
        if fallback != [] then PickUrl(fallback[0], FallbackMissingUrlMessage)
        else
          var urlFormats := Filter(formats, HasUrlKey);
          if urlFormats != [] then Ok(urlFormats[0].url.Get())
          else Err(NoUrlFormatMessage)
    else
      if info.value.url.Absent? then Err(UrlKeyErrorMessage)
      else
      var best := if info.value.url.Value? then StreamGrabber.GetBestAudioFormat(extract, info.value.url.value)
                  else None;
      if best.None? then Err(NoAudioMessage)
      else if !best.value.url.Present() then Err(UrlKeyErrorMessage)
      else Ok(best.value.url.Get())
  }

  /** With a non-empty format list that has audio, the URL is that of the
      earliest audio format of highest rank, and the step fails exactly when
      that format has no `'url'` key. */
  lemma SelectRanksAudioFormats(d: StreamGrabber.Descriptor, extract: StreamGrabber.Extractor) returns (k: nat)
    requires d.formats.Some? && exists f :: f in d.formats.value && HasAudio(f)
    ensures var audio := Filter(d.formats.value, HasAudio);
      && IsFirstBest(audio, k)
      && SelectStreamUrl(Some(d), extract) == PickUrl(audio[k], AudioMissingUrlMessage)
  {
    var formats := d.formats.value;
    var audio := Filter(formats, HasAudio);
    var f :| f in formats && HasAudio(f);
    assert f in audio;
    SortHeadIsFirstBest(audio);
    k :| IsFirstBest(audio, k) && SortDesc(audio)[0] == audio[k];
    assert SelectStreamUrl(Some(d), extract) == PickUrl(SortDesc(audio)[0], AudioMissingUrlMessage);
    assert IsFirstBest(audio, k) && SelectStreamUrl(Some(d), extract) == PickUrl(audio[k], AudioMissingUrlMessage);
  }

  /** The second filter repeats the first, so the "Fallback format missing
      URL" branch is never taken; without audio formats the first format that
      has a `'url'` key is used, and the step fails when there is none. */
  lemma FallbackBranchUnreachable(d: StreamGrabber.Descriptor, extract: StreamGrabber.Extractor)
    requires d.formats.Some? && d.formats.value != []
    requires forall f :: f in d.formats.value ==> !HasAudio(f)
    ensures SelectStreamUrl(Some(d), extract) ==
      var urlFormats := Filter(d.formats.value, HasUrlKey);
      if urlFormats != [] then Ok(urlFormats[0].url.Get()) else Err(NoUrlFormatMessage)
    ensures SelectStreamUrl(Some(d), extract) != Err(FallbackMissingUrlMessage)
  {
    FilterNone(d.formats.value, HasAudio);
    FilterNone(d.formats.value, f => HasAudio(f));
  }

  /** The URL taken from a ranked list belongs to one of the listed formats. */
  lemma SelectedUrlIsListed(d: StreamGrabber.Descriptor, extract: StreamGrabber.Extractor)
    requires d.formats.Some? && d.formats.value != []
    ensures var r := SelectStreamUrl(Some(d), extract);
      r.Ok? ==> exists f :: f in d.formats.value && f.url.Present() && r.value == f.url.Get()
  {
    var formats := d.formats.value;
    var audio := Filter(formats, HasAudio);
    if audio != [] {
      SortDescKeeps(audio);
      var best := SortDesc(audio)[0];
      assert best in multiset(SortDesc(audio));
      assert best in formats;
    } else {
      var urlFormats := Filter(formats, HasUrlKey);
      if urlFormats != [] {
        assert urlFormats[0] in urlFormats;
      }
    }
  }

  // ---------------------------------------------------------------------
  // Chunking (`_process_stream`, the read loop)
  // ---------------------------------------------------------------------

  /** The cut position of Python's `b[:n]` and `b[n:]`: a negative `n`
      counts from the end, and both are clamped to the bytes present. */
  function SliceIndex(len: nat, n: int): (r: nat)
    ensures r <= len
  {
    if n >= 0 then (if n <= len then n else len)
    else if len + n >= 0 then len + n else 0
  }

  /** `b[:n]`. */
  function Head(b: Bytes, n: int): Bytes {
    b[..SliceIndex(|b|, n)]
  }

  /** `b[n:]`. */
  function Tail(b: Bytes, n: int): Bytes {
    b[SliceIndex(|b|, n)..]
  }

  /** The chunks sliced off so far and the bytes still buffered. */
  datatype Sliced = Sliced(chunks: seq<Bytes>, buffer: Bytes)

  /** One pass of the loop body after a non-empty read: append the read, and
      slice off one chunk of `size` bytes when the buffer holds that many. */
  function AfterRead(s: Sliced, read: Bytes, size: int): Sliced {
    var buffer := s.buffer + read;
    if |buffer| >= size then Sliced(s.chunks + [Head(buffer, size)], Tail(buffer, size))
    else Sliced(s.chunks, buffer)
  }

  /** The loop's state after the pipe returned `blocks`, starting from an empty
      buffer. */
  function Chunking(blocks: seq<Bytes>, size: int): Sliced
    decreases |blocks|
  {
    if blocks == [] then Sliced([], [])
    else AfterRead(Chunking(blocks[..|blocks| - 1], size), blocks[|blocks| - 1], size)
  }

  lemma ChunkingSnoc(blocks: seq<Bytes>, read: Bytes, size: int)
    ensures Chunking(blocks + [read], size) == AfterRead(Chunking(blocks, size), read, size)
  {
    assert (blocks + [read])[..|blocks|] == blocks;
  }

  lemma ChunkingNext(blocks: seq<Bytes>, k: nat, size: int)
    requires k < |blocks|
    ensures Chunking(blocks[..k + 1], size) == AfterRead(Chunking(blocks[..k], size), blocks[k], size)
  {
    assert blocks[..k + 1] == blocks[..k] + [blocks[k]];
    ChunkingSnoc(blocks[..k], blocks[k], size);
  }

  /** No gap and no overlap: the sliced chunks, in order, followed by the
      buffer, are exactly the bytes read. */
  lemma {:induction false} ChunkingPartition(blocks: seq<Bytes>, size: int)
    ensures Flatten(Chunking(blocks, size).chunks) + Chunking(blocks, size).buffer == Flatten(blocks)
    decreases |blocks|
  {
    if blocks != [] {
      var prior := blocks[..|blocks| - 1];
      var read := blocks[|blocks| - 1];
      var s := Chunking(prior, size);
      ChunkingPartition(prior, size);
      AfterReadPartition(s, read, size);
      assert Chunking(blocks, size) == AfterRead(s, read, size);
      assert Flatten(blocks) == Flatten(prior) + read;
    }
  }

  /** One pass keeps the bytes in order: what was sliced and buffered before,
      followed by the read, is what is sliced and buffered after. */
  lemma AfterReadPartition(s: Sliced, read: Bytes, size: int)
    ensures Flatten(AfterRead(s, read, size).chunks) + AfterRead(s, read, size).buffer
         == Flatten(s.chunks) + s.buffer + read
  {
    var buffer := s.buffer + read;
    if |buffer| >= size {
      var h, t := Head(buffer, size), Tail(buffer, size);
      FlattenSnoc(s.chunks, h);
      calc {
        Flatten(s.chunks + [h]) + t;
        Flatten(s.chunks) + h + t;
        { assert h + t == buffer; }
        Flatten(s.chunks) + (s.buffer + read);
      }
    }
  }

  /** At most one chunk is sliced per read, and exactly one per read when the
      chunk size is not positive. */
  lemma {:induction false} ChunkingCount(blocks: seq<Bytes>, size: int)
    ensures |Chunking(blocks, size).chunks| <= |blocks|
    ensures size <= 0 ==> |Chunking(blocks, size).chunks| == |blocks|
    decreases |blocks|
  {
    if blocks != [] {
      ChunkingCount(blocks[..|blocks| - 1], size);
    }
  }

  /** Every chunk has exactly the chunk size when that size is not negative. */
  lemma {:induction false} ChunkingSizes(blocks: seq<Bytes>, size: int)
    requires size >= 0
    ensures forall k :: 0 <= k < |Chunking(blocks, size).chunks| ==> |Chunking(blocks, size).chunks[k]| == size
    decreases |blocks|
  {
    if blocks != [] {
      ChunkingSizes(blocks[..|blocks| - 1], size);
    }
  }

  /** With a chunk of at least one read's worth of bytes (a `chunk_duration`
      of one second or more), the buffer never holds a whole chunk after a
      pass, so no backlog builds up. */
  lemma {:induction false} ChunkingBufferBound(blocks: seq<Bytes>, size: int)
    requires size >= ReadSize
    requires forall k :: 0 <= k < |blocks| ==> |blocks[k]| <= ReadSize
    ensures |Chunking(blocks, size).buffer| < size
    decreases |blocks|
  {
    if blocks != [] {
      ChunkingBufferBound(blocks[..|blocks| - 1], size);
    }
  }

  /** With no read larger than a chunk, the buffer never holds a whole chunk
      after a pass. */
  lemma {:induction false} ChunkingBufferBelowSize(blocks: seq<Bytes>, size: int)
    requires size > 0
    requires forall k :: 0 <= k < |blocks| ==> |blocks[k]| <= size
    ensures |Chunking(blocks, size).buffer| < size
    decreases |blocks|
  {
    if blocks != [] {
      ChunkingBufferBelowSize(blocks[..|blocks| - 1], size);
    }
  }

  /** Blocks of one common length flatten to that length times their number. */
  lemma {:induction false} FlattenUniform(chunks: seq<Bytes>, size: int)
    requires forall k :: 0 <= k < |chunks| ==> |chunks[k]| == size
    ensures |Flatten(chunks)| == |chunks| * size
    decreases |chunks|
  {
    if chunks != [] {
      var n := |chunks| - 1;
      FlattenUniform(chunks[..n], size);
      MulStep(n, size);
    }
  }

  /** The number of chunks cut is the number of whole chunks in the bytes
      read, when no read is larger than a chunk: the loop keeps up with the
      pipe. */
  lemma ChunkCountIsQuotient(blocks: seq<Bytes>, size: int)
    requires size > 0
    requires forall k :: 0 <= k < |blocks| ==> |blocks[k]| <= size
    ensures |Chunking(blocks, size).chunks| == |Flatten(blocks)| / size
  {
    var s := Chunking(blocks, size);
    ChunkingPartition(blocks, size);
    ChunkingSizes(blocks, size);
    FlattenUniform(s.chunks, size);
    ChunkingBufferBelowSize(blocks, size);
    assert |Flatten(blocks)| == |s.chunks| * size + |s.buffer|;
    QuotientOf(|Flatten(blocks)|, |s.chunks|, |s.buffer|, size);
  }

  lemma QuotientOf(total: int, q: int, r: int, size: int)
    requires size > 0 && 0 <= r < size && total == q * size + r
    ensures total / size == q
  {
    var d, m := total / size, total % size;
    assert total == d * size + m && 0 <= m < size;
    if d > q {
      MulLe(q + 1, d, size);
      MulStep(q, size);
    } else if d < q {
      MulLe(d + 1, q, size);
      MulStep(d, size);
    }
  }

  lemma MulLe(a: int, b: int, size: int)
    requires a <= b && size > 0
    ensures a * size <= b * size
  {
    assert b * size - a * size == (b - a) * size;
  }

  /** The index of the first empty read (end of the pipe), or the number of
      reads when none is empty. */
  function FirstEmpty(blocks: seq<Bytes>): (r: nat)
    ensures r <= |blocks|
    ensures forall j :: 0 <= j < r ==> blocks[j] != []
    ensures r < |blocks| ==> blocks[r] == []
    decreases |blocks|
  {
    if blocks == [] then 0
    else if blocks[0] == [] then 0
    else 1 + FirstEmpty(blocks[1..])
  }

  /** Whether the `stop()` placed after `stopAt` reads is reached before the
      pipe ends; when the flag is already set only one placed before the
      first check is. */
  predicate StopLands(blocks: seq<Bytes>, stopAt: nat, flagSet: bool) {
    if flagSet then stopAt == 0 else stopAt <= FirstEmpty(blocks)
  }

  /** The number of reads the loop consumes. */
  function Consumed(blocks: seq<Bytes>, stopAt: nat, flagSet: bool): (n: nat)
    ensures n <= |blocks|
  {
    if flagSet then 0 else if stopAt <= FirstEmpty(blocks) then stopAt else FirstEmpty(blocks)
  }

  /** Where the read loop leaves off: it has consumed `k` non-empty reads
      and stops there because the stop flag is up (set before the run, or
      by the `stop()` placed at `k`) or because the read at `k` is empty. */
  lemma ReadEnds(blocks: seq<Bytes>, stopAt: nat, flagSet: bool, k: nat)
    requires k <= |blocks|
    requires forall j :: 0 <= j < k ==> blocks[j] != []
    requires !flagSet ==> k <= stopAt
    requires flagSet ==> k == 0
    requires flagSet || k == stopAt || k == |blocks| || blocks[k] == []
    ensures k == Consumed(blocks, stopAt, flagSet)
    ensures StopLands(blocks, stopAt, flagSet) == (k == stopAt)
  {
    assert k <= FirstEmpty(blocks);
  }

  /** The decoder (`ffmpeg ... .run_async`) started on a stream URL: it fails
      to start with a message, or its reads return `blocks` in turn, after
      which the next read raises `readError` when there is one and comes back
      empty otherwise. */
  datatype Decoder = LaunchFailed(launchError: string) | Pipe(blocks: seq<Bytes>, readError: Option<string>)

  type Launcher = string -> Decoder

  /** Whether the loop gets as far as the read that raises: nobody stops it
      and every read before it returned bytes. */
  predicate ReadFails(blocks: seq<Bytes>, readError: Option<string>, stopAt: nat, flagSet: bool) {
    readError.Some? && !flagSet && FirstEmpty(blocks) == |blocks| && |blocks| < stopAt
  }

  /** What one run of `_process_stream` does: it ends in an exception with a
      message after dispatching `chunks`, or it dispatches `chunks` and is or
      is not stopped. */
  datatype RunOutcome = Failed(message: string, chunks: seq<Bytes>) | Ran(chunks: seq<Bytes>, stopped: bool)

  /** The read loop over a started decoder. */
  function PipeRun(blocks: seq<Bytes>, readError: Option<string>, stopAt: nat, flagSet: bool, size: int): RunOutcome {
    var chunks := Chunking(blocks[..Consumed(blocks, stopAt, flagSet)], size).chunks;
    if ReadFails(blocks, readError, stopAt, flagSet) then Failed(readError.value, chunks)
    else Ran(chunks, StopLands(blocks, stopAt, flagSet))
  }

  /** `_process_stream` as a whole: choose the URL, start the decoder on it,
      read. A `None` URL makes starting the process raise. */
  function StreamRun(info: Option<StreamGrabber.Descriptor>, extract: StreamGrabber.Extractor,
                     launch: Launcher, stopAt: nat, flagSet: bool, chunkDuration: int): RunOutcome
  {
    match SelectStreamUrl(info, extract)
    case Err(e) => Failed(e, [])
    case Ok(None) => Failed(NoneUrlMessage, [])
    case Ok(Some(url)) =>
      match launch(url)
      case LaunchFailed(e) => Failed(e, [])
      case Pipe(blocks, readError) => PipeRun(blocks, readError, stopAt, flagSet, ChunkBytes(chunkDuration))
  }

  /** A format that has audio and stores `None` under `'url'` passes every
      check of the URL choice; starting the decoder on its `None` URL raises,
      so the run ends in "error". */
  lemma NoneUrlIsAnError(d: StreamGrabber.Descriptor, extract: StreamGrabber.Extractor, launch: Launcher,
                         stopAt: nat, flagSet: bool, chunkDuration: int)
    requires d.formats == Some([Format(Value("mp4a"), Absent, Null, Null, Null)])
    ensures SelectStreamUrl(Some(d), extract) == Ok(None)
    ensures StreamRun(Some(d), extract, launch, stopAt, flagSet, chunkDuration) == Failed(NoneUrlMessage, [])
  {
    assert d.formats.value[0] in d.formats.value && HasAudio(d.formats.value[0]);
    var k := SelectRanksAudioFormats(d, extract);
    assert Filter(d.formats.value, HasAudio) == d.formats.value;
  }

  /** A run whose stop flag was set before it began reads nothing, so no read
      can fail; it counts as stopped only when a `stop()` lands first. */
  lemma StoppedRunReadsNothing(blocks: seq<Bytes>, readError: Option<string>, stopAt: nat, size: int)
    ensures PipeRun(blocks, readError, stopAt, true, size) == Ran([], stopAt == 0)
  {
    assert blocks[..0] == [];
  }

  /** An empty read ends a run that nobody stops, and the run is not marked
      stopped: its status stays as it was. */
  lemma EndOfPipeIsNotStop(blocks: seq<Bytes>, readError: Option<string>, stopAt: nat, size: int)
    requires FirstEmpty(blocks) < stopAt
    requires FirstEmpty(blocks) < |blocks| || readError.None?
    ensures PipeRun(blocks, readError, stopAt, false, size)
         == Ran(Chunking(blocks[..FirstEmpty(blocks)], size).chunks, false)
  {
  }

  /** A read that raises ends the run in an exception, and the chunks cut
      from the reads before it stay dispatched and counted. */
  lemma ReadFailureKeepsChunks(blocks: seq<Bytes>, message: string, stopAt: nat, size: int)
    requires forall j :: 0 <= j < |blocks| ==> blocks[j] != []
    requires |blocks| < stopAt
    ensures PipeRun(blocks, Some(message), stopAt, false, size) == Failed(message, Chunking(blocks, size).chunks)
  {
    assert blocks[..|blocks|] == blocks;
  }

  // ---------------------------------------------------------------------
  // The processor
  // ---------------------------------------------------------------------

  /** Queue items carry counter values, so they never exceed the counter and,
      the counter never going down, they appear in non-decreasing order. */
  ghost predicate QueueOrdered(queue: seq<QueuedChunk>, counter: int) {
    && (forall i :: 0 <= i < |queue| ==> 0 <= queue[i].chunkId <= counter)
    && (forall i, j :: 0 <= i < j < |queue| ==> queue[i].chunkId <= queue[j].chunkId)
  }

  /** Distributing the per-chunk duration, kept out of the read loop's own
      proof because nonlinear facts are costly there. */
  lemma MulStep(n: int, d: int)
    ensures (n + 1) * d == n * d + d
  {
  }

  lemma MulAdd(a: int, b: int, d: int)
    ensures (a + b) * d == a * d + b * d
  {
  }

  lemma QueueOrderedGrows(queue: seq<QueuedChunk>, counter: int, counter': int)
    requires QueueOrdered(queue, counter) && counter <= counter'
    ensures QueueOrdered(queue, counter')
  {
  }

  class LiveStreamProcessor {
    const streamId: string
    const youtubeUrl: string
    const targetLanguage: string
    const chunkDuration: int
    const transcriberModel: string
    const originLanguage: string

    var status: Status
    var chunksProcessed: int
    /** Whole seconds: the sum of `chunk_duration` over the sliced chunks. */
    var totalDuration: int
    var errorMessage: Option<string>
    var audioQueue: seq<QueuedChunk>
    var stopFlag: bool
    var streamInfo: Option<StreamGrabber.Descriptor>
    /** The sliced chunks whose `_process_audio_chunk` task has not finished. */
    var inFlight: seq<Bytes>

    /** The counters move together from zero, and the queue is ordered. */
    ghost predicate Valid()
      reads this
    {
      && 0 <= chunksProcessed
      && totalDuration == chunksProcessed * chunkDuration
      && |inFlight| <= chunksProcessed
      && QueueOrdered(audioQueue, chunksProcessed)
    }

    constructor(streamId: string, youtubeUrl: string, targetLanguage: string,
                chunkDuration: int, transcriberModel: string, originLanguage: string)
      ensures Valid()
      ensures this.streamId == streamId && this.youtubeUrl == youtubeUrl
      ensures this.targetLanguage == targetLanguage && this.chunkDuration == chunkDuration
      ensures this.transcriberModel == transcriberModel && this.originLanguage == originLanguage
      ensures status == Starting && chunksProcessed == 0 && totalDuration == 0
      ensures errorMessage == None && audioQueue == [] && !stopFlag
      ensures streamInfo == None && inFlight == []
    {
      this.streamId := streamId;
      this.youtubeUrl := youtubeUrl;
      this.targetLanguage := targetLanguage;
      this.chunkDuration := chunkDuration;
      this.transcriberModel := transcriberModel;
      this.originLanguage := originLanguage;
      status := Starting;
      chunksProcessed := 0;
      totalDuration := 0;
      errorMessage := None;
      audioQueue := [];
      stopFlag := false;
      streamInfo := None;
      inFlight := [];
    }

    /** `stop()`: raises the flag and reports "stopped"; nothing else. */
    method Stop()
      modifies this
      ensures stopFlag && status == Stopped
      ensures chunksProcessed == old(chunksProcessed) && totalDuration == old(totalDuration)
      ensures errorMessage == old(errorMessage) && audioQueue == old(audioQueue)
      ensures streamInfo == old(streamInfo) && inFlight == old(inFlight)
    {
      stopFlag := true;
      status := Stopped;
    }

    /** `get_audio_chunk()`: the oldest queued item, or `None` when the queue
        is empty (the wait times out). */
    method GetAudioChunk() returns (r: Option<QueuedChunk>)
      modifies this
      ensures old(Valid()) ==> Valid()
      ensures old(audioQueue) == [] ==> r == None && audioQueue == []
      ensures old(audioQueue) != [] ==> r == Some(old(audioQueue)[0]) && audioQueue == old(audioQueue)[1..]
      ensures status == old(status) && stopFlag == old(stopFlag)
      ensures chunksProcessed == old(chunksProcessed) && totalDuration == old(totalDuration)
      ensures errorMessage == old(errorMessage) && streamInfo == old(streamInfo) && inFlight == old(inFlight)
    {
      if audioQueue == [] {
        return None;
      }
      r := Some(audioQueue[0]);
      audioQueue := audioQueue[1..];
    }

    /** The end of the `_process_audio_chunk` task for in-flight chunk `k`.
        A translation that produced output queues it under the counter's
        value NOW, not the chunk's own position; a failed translation queues
        nothing and touches no status. */
    method CompleteChunk(k: nat, translated: Option<Bytes>, timestamp: string)
      requires Valid() && k < |inFlight|
      modifies this
      ensures Valid()
      ensures inFlight == old(inFlight[..k] + inFlight[k + 1..])
      ensures translated.None? ==> audioQueue == old(audioQueue)
      ensures translated.Some? ==>
        audioQueue == old(audioQueue) + [QueuedChunk(chunksProcessed, translated.value, timestamp)]
      ensures status == old(status) && stopFlag == old(stopFlag) && errorMessage == old(errorMessage)
      ensures chunksProcessed == old(chunksProcessed) && totalDuration == old(totalDuration)
      ensures streamInfo == old(streamInfo)
    {
      inFlight := inFlight[..k] + inFlight[k + 1..];
      if translated.Some? {
        audioQueue := audioQueue + [QueuedChunk(chunksProcessed, translated.value, timestamp)];
      }
    }

    /** `_process_stream`: pick the stream URL, start the decoder on it, then
        read the pipe. An exception at any step ends it in "error" with the
        exception's message, keeping the chunks already dispatched. */
    method ProcessStream(extract: StreamGrabber.Extractor, launch: Launcher, stopAt: nat)
      requires Valid()
      modifies this
      ensures Valid()
      ensures var o := StreamRun(old(streamInfo), extract, launch, stopAt, old(stopFlag), chunkDuration);
        && inFlight == old(inFlight) + o.chunks
        && chunksProcessed == old(chunksProcessed) + |o.chunks|
        && (o.Failed? ==> status == Error && errorMessage == Some(o.message) && stopFlag == old(stopFlag))
        && (o.Ran? ==>
              && stopFlag == (old(stopFlag) || o.stopped)
              && status == (if o.stopped then Stopped else old(status))
              && errorMessage == old(errorMessage))
      ensures audioQueue == old(audioQueue) && streamInfo == old(streamInfo)
    {
      var selected := SelectStreamUrl(streamInfo, extract);
      if selected.Err? {
        status := Error;
        errorMessage := Some(selected.error);
        return;
      }
      if selected.value.None? {
        status := Error;
        errorMessage := Some(NoneUrlMessage);
        return;
      }
      var decoder := launch(selected.value.value);
      if decoder.LaunchFailed? {
        status := Error;
        errorMessage := Some(decoder.launchError);
        return;
      }
      var raised := ReadPipe(decoder.blocks, decoder.readError, stopAt);
      if raised.Some? {
        status := Error;
        errorMessage := raised;
      }
    }

    /** The read loop of `_process_stream`: read until the stop flag is seen
        or a read comes back empty, slicing off at most one chunk per read and
        dispatching it. An empty read ends the loop without touching the
        status; a read that raises ends it with `raised` holding the message. */
    method ReadPipe(blocks: seq<Bytes>, readError: Option<string>, stopAt: nat) returns (raised: Option<string>)
      requires Valid()
      modifies this
      ensures Valid()
      ensures raised == (if ReadFails(blocks, readError, stopAt, old(stopFlag)) then readError else None)
      ensures var n := Consumed(blocks, stopAt, old(stopFlag));
        var chunks := Chunking(blocks[..n], ChunkBytes(chunkDuration)).chunks;
        var stopped := StopLands(blocks, stopAt, old(stopFlag));
        && inFlight == old(inFlight) + chunks
        && chunksProcessed == old(chunksProcessed) + |chunks|
        && totalDuration == old(totalDuration) + |chunks| * chunkDuration
        && stopFlag == (old(stopFlag) || stopped)
        && status == (if stopped then Stopped else old(status))
      ensures errorMessage == old(errorMessage) && audioQueue == old(audioQueue) && streamInfo == old(streamInfo)
    {
      var size := ChunkBytes(chunkDuration);
      var buffer: Bytes := [];
      var k := 0;
      ghost var sliced: seq<Bytes> := [];
      ghost var q0, c0 := audioQueue, chunksProcessed;
      raised := None;
      while true
        invariant 0 <= k <= |blocks|
        invariant raised == None
        invariant forall j :: 0 <= j < k ==> blocks[j] != []
        invariant !old(stopFlag) ==> k <= stopAt
        invariant old(stopFlag) ==> k == 0
        invariant Chunking(blocks[..k], size) == Sliced(sliced, buffer)
        invariant inFlight == old(inFlight) + sliced
        invariant chunksProcessed == c0 + |sliced|
        invariant totalDuration == old(totalDuration) + |sliced| * chunkDuration
        invariant stopFlag == old(stopFlag) && status == old(status) && errorMessage == old(errorMessage)
        invariant audioQueue == q0 && streamInfo == old(streamInfo)
        decreases |blocks| - k
      {
        if k == stopAt {
          Stop();
        }
        if stopFlag {
          break;
        }
        if k == |blocks| && readError.Some? {
          raised := readError;
          break;
        }
        var block := if k < |blocks| then blocks[k] else [];
        if block == [] {
          break;
        }
        ChunkingNext(blocks, k, size);
        ghost var before := sliced;
        buffer, sliced := Absorb(buffer, block, sliced);
        if sliced != before {
          MulStep(|before|, chunkDuration);
          assert (old(inFlight) + before) + [sliced[|before|]] == old(inFlight) + (before + [sliced[|before|]]);
        }
        k := k + 1;
      }
      ReadEnds(blocks, stopAt, old(stopFlag), k);
      MulAdd(c0, |sliced|, chunkDuration);
      QueueOrderedGrows(q0, c0, chunksProcessed);
    }

    /** One pass of the read loop after a non-empty read: append it to the
        buffer and, once the buffer holds a chunk, slice the chunk off,
        dispatch it and count it. */
    method Absorb(buffer: Bytes, block: Bytes, ghost sliced: seq<Bytes>) returns (buffer': Bytes, ghost sliced': seq<Bytes>)
      modifies this
      ensures Sliced(sliced', buffer') == AfterRead(Sliced(sliced, buffer), block, ChunkBytes(chunkDuration))
      ensures || (sliced' == sliced && inFlight == old(inFlight) && chunksProcessed == old(chunksProcessed)
                  && totalDuration == old(totalDuration))
              || (|sliced'| == |sliced| + 1 && sliced'[..|sliced|] == sliced
                  && inFlight == old(inFlight) + [sliced'[|sliced|]]
                  && chunksProcessed == old(chunksProcessed) + 1
                  && totalDuration == old(totalDuration) + chunkDuration)
      ensures stopFlag == old(stopFlag) && status == old(status) && errorMessage == old(errorMessage)
      ensures audioQueue == old(audioQueue) && streamInfo == old(streamInfo)
    {
      var size := ChunkBytes(chunkDuration);
      buffer' := buffer + block;
      sliced' := sliced;
      if |buffer'| >= size {
        var chunkData := Head(buffer', size);
        buffer' := Tail(buffer', size);
        inFlight := inFlight + [chunkData];
        sliced' := sliced + [chunkData];
        chunksProcessed := chunksProcessed + 1;
        totalDuration := totalDuration + chunkDuration;
      }
    }

    /** `start_processing`: resolve the live source, reject it as the code
        does, otherwise set "active" (whatever the status was, an earlier
        "stopped" included) and run the stream. */
    method StartProcessing(extract: StreamGrabber.Extractor, launch: Launcher, stopAt: nat)
      requires Valid()
      modifies this
      ensures Valid()
      ensures streamInfo == StreamGrabber.LiveStreamResult(extract, youtubeUrl)
      ensures StartRejection(streamInfo).Some? ==>
        && status == Error && errorMessage == StartRejection(streamInfo)
        && stopFlag == old(stopFlag) && inFlight == old(inFlight) && chunksProcessed == old(chunksProcessed)
      ensures StartRejection(streamInfo).None? ==>
        var o := StreamRun(streamInfo, extract, launch, stopAt, old(stopFlag), chunkDuration);
        && inFlight == old(inFlight) + o.chunks
        && chunksProcessed == old(chunksProcessed) + |o.chunks|
        && (o.Failed? ==> status == Error && errorMessage == Some(o.message) && stopFlag == old(stopFlag))
        && (o.Ran? ==>
              && stopFlag == (old(stopFlag) || o.stopped)
              && status == (if o.stopped then Stopped else Active)
              && errorMessage == old(errorMessage))
      ensures audioQueue == old(audioQueue)
    {
      var info := StreamGrabber.GetLiveStreamUrl(extract, youtubeUrl);
      streamInfo := info;
      var rejection := StartRejection(info);
      if rejection.Some? {
        status := Error;
        errorMessage := rejection;
        return;
      }
      status := Active;
      ProcessStream(extract, launch, stopAt);
    }
  }

  /** A `stop()` that lands while the source is being resolved is
      overwritten: the processor ends "active" with its stop flag raised and
      no chunk read. */
  method StopDuringStartIsOverwritten(extract: StreamGrabber.Extractor, launch: Launcher, url: string)
    returns (status: Status, stopFlag: bool, chunks: int)
    requires StartRejection(StreamGrabber.LiveStreamResult(extract, url)).None?
    requires var chosen := SelectStreamUrl(StreamGrabber.LiveStreamResult(extract, url), extract);
      chosen.Ok? && chosen.value.Some? && launch(chosen.value.value).Pipe?
    ensures status == Active && stopFlag && chunks == 0
  {
    var p := new LiveStreamProcessor("s", url, "English (en)", 30, "base", "Automatic detection");
    p.Stop();
    p.StartProcessing(extract, launch, 1);
    var decoder := launch(SelectStreamUrl(p.streamInfo, extract).value.value);
    StoppedRunReadsNothing(decoder.blocks, decoder.readError, 1, ChunkBytes(30));
    status, stopFlag, chunks := p.status, p.stopFlag, p.chunksProcessed;
  }

  /** Two in-flight chunks whose translations both finish after the last
      slice are queued under the same `chunk_id`. */
  method ChunkIdsCanRepeat(p: LiveStreamProcessor, ta: Bytes, tb: Bytes)
    requires p.Valid() && |p.inFlight| >= 2
    modifies p
    ensures |p.audioQueue| >= 2
    ensures p.audioQueue[|p.audioQueue| - 2].chunkId == p.audioQueue[|p.audioQueue| - 1].chunkId == p.chunksProcessed
  {
    p.CompleteChunk(0, Some(ta), "t1");
    p.CompleteChunk(0, Some(tb), "t2");
  }
}
