# sonitranlate-realtime: the live pipeline, in Dafny

This project is a Dafny model of the live-stream part of sonitranlate-realtime,
and proofs about that model. The model covers:

- how the service finds a live YouTube source;
- how it picks the audio stream URL;
- how it cuts the decoded audio into fixed-size chunks;
- how it queues translated chunks and writes them to a client as a
  multipart body;
- how its HTTP endpoints keep the table of running streams;
- two helpers the server uses: the channel catalogue and the heuristic
  live detector.

The model follows the Python code as written, including its quirks:

- `start_processing` sets `"active"` whatever the status was;
- an empty pipe read ends the read loop without any error status;
- a queued chunk is numbered by the counter's value when its translation
  finishes, not when it was cut;
- a clean "not live" answer from the first resolver tier is final, and the
  resolver never consults the keyword detector;
- the read loop tests only the stop flag, not the status;
- the second "fallback" branch of the format choice can never run;
- a format whose `'url'` is `None` is chosen, and the decoder's launch then
  fails with a `TypeError`.

| file | module | models |
|---|---|---|
| `common.dfy` | `Common` | `Option`/`Result`, Python dictionary fields (`Field`: missing, `None` or a value), bytes, and the Python string operations the code uses |
| `format_ranking.dfy` | `FormatRanking` | format records, the `(abr or 0) + (tbr or 0)` rank and the stable descending sort |
| `stream_grabber.dfy` | `StreamGrabber` | `youtube/youtube_stream_grepper.py`: URL normalisation, the two-tier live lookup, best audio format |
| `live_detector.dfy` | `LiveDetector` | `simple_live_detector.py` |
| `channels.dfy` | `Channels` | `channel_manager.py` (class `ChannelManager`) |
| `processor.dfy` | `Processor` | `serve.py` `LiveStreamProcessor` (class): start, URL choice, read loop, chunk completion, stop, dequeue |
| `framing.dfy` | `Framing` | `serve.py` `generate_audio`, and a reader that parses its output back |
| `registry.dfy` | `Registry` | `serve.py` endpoints over `active_streams` (class `StreamRegistry`) |

The model replaces the outside world with parameters:

- The extractor (`yt_dlp`) is a function from a URL to what it reports, or to
  a failure; a failure stands for any exception.
- The HTTP session of the detector is a function from a URL to page text, or
  to nothing.
- The decoder (ffmpeg) is a function from a URL to either a launch failure
  or a pipe: the blocks its reads return, and possibly an error raised by the
  read after the last block.
- A translation is either the bytes it produced or nothing.
- A `stop()` that arrives while the pipe is being read is placed by the number
  of reads that complete before it (`stopAt`).
- The random id suffix, the clock and the timestamps are also parameters.

The delivery format has a partner: `ParseFrame`/`ParseStream` read a body
back the way a client that trusts `Content-Length` would. The round-trip
lemmas prove that the body reads back as exactly the chunks taken from the
queue, in order, and then the keep-alives.

## Model

| member | source | states |
|---|---|---|
| Processor.LiveStreamProcessor.constructor | serve.py:101-120 | A new processor is "starting", with both counters at zero, an empty queue, the stop flag down, no stream info and no chunk in flight. |
| Processor.StartRejection | serve.py:127-151 | Models the three early exits of `start_processing`: no descriptor, `len(None)` on `formats`, and a missing `'url'` key, in that order. `ResolvedDescriptorsHaveUrlKey` states that the third never happens for a resolved descriptor. |
| Processor.LiveStreamProcessor.StartProcessing | serve.py:122-161 | The stored info is the resolver's answer. No descriptor, a `len(None)` on `formats`, or a missing `'url'` key each give "error" with that message. Otherwise the status becomes "active" even after an earlier stop, and the run follows: a failed URL choice, a `None` URL, a decoder that cannot start or a read that raises gives "error" with that message, keeping the chunks dispatched before it; a clean run dispatches its chunks, counts them, and ends "stopped" only when a stop landed. Validity (counters in step, queue ordered) is kept. |
| Processor.StopDuringStartIsOverwritten | serve.py:122-156 | A stop that lands before the source is resolved is overwritten: the processor ends "active" with its flag raised and no chunk read. |
| Processor.ResolvedDescriptorsHaveUrlKey | serve.py:146-151 | For any descriptor the resolver returns, the "Invalid stream info: missing URL" rejection never happens. |
| Processor.SelectStreamUrl | serve.py:163-195 | Models the URL choice of `_process_stream`, including the `KeyError` of a missing `'url'` and the fallback through `get_best_audio_format`. Its properties are stated by `PickUrl`, `SelectRanksAudioFormats`, `FallbackBranchUnreachable` and `SelectedUrlIsListed`. |
| Processor.StreamRun | serve.py:163-237 | Models the whole of `_process_stream` as an outcome: a failed URL choice, a `None` URL or a decoder that cannot start fails before any read; otherwise the outcome is `PipeRun`'s. `ProcessStream` is proved against it. |
| Processor.PipeRun | serve.py:207-237 | Models the read loop over a started decoder: the chunks cut from the reads consumed, and either the error raised by a read or whether a stop landed. Its properties are stated by `StoppedRunReadsNothing`, `EndOfPipeIsNotStop` and `ReadFailureKeepsChunks`. |
| Processor.LiveStreamProcessor.ProcessStream | serve.py:163-237 | A failed URL choice, a `None` URL or a decoder that cannot start gives "error" with the exception's message and dispatches nothing. Otherwise the read loop runs: the chunks are dispatched in order and the counter is raised by their number. A read that raises gives "error" with its message, and the chunks cut before it stay dispatched. A clean end gives "stopped" only when a stop landed. The queue is untouched. |
| Processor.NoneUrlIsAnError | serve.py:169-205 | An audio format whose `'url'` is `None` is chosen, and the run then fails with the `TypeError` of starting the decoder on `None`, before any read. |
| Processor.PickUrl | serve.py:173-175 | `f['url']` fails exactly when the key is missing, and otherwise gives the stored URL, which may be `None`. |
| Processor.SelectRanksAudioFormats | serve.py:167-175 | With audio formats present, the chosen URL is that of the earliest audio format of highest rank, and the step fails exactly when that format lacks `'url'`. |
| Processor.FallbackBranchUnreachable | serve.py:176-189 | Without audio formats, the first format that has a `'url'` key is used, or the step fails with "No valid formats with URL found". The "Fallback format missing URL" error is never raised. |
| Processor.SelectedUrlIsListed | serve.py:167-189 | A URL chosen from a non-empty format list is the `'url'` of one of the listed formats. |
| Processor.SliceIndex | serve.py:221-222 | The cut position of `b[:n]`/`b[n:]` never exceeds the buffer length, including for a negative `n`. |
| Processor.LiveStreamProcessor.ReadPipe | serve.py:207-228 | The loop consumes reads until the stop flag is seen or a read is empty. It dispatches exactly the chunks cut from the consumed reads, in order, and raises `chunks_processed` by their number and `total_duration` by `chunk_duration` per chunk. The status becomes "stopped" only when a stop landed; an empty read leaves it as it was. Validity is kept. |
| Processor.LiveStreamProcessor.Absorb | serve.py:216-228 | One pass of the loop body follows `AfterRead`. Either nothing is cut, or exactly one chunk is cut, dispatched and counted, with `total_duration` raised by `chunk_duration`. |
| Processor.Chunking | serve.py:207-225 | Models the chunk cutting of the read loop over a sequence of reads: the chunks cut and the leftover buffer. Its properties are stated by the `Chunking…` lemmas below. |
| Processor.AfterRead | serve.py:216-225 | Models one pass of the loop body: append the read, and cut one chunk when the buffer holds a whole one. `AfterReadPartition` states that it keeps the bytes in order. |
| Processor.ChunkingPartition | serve.py:207-222 | No gap and no overlap: the cut chunks in order, followed by the leftover buffer, are exactly the bytes read. |
| Processor.AfterReadPartition | serve.py:216-222 | One pass keeps the bytes in order: what was cut and buffered before, plus the read, is what is cut and buffered after. |
| Processor.ChunkingCount | serve.py:219-225 | At most one chunk is cut per read, and exactly one per read when the chunk size is not positive. |
| Processor.ChunkingSizes | serve.py:219-222 | For a non-negative size, every chunk is exactly `2 * 16000 * chunk_duration` bytes. |
| Processor.ChunkingBufferBound | serve.py:210-222 | When a chunk is at least one 4096-byte read, the buffer never holds a whole chunk after a pass, so no backlog builds up. |
| Processor.ChunkingBufferBelowSize | serve.py:210-222 | When no read is longer than a chunk, the buffer always holds less than one chunk after a pass. |
| Processor.ChunkCountIsQuotient | serve.py:210-225 | When no read is longer than a chunk, the number of chunks cut is the number of bytes read divided by the chunk size, rounded down. |
| Processor.FirstEmpty | serve.py:212-214 | The index of the first empty read: every earlier read is non-empty, and the read there is empty unless the pipe never returned one. |
| Processor.ReadEnds | serve.py:210-214 | Where the loop stops is the number of reads it consumes, and it was stopped there exactly when the stop lands at that read. |
| Processor.StoppedRunReadsNothing | serve.py:210 | A run whose flag was raised before it started reads nothing and raises nothing, whatever the decoder would have returned. |
| Processor.EndOfPipeIsNotStop | serve.py:212-214 | An empty read that comes before any stop ends the run unmarked and without error: it is not "stopped", and the chunks are those cut before that read. |
| Processor.ReadFailureKeepsChunks | serve.py:210-237 | When every read returns data and the read after them raises before any stop, the run fails with that error, and the chunks cut from all the reads are still dispatched. |
| Processor.QueueOrderedGrows | serve.py:259-263 | Queued ids never exceed the counter. Since the counter only grows, the queue stays ordered. |
| Processor.LiveStreamProcessor.CompleteChunk | serve.py:239-274 | Finishing chunk `k` removes it from the in-flight list. A translation appends `{chunk_id: counter now, audio, timestamp}` to the queue. A failure queues nothing. The status and counters never change. |
| Processor.ChunkIdsCanRepeat | serve.py:259-263 | Two translations that both finish after the last cut are queued under the same `chunk_id`, which is the current counter. |
| Processor.LiveStreamProcessor.Stop | serve.py:302-305 | The flag is raised and the status is "stopped"; nothing else changes. |
| Processor.LiveStreamProcessor.GetAudioChunk | serve.py:307-313 | Returns the oldest queued chunk and removes it, or `None` with the queue left empty when there is none. |
| Framing.GenerateAudio | serve.py:414-435 | A processor that is not "active", or whose flag is raised, gets an empty body. A live one gets, for each round, the next queued chunk's part while chunks remain and a keep-alive part after that. Exactly the chunks written leave the queue; nothing else changes. |
| Framing.NextRound | serve.py:416-433 | A round writes the part of the queue's head and pops it, or writes a keep-alive when the queue is empty. |
| Framing.ChunkPieces | serve.py:420-427 | A chunk part is eight writes, and the seventh is the payload itself. |
| Framing.KeepAlivePieces | serve.py:430-433 | A keep-alive part is four writes. |
| Framing.NatText | serve.py:422-423 | `str(n)` of a natural number is a non-empty run of decimal digits. |
| Framing.NatTextValue | serve.py:422-423 | The digits written for a natural number read back as that number and do not start with a minus sign. |
| Framing.IntTextValue | serve.py:422-423 | `str(n)` of any integer, negative ones included, reads back as `n`. |
| Framing.ParseHeadOf | serve.py:420-422 | The boundary, `Content-Type` and `Content-Length` lines read back as the content type and the length. |
| Framing.ParseChunkRestOf | serve.py:423-427 | The `X-Chunk-ID` and `X-Timestamp` lines, the blank line and the payload read back as the chunk. |
| Framing.BodyOf | serve.py:425-427 | A blank line, the payload and CR LF read back as exactly the payload. |
| Framing.ParseChunkOf | serve.py:418-427 | A chunk part reads back as that chunk, whatever follows it. |
| Framing.ParseKeepAliveOf | serve.py:428-433 | A keep-alive part reads back as a keep-alive, whatever follows it. |
| Framing.ParseFrameOf | serve.py:418-433 | Any part reads back as the frame it was written from. |
| Framing.ParseStreamOf | serve.py:416-433 | A body written from a sequence of frames reads back as exactly that sequence. |
| Framing.StreamRoundTrip | serve.py:414-435 | A client reads back one frame per round. Frame `i` is the queue's `i`-th chunk while one remains, and a keep-alive after that. |
| Framing.ContentLengthIsPayloadLength | serve.py:422 | The `Content-Length` of a chunk part is the length of its payload. |
| Registry.StreamRegistry.constructor | serve.py:55 | The table of streams starts empty, and the supported languages are `TARGET_LANGUAGES`. |
| Registry.TargetLanguagesAreDistinct | serve.py:59-77 | The table has seventeen languages, and no key occurs twice. |
| Registry.Lookup | serve.py:345 | A language is found exactly when it is a key of the table, and the name found is paired with it in the table. |
| Registry.StreamRegistry.StartTranslationStream | serve.py:336-382 | An unknown language is a 400 that lists the supported keys, and the table is unchanged. Otherwise a fresh "starting" processor is stored under `{language}_{suffix}` and the response describes it. Its status reports "starting" with zero counters. Every other entry is untouched. A new key goes last in key order, and a key that already exists is overwritten in place. |
| Registry.StreamRegistry.GetStreamStatus | serve.py:385-402 | It is a 404 "Stream not found" exactly when the id is unknown; otherwise the report is for that id. |
| Registry.StreamRegistry.StreamTranslatedAudio | serve.py:405-445 | An unknown id is a 404. Otherwise the body is what the generator writes for that processor. The table is unchanged. |
| Registry.StreamRegistry.StopTranslationStream | serve.py:448-461 | An unknown id is a 404, and the table is unchanged. Otherwise that processor is stopped and nothing else in it changes, only that id is removed, and its status is a 404 from then on. The processors of the other streams, which are distinct from it, are untouched. |
| Registry.Without | serve.py:459 | Deleting a key keeps every other key, drops that one, and never lengthens the key order. |
| Registry.WithoutKeepsDistinct | serve.py:459 | After a deletion, the key order still lists each key once. |
| Registry.StreamRegistry.Summary | serve.py:470-478 | The summary of one stream carries its id, language, target language, creation time, chunk count, total duration and status text. |
| Registry.StreamRegistry.Summaries | serve.py:468-479 | One summary per id, in order, carrying that stream's id, language, target language, creation time, chunk count, total duration and status. |
| Registry.StreamRegistry.ListActiveStreams | serve.py:464-481 | The listed items are the summaries of all streams in key order, and `total_count` is the number of streams. |
| Registry.DistinctKeysCount | serve.py:481 | When each key is listed once, the number of streams equals the length of the key order. |
| Registry.StreamRegistry.Shutdown | serve.py:599-608 | Every stored processor is stopped; its counters, total duration, error message, stream info, queue and in-flight chunks are untouched; then the table is empty. |
| StreamGrabber.NormalizeChannelUrl | youtube/youtube_stream_grepper.py:45-78 | Models `_normalize_channel_url`. `NormalizeCases` states its cases, and the two fixed-point lemmas state that normalising a channel form or a handle URL again changes nothing. |
| StreamGrabber.NormalizeCases | youtube/youtube_stream_grepper.py:45-78 | Trailing slashes are stripped first. The four channel forms are returned as they are, even with a `/live`. Other `youtube.com/` URLs that contain `/live` lose every `/live`, and get at least five characters shorter. `youtu.be/` links become `watch?v=` plus the last path segment. A bare name becomes a `/@` handle URL. Any other URL is kept. |
| StreamGrabber.NormalizeChannelFormIsFixed | youtube/youtube_stream_grepper.py:56-66 | A URL in a channel form normalises to itself without trailing slashes, and normalising again changes nothing. |
| StreamGrabber.NormalizeHandleIsFixed | youtube/youtube_stream_grepper.py:74-77 | A bare name becomes `https://www.youtube.com/@` plus the name, and normalising again changes nothing. |
| StreamGrabber.HandleUrlIsChannelForm | youtube/youtube_stream_grepper.py:76-77 | A handle URL built from a name is in the `youtube.com/@` channel form. |
| StreamGrabber.NormalizeTestInputs | test_serve.py:79-86 | `.../@nasa/live` keeps its `/live`, and `nasa` becomes `https://www.youtube.com/@nasa`. |
| StreamGrabber.Stored | youtube/youtube_stream_grepper.py:121-131 | A value copied with `info.get(k)` always stores the key, holding `None` when it was missing. |
| StreamGrabber.LiveDescriptor | youtube/youtube_stream_grepper.py:121-131 | A descriptor is marked live and always has a `'url'` key. |
| StreamGrabber.LiveStreamResult | youtube/youtube_stream_grepper.py:98-143 | Models `get_live_stream_url` as a reference function. The method `GetLiveStreamUrl` is proved to return it, and `IsChannelLive` relates it to the two tiers. |
| StreamGrabber.GetLiveStreamUrl | youtube/youtube_stream_grepper.py:98-143 | The lookup probes `normalized + "/live"`. A live answer gives its descriptor. A clean not-live answer gives `None` with no fallback. Only an extractor failure runs the second tier on the normalised URL. Any descriptor returned is live and has a `'url'` key. |
| StreamGrabber.FirstLive | youtube/youtube_stream_grepper.py:162-163 | The index found is the first entry flagged live (`is_live` or `live_status == 'is_live'`), or none is flagged. |
| StreamGrabber.FirstTen | youtube/youtube_stream_grepper.py:162 | `entries[:10]` is a prefix of at most ten entries, and all of them when there are at most ten. |
| StreamGrabber.AlternativeResult | youtube/youtube_stream_grepper.py:145-183 | Models the second tier as a reference function. `AlternativeScansFirstTen` and `AlternativeHasLiveDescriptors` state its properties, and `FindLiveStreamAlternative` is proved to return it. |
| StreamGrabber.FindLiveStreamAlternative | youtube/youtube_stream_grepper.py:145-183 | The loop returns the same answer as the second tier's reference function `AlternativeResult`. |
| StreamGrabber.AlternativeScansFirstTen | youtube/youtube_stream_grepper.py:158-183 | A descriptor from the second tier is live and comes from re-extracting the first live entry among the first ten. When none of the first ten is live, there is no descriptor. |
| StreamGrabber.AlternativeHasLiveDescriptors | youtube/youtube_stream_grepper.py:166-177 | Second-tier descriptors are live and have a `'url'` key. |
| StreamGrabber.IsChannelLive | youtube/youtube_stream_grepper.py:234-245 | A channel is live exactly when the probe reports live, or, when the probe fails, exactly when the second tier finds a descriptor. |
| StreamGrabber.BestAudioFormat | youtube/youtube_stream_grepper.py:214-232 | Models the choice of `get_best_audio_format` once the formats are known: audio-only formats if any, else every format with audio, then the head of the descending sort. `BestAudioFormatChoice` states its properties. |
| StreamGrabber.GetBestAudioFormat | youtube/youtube_stream_grepper.py:203-232 | Models `get_best_audio_format`: an extractor failure gives no formats and so `None`; a `formats` key holding `None` makes the scan raise, which is caught and gives `None`; otherwise it is the choice above. |
| StreamGrabber.BestAudioFormatChoice | youtube/youtube_stream_grepper.py:203-232 | There is no result exactly when no format has audio. Otherwise the result is an input format that has audio, is audio-only whenever some format is, has the highest rank in its pool, and is the earliest such format. |
| FormatRanking.Rank | serve.py:172 | Models the sort key `(abr or 0) + (tbr or 0)`: a missing or `None` metric counts as 0. `RankingTestPicksUrl3` checks it on the repository's test. |
| FormatRanking.HasAudio | serve.py:169 | Models `f.get('acodec') != 'none'`: a missing or `None` codec counts as having audio. |
| FormatRanking.SortDesc | youtube/youtube_stream_grepper.py:225 | Models `sort(key=rank, reverse=True)` as a stable insertion sort. `SortDescIsSortedPermutation` and `SortHeadIsFirstBest` state its properties. |
| FormatRanking.SortDescIsSortedPermutation | youtube/youtube_stream_grepper.py:225 | The sort returns exactly the input formats (a permutation), ordered by non-increasing rank. |
| FormatRanking.InsertDescFacts | youtube/youtube_stream_grepper.py:225 | Inserting into a sorted list keeps it sorted and adds exactly the inserted format. |
| FormatRanking.SortHeadIsFirstBest | serve.py:172-175 | The head of the stable descending sort is the earliest format of highest rank. |
| FormatRanking.FirstBestUnique | serve.py:172-175 | Only one index can be the earliest of highest rank. |
| FormatRanking.RankingTestPicksUrl3 | test_none_fix.py:11-25 | On the repository's ranking test, whose metrics include `None`, the `(None, 256)` format sorts first; missing metrics count as 0. |
| LiveDetector.IsLiveStream | simple_live_detector.py:26-57 | Models `is_live_stream` with the HTTP session as a parameter. `IsLiveStreamCases` states its cases. |
| LiveDetector.IsLiveStreamCases | simple_live_detector.py:26-57 | After backslashes are removed, a live indicator in the URL decides "live" without any request. Channel URLs are decided by their `/live` page's keywords, watch URLs by their own page's keywords, and any other URL is not live. A failed request counts as not live. |
| LiveDetector.LivePageUrlEndsWithLive | simple_live_detector.py:63 | The channel check always requests a URL ending in `/live`, and never appends a second `/live`. |
| LiveDetector.ChannelKeywordsAreVideoKeywords | simple_live_detector.py:68-101 | Every channel-page keyword is a video-page keyword, and the video list adds only `live_status`. |
| LiveDetector.FirstMatchFrom | simple_live_detector.py:123 | The leftmost position from which the regular expression can match, or none. |
| LiveDetector.RunUntil | simple_live_detector.py:123 | `[^&]+` and `[^/]+` take the longest run without the stop character. |
| LiveDetector.SearchGroupSpec | simple_live_detector.py:123-134 | The captured group is non-empty and free of the stop character. It follows the leftmost matchable occurrence of the pattern and runs to the next stop or the end. Nothing is captured exactly when no occurrence can match. |
| LiveDetector.GroupNeedsPattern | simple_live_detector.py:122-135 | A capture implies the literal prefix occurs, so the `in` guard never hides a match. |
| LiveDetector.DescribeLiveUrl | simple_live_detector.py:119-145 | Models the descriptor built for a URL already judged live: the watch id first, then the handle, then the generic title. |
| LiveDetector.GetLiveStreamInfo | simple_live_detector.py:107-151 | Models `get_live_stream_info`. `GetLiveStreamInfoSpec` states its properties. |
| LiveDetector.GetLiveStreamInfoSpec | simple_live_detector.py:107-151 | There is a descriptor exactly when the URL is judged live, and it is marked live and echoes the URL. A watch id wins over a handle: "Live Stream <id>". Failing that, a handle gives "Live Stream from <handle>". Otherwise the title is "Live Stream". |
| LiveDetector.WatchUrlYieldsId | simple_live_detector.py:122-130 | The watch URL the resolver builds from a short link gives back exactly its id to the detector's expression. |
| Channels.SameNameIsLowerEquality | channel_manager.py:86 | The name test is equality after lower-casing both sides. |
| Channels.ChannelManager.constructor | channel_manager.py:24-54 | Without a configuration file, the catalogue is the default one. |
| Channels.ChannelManager.CreateDefaultConfig | channel_manager.py:56-72 | Afterwards there is a single "news" category holding BBC News, and the default settings are 30 / "base" / "Automatic detection". |
| Channels.DefaultCatalogueLookups | channel_manager.py:56-97 | In the default catalogue, BBC News is found under any casing of its name, and for each of its three languages and no other. |
| Channels.ChannelManager.ChannelsByCategory | channel_manager.py:78-80 | An unknown category gives `[]`, and every channel returned is in the catalogue. |
| Channels.ChannelManager.GetChannelByName | channel_manager.py:82-88 | The result is the first channel, scanning categories then lists, whose name matches ignoring case, or `None`. |
| Channels.FirstNamed | channel_manager.py:82-88 | Models the scan of `get_channel_by_name` over a list of channels. `FirstNamedFound` and `FirstNamedNone` state its properties. |
| Channels.WithoutFirstNamed | channel_manager.py:113-121 | Models the removal of the first matching channel from a list. `FirstNamedFound` and `FirstNamedNone` relate it to the scan. |
| Channels.FirstNamedFound | channel_manager.py:82-88 | A channel found is in the catalogue and has the name. Removal then takes out exactly that channel. |
| Channels.FirstNamedNone | channel_manager.py:82-88 | Nothing is found exactly when no channel has the name, and removal then changes nothing. |
| Channels.ChannelManager.GetChannelsForLanguage | channel_manager.py:90-97 | The result is the catalogue's channels whose language list holds the language, in catalogue order. |
| Channels.SupportingLanguage | channel_manager.py:90-97 | Models the selection of `get_channels_for_language`. `SupportingLanguageSpec` states its properties. |
| Channels.SupportingLanguageSpec | channel_manager.py:90-97 | The selection holds exactly the channels that list the language, and is no longer than the catalogue. |
| Channels.ChannelManager.AddChannel | channel_manager.py:99-111 | The new channel, with `["english"]` as default languages, goes at the end of its category. A new category is created last in order. Every other category is untouched, and the catalogue gains exactly that channel. |
| Channels.AddKeepsConsistent | channel_manager.py:99-111 | Adding keeps the category order and the map in step, and adds exactly one channel. |
| Channels.ChannelManager.RemoveChannel | channel_manager.py:113-121 | Reports whether some channel had the name ignoring case. When none had, nothing changes. Otherwise the first such channel, scanning categories then lists, is removed from its own category's list; every other list is unchanged, and so is the category order. The catalogue loses exactly that channel. |
| Channels.FirstHitUnique | channel_manager.py:113-121 | The first matching channel, scanning categories then lists, is one position: the removal is determined. |
| Channels.RemoveKeepsConsistent | channel_manager.py:113-121 | Deleting one entry keeps the map consistent and drops that one entry from the catalogue. |
| Common.RStrip | youtube/youtube_stream_grepper.py:56 | `rstrip('/')` gives a prefix of the input that does not end in `/`, and only `/` characters were removed. |
| Common.RemoveAllAbsent | youtube/youtube_stream_grepper.py:69 | `replace` changes nothing when the text does not occur. |
| Common.RemoveAllChar | simple_live_detector.py:38 | Removing a one-character text leaves no occurrence of that character. |
| Common.AfterLast | youtube/youtube_stream_grepper.py:72 | `split('/')[-1]` is a suffix free of `/`, which starts the input or follows a `/`. |
| Common.LowerSpec | simple_live_detector.py:42 | `lower` maps each character on its own and keeps the length. |
| Common.Filter | serve.py:169 | A comprehension with a condition keeps exactly the elements that pass it, and is no longer than its input. |
| Common.FilterAppend | serve.py:169 | The comprehension works element by element: the result for `a + b` is that for `a` followed by that for `b`, and one element is kept exactly when it passes. So order and repetitions are kept. |
| Common.FilterHead | serve.py:185-187 | The head of a filtered list is the first element that passes. |

## Left out

- The ffmpeg process and its cleanup are left out. The decoder is a parameter that either fails to start or yields byte blocks and possibly a read error; the WAV header is ordinary bytes. An error from `terminate`/`wait` is not modelled.
- The translator, the temporary files and `os.unlink` are left out. A translation is the bytes it produced, or nothing.
- asyncio, the background tasks, `threading.Event`, the executor, `asyncio.sleep` and the 5-second `wait_for` are left out. Dispatch and completion are separate sequential steps. A stop during a read is placed by `stopAt`, and a timed-out wait is an empty queue.
- FastAPI, uvicorn, pydantic validation and the HTTP transport are left out. An error response is an `HttpError` value.
- The root and `/languages` endpoints are left out. So are the per-language alias endpoints, which only call the start endpoint, and the `/channels` endpoints, which only forward to `ChannelManager`.
- `uuid` and `time.time()` are parameters. A suffix collision overwrites the stored entry, as the code does.
- `total_duration` is an integer number of seconds instead of a float.
- `X-Timestamp` is an opaque text. The round trip needs it to be ASCII without CR; a float's `str` always is.
- Descriptor keys that nothing reads (`channel_url`, `thumbnail`, `duration`) are not modelled.
- `wait_for_live_stream`, `_extract_channel_id`, `get_live_stream_from_channel` and the `main` functions are left out: they only sleep, poll, print or call the extractor.
- `ChannelManager.load_config`, `save_config`, `get_all_channels` and `list_channels_formatted` are left out: they are JSON file I/O and display formatting. The constructor takes the missing-file path.
- `lower()` handles ASCII letters only, and `str.encode()` is modelled per character, which is exact for ASCII.
- `list.sort` is a stable insertion sort on sequences. The code calls the library sort and does not implement one.
- Bitrates are real numbers, so NaN is not modelled.
- Only the `?` and character-class parts of the two regular expressions that the code uses are modelled.
- Framing.ParseFrame: this and `ParseStream` are a reference reader that the code does not have. They exist to state the round trip.
- Registry.StreamRegistry.StreamTranslatedAudio: it does not model chunks queued while the body is being written, because a concurrent producer is not modelled.
- Registry.StreamRegistry.Shutdown: it does not model `executor.shutdown(wait=True)`.
- Registry.StreamRegistry.StartTranslationStream: the background `start_processing` task is not started; the processor is returned in "starting". The id suffix is any text: the eight hexadecimal digits of `uuid4().hex[:8]` are not required.
- Channels.ChannelManager.ChannelsByCategory: for a known category it states only that the channels returned belong to the catalogue, not which list is returned.
