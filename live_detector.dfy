/** The heuristic live detector of simple_live_detector.py
    (`SimpleLiveDetector`). The HTTP session is a parameter: a total function
    from a URL to the page text it serves, or to nothing when the request
    fails (any exception). */
module LiveDetector {
  import opened Common
  import StreamGrabber

  type Fetcher = string -> Option<string>

  const UrlIndicators: seq<string> := ["/live", "live=1", "is_live"]

  const ChannelPageKeywords: seq<string> :=
    ["is live now", "live now", "currently live", "live stream", "watching live", "live chat"]

  const VideoPageKeywords: seq<string> :=
    ["is live now", "live now", "currently live", "live stream", "watching live", "live chat", "live_status"]

  /** `url.replace('\\', '')`. */
  function Clean(url: string): string {
    RemoveAll(url, "\\")
  }

  predicate UrlSaysLive(cleaned: string) {
    ContainsAny(Lower(cleaned), UrlIndicators)
  }

  predicate IsChannelUrl(cleaned: string) {
    Contains(cleaned, "/@") || Contains(cleaned, "/channel/")
  }

  /** The page `_check_channel_live` requests. */
  function LivePageUrl(channelUrl: string): string {
    if EndsWith(channelUrl, "/live") then channelUrl else channelUrl + "/live"
  }

  predicate PageSaysLive(page: Option<string>, keywords: seq<string>) {
    page.Some? && ContainsAny(Lower(page.value), keywords)
  }

  predicate CheckChannelLive(channelUrl: string, fetch: Fetcher) {
    PageSaysLive(fetch(LivePageUrl(channelUrl)), ChannelPageKeywords)
  }

  predicate CheckVideoLive(videoUrl: string, fetch: Fetcher) {
    PageSaysLive(fetch(videoUrl), VideoPageKeywords)
  }

  predicate IsLiveStream(url: string, fetch: Fetcher) {
    var cleaned := Clean(url);
    if UrlSaysLive(cleaned) then true
    else if IsChannelUrl(cleaned) then CheckChannelLive(cleaned, fetch)
    else if Contains(cleaned, "/watch?v=") then CheckVideoLive(cleaned, fetch)
    else false
  }

  /** The URL test runs on the cleaned URL and decides alone: whatever the
      pages say, a URL with a live indicator is live, and a URL that is
      neither a channel nor a watch URL is not. Channel URLs are decided by
      their `/live` page, watch URLs by their own page, and a failed request
      counts as not live. */
  lemma IsLiveStreamCases(url: string, fetch: Fetcher)
    ensures var cleaned := Clean(url);
      && '\\' !in cleaned
      && (UrlSaysLive(cleaned) ==> IsLiveStream(url, fetch))
      && (!UrlSaysLive(cleaned) && IsChannelUrl(cleaned) ==>
            (IsLiveStream(url, fetch) <==>
              fetch(LivePageUrl(cleaned)).Some?
              && ContainsAny(Lower(fetch(LivePageUrl(cleaned)).value), ChannelPageKeywords)))
      && (!UrlSaysLive(cleaned) && !IsChannelUrl(cleaned) && Contains(cleaned, "/watch?v=") ==>
            (IsLiveStream(url, fetch) <==>
              fetch(cleaned).Some? && ContainsAny(Lower(fetch(cleaned).value), VideoPageKeywords)))
      && (!UrlSaysLive(cleaned) && !IsChannelUrl(cleaned) && !Contains(cleaned, "/watch?v=") ==>
            !IsLiveStream(url, fetch))
  {
    RemoveAllChar(url, '\\');
  }

  /** The channel check always requests a `/live` page, and never appends a
      second `/live`. */
  lemma LivePageUrlEndsWithLive(channelUrl: string)
    ensures EndsWith(LivePageUrl(channelUrl), "/live")
    ensures LivePageUrl(LivePageUrl(channelUrl)) == LivePageUrl(channelUrl)
    ensures EndsWith(channelUrl, "/live") ==> LivePageUrl(channelUrl) == channelUrl
  {
    var out := channelUrl + "/live";
    assert out[|out| - 5..] == "/live";
  }

  /** Every channel-page keyword is also a video-page keyword, so a text the
      channel check accepts is accepted by the video check too, and the video
      list adds only `live_status`. */
  lemma {:induction false} ChannelKeywordsAreVideoKeywords(page: string)
    ensures ContainsAny(page, ChannelPageKeywords) ==> ContainsAny(page, VideoPageKeywords)
    ensures ContainsAny(page, VideoPageKeywords) ==>
      ContainsAny(page, ChannelPageKeywords) || Contains(page, "live_status")
  {
    if ContainsAny(page, ChannelPageKeywords) {
      var k :| 0 <= k < |ChannelPageKeywords| && Contains(page, ChannelPageKeywords[k]);
      assert VideoPageKeywords[k] == ChannelPageKeywords[k];
    }
    if ContainsAny(page, VideoPageKeywords) {
      var k :| 0 <= k < |VideoPageKeywords| && Contains(page, VideoPageKeywords[k]);
      if k < 6 {
        assert ChannelPageKeywords[k] == VideoPageKeywords[k];
      }
    }
  }

  // ---------------------------------------------------------------------
  // The two regular expressions of `get_live_stream_info`
  // ---------------------------------------------------------------------

  /** `pat` occurs at `i` and is followed by a character other than `stop`:
      where `pat([^stop]+)` can match. */
  predicate MatchesAt(s: string, pat: string, stop: char, i: int) {
    0 <= i && i + |pat| < |s| && s[i..i + |pat|] == pat && s[i + |pat|] != stop
  }

  /** The leftmost position at or after `from` where `pat([^stop]+)` matches. */
  function FirstMatchFrom(s: string, pat: string, stop: char, from: nat): (r: Option<nat>)
    ensures r.Some? ==> from <= r.value && MatchesAt(s, pat, stop, r.value)
    ensures r.Some? ==> forall j :: from <= j < r.value ==> !MatchesAt(s, pat, stop, j)
    ensures r.None? ==> forall j :: from <= j ==> !MatchesAt(s, pat, stop, j)
    decreases |s| - from
  {
    if from + |pat| >= |s| then None
    else if MatchesAt(s, pat, stop, from) then Some(from)
    else FirstMatchFrom(s, pat, stop, from + 1)
  }

  /** The longest prefix of `s` without `stop`: a greedy `[^stop]+`. */
  function RunUntil(s: string, stop: char): (r: string)
    ensures r <= s && stop !in r
    ensures |r| == |s| || s[|r|] == stop
    decreases |s|
  {
    if s == [] || s[0] == stop then [] else [s[0]] + RunUntil(s[1..], stop)
  }

  /** `re.search(pat + '([^' + stop + ']+)', s).group(1)`, or nothing. */
  function SearchGroup(s: string, pat: string, stop: char): Option<string> {
    match FirstMatchFrom(s, pat, stop, 0)
    case None => None
    case Some(i) => Some(RunUntil(s[i + |pat|..], stop))
  }

  /** The captured group is non-empty, free of `stop`, follows the leftmost
      occurrence of `pat` that can start a match, and runs up to the next
      `stop` or to the end of the text. Nothing is captured exactly when no
      occurrence of `pat` is followed by a character other than `stop`. */
  lemma SearchGroupSpec(s: string, pat: string, stop: char)
    ensures SearchGroup(s, pat, stop).None? <==> forall j :: !MatchesAt(s, pat, stop, j)
    ensures var g := SearchGroup(s, pat, stop);
      g.Some? ==>
        && g.value != []
        && stop !in g.value
        && exists i ::
             && MatchesAt(s, pat, stop, i)
             && (forall j :: 0 <= j < i ==> !MatchesAt(s, pat, stop, j))
             && i + |pat| + |g.value| <= |s|
             && s[i + |pat|..i + |pat| + |g.value|] == g.value
             && (i + |pat| + |g.value| == |s| || s[i + |pat| + |g.value|] == stop)
  {
    match FirstMatchFrom(s, pat, stop, 0)
    case None =>
    case Some(i) =>
      var rest := s[i + |pat|..];
      var g := RunUntil(rest, stop);
      assert rest[0] != stop;
      assert g != [];
      assert s[i + |pat|..i + |pat| + |g|] == rest[..|g|];
  }

  // ---------------------------------------------------------------------
  // `get_live_stream_info`
  // ---------------------------------------------------------------------

  datatype LiveInfo = LiveInfo(
    url: string,
    title: string,
    isLive: bool,
    videoId: Option<string>,
    channel: Option<string>)

  /** The descriptor for a URL already judged live; the watch case is tried
      before the handle case, and both read the URL as given (not cleaned). */
  function DescribeLiveUrl(url: string): LiveInfo {
    var videoId := if Contains(url, "/watch?v=") then SearchGroup(url, "/watch?v=", '&') else None;
    var handle := if Contains(url, "/@") then SearchGroup(url, "/@", '/') else None;
    if videoId.Some? then
      LiveInfo(url, "Live Stream " + videoId.value, true, videoId, None)
    else if handle.Some? then
      LiveInfo(url, "Live Stream from " + handle.value, true, None, handle)
    else
      LiveInfo(url, "Live Stream", true, None, None)
  }

  function GetLiveStreamInfo(url: string, fetch: Fetcher): Option<LiveInfo> {
    if !IsLiveStream(url, fetch) then None else Some(DescribeLiveUrl(url))
  }

  /** There is a descriptor exactly when the URL is judged live. It always
      says `is_live` and echoes the URL. A watch URL whose id can be read gets
      that id and the title "Live Stream <id>", even when it also holds a
      handle; otherwise a readable handle gives "Live Stream from <handle>";
      otherwise the title is the generic one. */
  lemma GetLiveStreamInfoSpec(url: string, fetch: Fetcher)
    ensures GetLiveStreamInfo(url, fetch).Some? <==> IsLiveStream(url, fetch)
    ensures var r := GetLiveStreamInfo(url, fetch);
      r.Some? ==>
        && r.value.isLive
        && r.value.url == url
        && (SearchGroup(url, "/watch?v=", '&').Some? ==>
              && r.value.videoId == SearchGroup(url, "/watch?v=", '&')
              && r.value.title == "Live Stream " + r.value.videoId.value
              && r.value.channel.None?)
        && (SearchGroup(url, "/watch?v=", '&').None? && SearchGroup(url, "/@", '/').Some? ==>
              && r.value.channel == SearchGroup(url, "/@", '/')
              && r.value.title == "Live Stream from " + r.value.channel.value
              && r.value.videoId.None?)
        && (SearchGroup(url, "/watch?v=", '&').None? && SearchGroup(url, "/@", '/').None? ==>
              r.value.title == "Live Stream")
  {
    GroupNeedsPattern(url, "/watch?v=", '&');
    GroupNeedsPattern(url, "/@", '/');
  }

  /** A regular expression that captures something found its literal prefix,
      so the `in` test guarding each search never hides a match. */
  lemma GroupNeedsPattern(s: string, pat: string, stop: char)
    ensures SearchGroup(s, pat, stop).Some? ==> Contains(s, pat)
  {
    match FirstMatchFrom(s, pat, stop, 0)
    case None =>
    case Some(i) =>
      ContainsAt(s, pat, i);
  }

  /** The watch URL the resolver builds from a short link,
      `https://www.youtube.com/watch?v=<id>`, gives back exactly `<id>` to the
      detector's video-id expression whenever `<id>` is non-empty and holds no
      `&`. */
  lemma WatchUrlYieldsId(id: string)
    requires id != [] && '&' !in id
    ensures SearchGroup(StreamGrabber.WatchPrefix + id, "/watch?v=", '&') == Some(id)
  {
    var s := StreamGrabber.WatchPrefix + id;
    var pat := "/watch?v=";
    assert s[23..32] == pat;
    assert MatchesAt(s, pat, '&', 23);
    forall j | 0 <= j < 23 ensures !MatchesAt(s, pat, '&', j) {
      if j < 6 {
        assert s[j] == "https:"[j];
        assert s[j..j + 9][0] != pat[0];
      } else if j == 6 {
        assert s[7] == StreamGrabber.WatchPrefix[7] == '/';
        assert s[j..j + 9][1] != pat[1];
      } else if j == 7 {
        assert s[9] == StreamGrabber.WatchPrefix[9] == 'w';
        assert s[j..j + 9][2] != pat[2];
      } else {
        assert s[j] == "www.youtube.com"[j - 8];
        assert s[j..j + 9][0] != pat[0];
      }
    }
    assert FirstMatchFrom(s, pat, '&', 0) == Some(23);
    assert s[32..] == id;
    RunUntilWithoutStop(id, '&');
  }

  lemma RunUntilWithoutStop(s: string, stop: char)
    requires stop !in s
    ensures RunUntil(s, stop) == s
  {
  }
}
