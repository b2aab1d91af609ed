/** The ranking of stream formats shared by the resolver's best-audio choice
    (youtube/youtube_stream_grepper.py) and the processor's stream choice
    (serve.py): audio presence is read from `acodec`, and a format's rank is
    `(abr or 0) + (tbr or 0)`, sorted descending by Python's stable sort. */
module FormatRanking {
  import opened Common

  /** One entry of an extractor's `formats` list. Every key may be missing or
      `None`; bitrates are Python floats. */
  datatype Format = Format(
    acodec: Field<string>,
    vcodec: Field<string>,
    abr: Field<real>,
    tbr: Field<real>,
    url: Field<string>)

  /** `x.get(k) or 0`: a missing or `None` metric counts as zero (a zero metric
      is zero either way). */
  function Metric(m: Field<real>): real {
    if m.Value? then m.value else 0.0
  }

  /** The sort key `(x.get('abr') or 0) + (x.get('tbr') or 0)`. It is total:
      no combination of missing metrics makes it fail. */
  function Rank(f: Format): real {
    Metric(f.abr) + Metric(f.tbr)
  }

  /** `f.get('acodec') != 'none'`: a missing or `None` codec counts as audio. */
  predicate HasAudio(f: Format) {
    f.acodec != Value("none")
  }

  /** `f.get('acodec') != 'none' and f.get('vcodec') == 'none'`. */
  predicate IsAudioOnly(f: Format) {
    HasAudio(f) && f.vcodec == Value("none")
  }

  /** `'url' in f`. */
  predicate HasUrlKey(f: Format) {
    f.url.Present()
  }

  ghost predicate SortedDesc(s: seq<Format>) {
    forall i, j :: 0 <= i < j < |s| ==> Rank(s[i]) >= Rank(s[j])
  }

  /** Index `k` holds the highest rank in `s`, and no earlier entry ties it. */
  ghost predicate IsFirstBest(s: seq<Format>, k: int) {
    && 0 <= k < |s|
    && (forall j :: 0 <= j < |s| ==> Rank(s[j]) <= Rank(s[k]))
    && (forall j :: 0 <= j < k ==> Rank(s[j]) < Rank(s[k]))
  }

  /** Insert `f` in front of the first entry whose rank it reaches; an entry
      that came earlier in the input therefore stays before equal-rank ones. */
  function InsertDesc(f: Format, s: seq<Format>): seq<Format>
    decreases |s|
  {
    if s == [] then [f]
    else if Rank(f) >= Rank(s[0]) then [f] + s
    else [s[0]] + InsertDesc(f, s[1..])
  }

  /** `list.sort(key=Rank, reverse=True)`: Python's sort is stable, also in
      reverse, so formats of equal rank keep their input order. */
  function SortDesc(s: seq<Format>): seq<Format>
    decreases |s|
  {
    if s == [] then [] else InsertDesc(s[0], SortDesc(s[1..]))
  }

  lemma {:induction false} InsertDescFacts(f: Format, s: seq<Format>)
    requires SortedDesc(s)
    ensures SortedDesc(InsertDesc(f, s))
    ensures multiset(InsertDesc(f, s)) == multiset(s) + multiset{f}
    ensures |InsertDesc(f, s)| == |s| + 1
    decreases |s|
  {
    InsertDescKeeps(f, s);
    if s != [] && Rank(f) < Rank(s[0]) {
      InsertDescFacts(f, s[1..]);
      var t := InsertDesc(f, s[1..]);
      assert t[0] == f || t[0] == s[1..][0] by {
        if s[1..] != [] && Rank(f) < Rank(s[1..][0]) {
          assert t[0] == s[1..][0];
        }
      }
    }
  }

  /** Insertion adds exactly the inserted format. */
  lemma {:induction false} InsertDescKeeps(f: Format, s: seq<Format>)
    ensures multiset(InsertDesc(f, s)) == multiset(s) + multiset{f}
    ensures |InsertDesc(f, s)| == |s| + 1
    decreases |s|
  {
    if s != [] && Rank(f) < Rank(s[0]) {
      InsertDescKeeps(f, s[1..]);
      assert s == [s[0]] + s[1..];
    }
  }

  /** Sorting yields a descending arrangement of exactly the input formats. */
  lemma SortDescIsSortedPermutation(s: seq<Format>)
    ensures SortedDesc(SortDesc(s))
    ensures multiset(SortDesc(s)) == multiset(s)
    ensures |SortDesc(s)| == |s|
  {
    SortDescSorted(s);
    SortDescKeeps(s);
  }

  lemma {:induction false} SortDescSorted(s: seq<Format>)
    ensures SortedDesc(SortDesc(s))
    decreases |s|
  {
    if s != [] {
      SortDescSorted(s[1..]);
      InsertDescFacts(s[0], SortDesc(s[1..]));
    }
  }

  lemma {:induction false} SortDescKeeps(s: seq<Format>)
    ensures multiset(SortDesc(s)) == multiset(s)
    ensures |SortDesc(s)| == |s|
    decreases |s|
  {
    if s != [] {
      SortDescKeeps(s[1..]);
      InsertDescKeeps(s[0], SortDesc(s[1..]));
      assert multiset(s) == multiset{s[0]} + multiset(s[1..]) by {
        assert s == [s[0]] + s[1..];
      }
    }
  }

  /** The head of the stable descending sort is the earliest format of highest
      rank: this is what `audio_formats[0]` picks after the sort. */
  lemma {:induction false} SortHeadIsFirstBest(s: seq<Format>)
    requires |s| > 0
    ensures |SortDesc(s)| == |s|
    ensures exists k :: IsFirstBest(s, k) && SortDesc(s)[0] == s[k]
    decreases |s|
  {
    SortDescIsSortedPermutation(s);
    if |s| == 1 {
      assert IsFirstBest(s, 0);
    } else {
      SortHeadIsFirstBest(s[1..]);
      var k' :| IsFirstBest(s[1..], k') && SortDesc(s[1..])[0] == s[1..][k'];
      if Rank(s[0]) >= Rank(s[k' + 1]) {
        assert IsFirstBest(s, 0);
      } else {
        assert IsFirstBest(s, k' + 1);
      }
    }
  }

  /** At most one index is the first best one. */
  lemma FirstBestUnique(s: seq<Format>, k1: int, k2: int)
    requires IsFirstBest(s, k1) && IsFirstBest(s, k2)
    ensures k1 == k2
  {
    assert Rank(s[k1]) == Rank(s[k2]);
  }

  /** The formats of the repository's ranking test: (None, None), (128, None),
      (None, 256), (64, 128), (None, None). */
  function RankingTestFormats(): seq<Format> {
    var none := Field<real>.Null;
    var a := Field<string>.Absent;
    [ Format(a, a, none, none, Value("url1")),
      Format(a, a, Value(128.0), none, Value("url2")),
      Format(a, a, none, Value(256.0), Value("url3")),
      Format(a, a, Value(64.0), Value(128.0), Value("url4")),
      Format(a, a, none, none, Value("url5")) ]
  }

  /** The sort of the ranking test puts the (None, 256) format first, and it
      does not fail on the missing metrics. */
  lemma RankingTestPicksUrl3()
    ensures SortDesc(RankingTestFormats())[0].url == Value("url3")
  {
    var s := RankingTestFormats();
    SortHeadIsFirstBest(s);
    var k :| IsFirstBest(s, k) && SortDesc(s)[0] == s[k];
    assert Rank(s[0]) == 0.0 && Rank(s[1]) == 128.0 && Rank(s[2]) == 256.0;
    assert Rank(s[3]) == 192.0 && Rank(s[4]) == 0.0;
    assert IsFirstBest(s, 2);
    FirstBestUnique(s, k, 2);
  }
}
