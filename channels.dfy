/** The channel catalogue of channel_manager.py: channels grouped by category,
    in the order the categories were created (a Python dictionary keeps
    insertion order), looked up by case-insensitive name or by language. */
module Channels {
  import opened Common

  datatype ChannelInfo = ChannelInfo(
    name: string,
    url: string,
    description: string,
    languages: seq<string>)

  /** A value of the `default_settings` dictionary. */
  datatype Setting = Number(n: int) | Text(t: string)

  /** `a.lower() == b.lower()`, compared character by character (see
      `SameNameIsLowerEquality`). */
  predicate SameName(a: string, b: string)
    decreases |a|
  {
    && |a| == |b|
    && (a == [] || (LowerChar(a[0]) == LowerChar(b[0]) && SameName(a[1..], b[1..])))
  }

  lemma {:induction false} SameNameIsLowerEquality(a: string, b: string)
    ensures SameName(a, b) <==> Lower(a) == Lower(b)
    decreases |a|
  {
    if |a| == |b| && a != [] {
      SameNameIsLowerEquality(a[1..], b[1..]);
      assert Lower(a) == [LowerChar(a[0])] + Lower(a[1..]);
      assert Lower(b) == [LowerChar(b[0])] + Lower(b[1..]);
      if Lower(a) == Lower(b) {
        assert Lower(a)[0] == Lower(b)[0];
        assert Lower(a)[1..] == Lower(a[1..]);
        assert Lower(b)[1..] == Lower(b[1..]);
      }
    }
  }

  /** The list of a category, empty when the category is unknown. */
  function ListOf(m: map<string, seq<ChannelInfo>>, c: string): seq<ChannelInfo> {
    if c in m then m[c] else []
  }

  /** The channels of the categories `cats`, category after category: the
      order in which `self.channels.values()` yields them. */
  function Gather(cats: seq<string>, m: map<string, seq<ChannelInfo>>): seq<ChannelInfo>
    decreases |cats|
  {
    if cats == [] then [] else ListOf(m, cats[0]) + Gather(cats[1..], m)
  }

  /** Every channel of a listed category is gathered. */
  lemma {:induction false} GatherHolds(cats: seq<string>, m: map<string, seq<ChannelInfo>>, k: nat)
    requires k < |cats|
    ensures forall ch :: ch in ListOf(m, cats[k]) ==> ch in Gather(cats, m)
    decreases k
  {
    if k > 0 {
      GatherHolds(cats[1..], m, k - 1);
    }
  }

  lemma {:induction false} GatherAppend(a: seq<string>, b: seq<string>, m: map<string, seq<ChannelInfo>>)
    ensures Gather(a + b, m) == Gather(a, m) + Gather(b, m)
    decreases |a|
  {
    if a != [] {
      assert (a + b)[0] == a[0] && (a + b)[1..] == a[1..] + b;
      GatherAppend(a[1..], b, m);
    } else {
      assert a + b == b;
    }
  }

  /** The gathered suffix from category `ci` on starts with that category. */
  lemma GatherStep(cats: seq<string>, m: map<string, seq<ChannelInfo>>, ci: nat)
    requires ci < |cats|
    ensures Gather(cats[ci..], m) == ListOf(m, cats[ci]) + Gather(cats[ci + 1..], m)
  {
    assert cats[ci..][1..] == cats[ci + 1..];
  }

  /** The gathered list around the category at index `ci`. */
  lemma GatherSplit(cats: seq<string>, m: map<string, seq<ChannelInfo>>, ci: nat)
    requires ci < |cats|
    ensures Gather(cats, m) == Gather(cats[..ci], m) + Gather(cats[ci..], m)
    ensures Gather(cats, m) == Gather(cats[..ci], m) + ListOf(m, cats[ci]) + Gather(cats[ci + 1..], m)
  {
    assert cats == cats[..ci] + cats[ci..];
    GatherAppend(cats[..ci], cats[ci..], m);
    GatherStep(cats, m, ci);
  }

  /** In a list without repeats, the entry at `ci` occurs neither before
      nor after `ci`. */
  lemma DistinctAround(cats: seq<string>, ci: nat)
    requires ci < |cats|
    requires forall i, j :: 0 <= i < j < |cats| ==> cats[i] != cats[j]
    ensures cats[ci] !in cats[..ci] && cats[ci] !in cats[ci + 1..]
  {
    var after := cats[ci + 1..];
    forall k | 0 <= k < |after| ensures after[k] != cats[ci] {
      assert after[k] == cats[ci + 1 + k];
    }
  }

  /** Replacing the list of a category that `cats` does not list changes
      nothing in what `cats` gathers. */
  lemma {:induction false} GatherOther(cats: seq<string>, m: map<string, seq<ChannelInfo>>, c: string, v: seq<ChannelInfo>)
    requires c !in cats
    ensures Gather(cats, m[c := v]) == Gather(cats, m)
    decreases |cats|
  {
    if cats != [] {
      assert cats[0] != c;
      assert c !in cats[1..] by {
        assert forall k :: 0 <= k < |cats| - 1 ==> cats[1..][k] == cats[k + 1];
      }
      GatherOther(cats[1..], m, c, v);
    }
  }

  /** The catalogue with category `cats[ci]` replaced by `v`, when no
      category is listed twice. */
  lemma GatherReplace(cats: seq<string>, m: map<string, seq<ChannelInfo>>, ci: nat, v: seq<ChannelInfo>)
    requires ci < |cats|
    requires forall i, j :: 0 <= i < j < |cats| ==> cats[i] != cats[j]
    ensures Gather(cats, m[cats[ci] := v]) == Gather(cats[..ci], m) + v + Gather(cats[ci + 1..], m)
  {
    var m' := m[cats[ci] := v];
    GatherSplit(cats, m', ci);
    DistinctAround(cats, ci);
    GatherOther(cats[..ci], m, cats[ci], v);
    GatherOther(cats[ci + 1..], m, cats[ci], v);
  }

  lemma MultisetInsert(h: seq<ChannelInfo>, p: seq<ChannelInfo>, x: ChannelInfo, t: seq<ChannelInfo>)
    ensures multiset(h + (p + [x]) + t) == multiset(h + p + t) + multiset{x}
  {
  }

  /** Appending `added` to the category at index `ci` adds exactly that
      channel to the gathered catalogue. */
  lemma AddedToCatalogue(cats: seq<string>, m: map<string, seq<ChannelInfo>>, ci: nat, added: ChannelInfo)
    requires ci < |cats|
    requires forall i, j :: 0 <= i < j < |cats| ==> cats[i] != cats[j]
    ensures multiset(Gather(cats, m[cats[ci] := ListOf(m, cats[ci]) + [added]]))
            == multiset(Gather(cats, m)) + multiset{added}
  {
    var prior := ListOf(m, cats[ci]);
    GatherSplit(cats, m, ci);
    GatherReplace(cats, m, ci, prior + [added]);
    MultisetInsert(Gather(cats[..ci], m), prior, added, Gather(cats[ci + 1..], m));
  }

  /** A list without repeats stays so when a new entry is appended. */
  lemma DistinctSnoc(cats: seq<string>, c: string)
    requires forall i, j :: 0 <= i < j < |cats| ==> cats[i] != cats[j]
    ensures c !in cats ==> forall i, j :: 0 <= i < j < |cats + [c]| ==> (cats + [c])[i] != (cats + [c])[j]
  {
  }

  /** What `get_channel_by_name` finds in a catalogue listed as `s`: the
      first channel whose name matches ignoring case. */
  function FirstNamed(s: seq<ChannelInfo>, name: string): Option<ChannelInfo>
    decreases |s|
  {
    if s == [] then None
    else if SameName(s[0].name, name) then Some(s[0])
    else FirstNamed(s[1..], name)
  }

  /** `s` without the first channel called `name`, as `remove_channel`
      leaves it. */
  function WithoutFirstNamed(s: seq<ChannelInfo>, name: string): seq<ChannelInfo>
    decreases |s|
  {
    if s == [] then []
    else if SameName(s[0].name, name) then s[1..]
    else [s[0]] + WithoutFirstNamed(s[1..], name)
  }

  /** A lookup finds nothing exactly when no channel has the name, and then
      removal changes nothing. */
  lemma {:induction false} FirstNamedNone(s: seq<ChannelInfo>, name: string)
    ensures FirstNamed(s, name).None? <==> forall j :: 0 <= j < |s| ==> !SameName(s[j].name, name)
    ensures FirstNamed(s, name).None? ==> WithoutFirstNamed(s, name) == s
    decreases |s|
  {
    if s != [] {
      FirstNamedNone(s[1..], name);
      assert forall j :: 1 <= j < |s| ==> s[j] == s[1..][j - 1];
      assert [s[0]] + s[1..] == s;
    }
  }

  /** When index `k` holds the first channel with the name, the lookup finds
      that channel and removal drops exactly index `k`. */
  lemma {:induction false} FirstNamedAt(s: seq<ChannelInfo>, name: string, k: nat)
    requires k < |s| && SameName(s[k].name, name)
    requires forall j :: 0 <= j < k ==> !SameName(s[j].name, name)
    ensures FirstNamed(s, name) == Some(s[k])
    ensures WithoutFirstNamed(s, name) == s[..k] + s[k + 1..]
    decreases k
  {
    if k > 0 {
      assert forall j :: 0 <= j < k - 1 ==> s[1..][j] == s[j + 1];
      FirstNamedAt(s[1..], name, k - 1);
      assert s[..k] == [s[0]] + s[1..][..k - 1];
      assert s[k + 1..] == s[1..][k..];
    }
  }

  /** What the lookup finds is in the list and has the name, and removal
      takes out exactly that channel. */
  lemma {:induction false} FirstNamedFound(s: seq<ChannelInfo>, name: string)
    ensures FirstNamed(s, name).Some? ==>
      && FirstNamed(s, name).value in s
      && SameName(FirstNamed(s, name).value.name, name)
      && multiset(WithoutFirstNamed(s, name)) + multiset{FirstNamed(s, name).value} == multiset(s)
    decreases |s|
  {
    if s != [] && !SameName(s[0].name, name) {
      FirstNamedFound(s[1..], name);
      assert s == [s[0]] + s[1..];
    } else if s != [] {
      assert s == [s[0]] + s[1..];
    }
  }

  /** The scan of a list that starts with `x`: `x` itself when it matches,
      otherwise the scan of the rest. */
  lemma FirstNamedCons(x: ChannelInfo, rest: seq<ChannelInfo>, name: string)
    ensures FirstNamed([x] + rest, name) == if SameName(x.name, name) then Some(x) else FirstNamed(rest, name)
    ensures WithoutFirstNamed([x] + rest, name) ==
      if SameName(x.name, name) then rest else [x] + WithoutFirstNamed(rest, name)
  {
    assert ([x] + rest)[0] == x && ([x] + rest)[1..] == rest;
  }

  /** The categories up to and including `ci`. */
  lemma CategoryScanned(cats: seq<string>, m: map<string, seq<ChannelInfo>>, ci: nat)
    requires ci < |cats|
    ensures Gather(cats[..ci + 1], m) == Gather(cats[..ci], m) + ListOf(m, cats[ci])
  {
    assert cats[..ci + 1] == cats[..ci] + [cats[ci]];
    GatherAppend(cats[..ci], [cats[ci]], m);
    assert [cats[ci]][1..] == [];
  }

  /** The channels of `s` whose language list holds `language`, in order. */
  function SupportingLanguage(s: seq<ChannelInfo>, language: string): seq<ChannelInfo>
    decreases |s|
  {
    if s == [] then []
    else (if language in s[0].languages then [s[0]] else []) + SupportingLanguage(s[1..], language)
  }

  /** The selection holds exactly the channels of `s` that list `language`,
      and is no longer than `s`. */
  lemma {:induction false} SupportingLanguageSpec(s: seq<ChannelInfo>, language: string)
    ensures forall ch :: ch in SupportingLanguage(s, language) <==> ch in s && language in ch.languages
    ensures |SupportingLanguage(s, language)| <= |s|
    decreases |s|
  {
    if s != [] {
      SupportingLanguageSpec(s[1..], language);
      assert s == [s[0]] + s[1..];
    }
  }

  /** One step of the language scan: what has been collected, followed by
      the selection of what is left, is unchanged by examining `x`. */
  lemma SupportingLanguageStep(done: seq<ChannelInfo>, x: ChannelInfo, rest: seq<ChannelInfo>, language: string)
    ensures (if language in x.languages then done + [x] else done) + SupportingLanguage(rest, language)
            == done + SupportingLanguage([x] + rest, language)
  {
    assert ([x] + rest)[0] == x && ([x] + rest)[1..] == rest;
  }

  /** The catalogue `_create_default_config` writes. */
  function BbcNews(): ChannelInfo {
    ChannelInfo("BBC News", "https://www.youtube.com/@BBCNews",
                "British Broadcasting Corporation", ["english", "tamil", "hindi"])
  }

  function DefaultSettings(): map<string, Setting> {
    map["chunk_duration" := Number(30),
        "transcriber_model" := Text("base"),
        "origin_language" := Text("Automatic detection")]
  }

  /** In the default catalogue the BBC channel is found under any casing of its
      name and for each of its three languages, and for no other language. */
  lemma DefaultCatalogueLookups(name: string, language: string)
    requires SameName("BBC News", name)
    ensures FirstNamed([BbcNews()], name) == Some(BbcNews())
    ensures SupportingLanguage([BbcNews()], language) ==
      (if language in ["english", "tamil", "hindi"] then [BbcNews()] else [])
  {
    FirstNamedCons(BbcNews(), [], name);
    assert [BbcNews()] + [] == [BbcNews()];
  }

  /** The keys of the channel map are exactly the categories, each once. */
  ghost predicate Consistent(cats: seq<string>, m: map<string, seq<ChannelInfo>>) {
    && (forall c :: c in m <==> c in cats)
    && (forall i, j :: 0 <= i < j < |cats| ==> cats[i] != cats[j])
  }

  /** Appending a channel to a category (new or not) keeps the map and the
      category order consistent and adds exactly that channel. */
  lemma AddKeepsConsistent(cats: seq<string>, m: map<string, seq<ChannelInfo>>,
                           category: string, added: ChannelInfo)
    requires Consistent(cats, m)
    ensures var cats' := if category in m then cats else cats + [category];
      var m' := m[category := ListOf(m, category) + [added]];
      && Consistent(cats', m')
      && multiset(Gather(cats', m')) == multiset(Gather(cats, m)) + multiset{added}
  {
    if category in m {
      AddToKnownCategory(cats, m, category, added);
    } else {
      AddToNewCategory(cats, m, category, added);
    }
  }

  lemma AddToKnownCategory(cats: seq<string>, m: map<string, seq<ChannelInfo>>,
                           category: string, added: ChannelInfo)
    requires Consistent(cats, m) && category in m
    ensures var m' := m[category := ListOf(m, category) + [added]];
      && Consistent(cats, m')
      && multiset(Gather(cats, m')) == multiset(Gather(cats, m)) + multiset{added}
  {
    var ci :| 0 <= ci < |cats| && cats[ci] == category;
    AddedToCatalogue(cats, m, ci, added);
  }

  lemma AddToNewCategory(cats: seq<string>, m: map<string, seq<ChannelInfo>>,
                         category: string, added: ChannelInfo)
    requires Consistent(cats, m) && category !in m
    ensures var m' := m[category := ListOf(m, category) + [added]];
      && Consistent(cats + [category], m')
      && multiset(Gather(cats + [category], m')) == multiset(Gather(cats, m)) + multiset{added}
  {
    var cats' := cats + [category];
    DistinctSnoc(cats, category);
    GatherAppend(cats, [category], m);
    assert [category][1..] == [];
    assert Gather(cats', m) == Gather(cats, m);
    assert cats'[|cats|] == category;
    AddedToCatalogue(cats', m, |cats|, added);
    assert ListOf(m, category) + [added] == [added];
  }

  /** Dropping entry `i` from the list of category `ci` keeps the map
      consistent and drops that one entry from the gathered catalogue. */
  lemma RemoveKeepsConsistent(cats: seq<string>, m: map<string, seq<ChannelInfo>>, ci: nat, i: nat)
    requires Consistent(cats, m) && ci < |cats| && i < |ListOf(m, cats[ci])|
    ensures var list := ListOf(m, cats[ci]);
      var m' := m[cats[ci] := list[..i] + list[i + 1..]];
      && Consistent(cats, m')
      && Gather(cats, m') == Gather(cats[..ci], m) + (list[..i] + list[i + 1..]) + Gather(cats[ci + 1..], m)
  {
    var list := ListOf(m, cats[ci]);
    GatherReplace(cats, m, ci, list[..i] + list[i + 1..]);
  }

  /** A prefix without a matching name is skipped by the lookup and kept by
      the removal. */
  lemma {:induction false} NoneNamedAppend(a: seq<ChannelInfo>, b: seq<ChannelInfo>, name: string)
    requires FirstNamed(a, name).None?
    ensures FirstNamed(a + b, name) == FirstNamed(b, name)
    ensures WithoutFirstNamed(a + b, name) == a + WithoutFirstNamed(b, name)
    decreases |a|
  {
    if a == [] {
      assert a + b == b;
    } else {
      var t := a[1..];
      var x := a[0];
      assert a + b == [x] + (t + b);
      assert !SameName(x.name, name) && FirstNamed(t, name).None?;
      NoneNamedAppend(t, b, name);
      FirstNamedCons(x, t + b, name);
      var w := WithoutFirstNamed(b, name);
      calc {
        WithoutFirstNamed(a + b, name);
        [x] + WithoutFirstNamed(t + b, name);
        [x] + (t + w);
        { assert a == [x] + t; }
        a + w;
      }
    }
  }

  /** The scan of one list moves past an entry without the name. */
  lemma NoneNamedSnoc(list: seq<ChannelInfo>, i: nat, name: string)
    requires i < |list| && FirstNamed(list[..i], name).None? && !SameName(list[i].name, name)
    ensures FirstNamed(list[..i + 1], name).None?
  {
    assert list[..i + 1] == list[..i] + [list[i]];
    NoneNamedAppend(list[..i], [list[i]], name);
    FirstNamedCons(list[i], [], name);
    assert [list[i]] + [] == [list[i]];
  }

  /** The scan moves past a whole category without the name. */
  lemma CategoryWithoutName(cats: seq<string>, m: map<string, seq<ChannelInfo>>, ci: nat, name: string)
    requires ci < |cats|
    requires FirstNamed(Gather(cats[..ci], m), name).None?
    requires FirstNamed(ListOf(m, cats[ci])[..|ListOf(m, cats[ci])|], name).None?
    ensures FirstNamed(Gather(cats[..ci + 1], m), name).None?
  {
    var list := ListOf(m, cats[ci]);
    CategoryScanned(cats, m, ci);
    assert list[..|list|] == list;
    NoneNamedAppend(Gather(cats[..ci], m), list, name);
  }

  /** A scan that passed every category found no channel with the name, and
      removal then leaves the catalogue as it is. */
  lemma NoneNamedAll(cats: seq<string>, m: map<string, seq<ChannelInfo>>, name: string)
    requires FirstNamed(Gather(cats[..|cats|], m), name).None?
    ensures FirstNamed(Gather(cats, m), name).None?
    ensures WithoutFirstNamed(Gather(cats, m), name) == Gather(cats, m)
  {
    assert cats[..|cats|] == cats;
    NoneNamedAppend(Gather(cats, m), [], name);
    assert Gather(cats, m) + [] == Gather(cats, m);
  }

  /** The lookup's hit: entry `i` of category `ci` is the first channel of the
      catalogue with the name. */
  lemma FoundInCatalogue(cats: seq<string>, m: map<string, seq<ChannelInfo>>, ci: nat, i: nat, name: string)
    requires ci < |cats| && i < |ListOf(m, cats[ci])|
    requires FirstNamed(Gather(cats[..ci], m), name).None?
    requires FirstNamed(ListOf(m, cats[ci])[..i], name).None?
    requires SameName(ListOf(m, cats[ci])[i].name, name)
    ensures FirstNamed(Gather(cats, m), name) == Some(ListOf(m, cats[ci])[i])
  {
    GatherSplit(cats, m, ci);
    HitInCatalogue(Gather(cats[..ci], m), ListOf(m, cats[ci]), i, Gather(cats[ci + 1..], m), name);
  }

  /** The removal scan's hit: the first matching entry of the catalogue is
      entry `i` of category `ci`, and deleting it from that category's list
      removes exactly it from the catalogue. */
  lemma RemoveFirstHit(cats: seq<string>, m: map<string, seq<ChannelInfo>>, ci: nat, i: nat, name: string)
    requires Consistent(cats, m) && ci < |cats| && i < |ListOf(m, cats[ci])|
    requires FirstNamed(Gather(cats[..ci], m), name).None?
    requires FirstNamed(ListOf(m, cats[ci])[..i], name).None?
    requires SameName(ListOf(m, cats[ci])[i].name, name)
    ensures var list := ListOf(m, cats[ci]);
      var m' := m[cats[ci] := list[..i] + list[i + 1..]];
      && Consistent(cats, m')
      && FirstNamed(Gather(cats, m), name) == Some(list[i])
      && WithoutFirstNamed(Gather(cats, m), name) == Gather(cats, m')
  {
    var list := ListOf(m, cats[ci]);
    RemoveKeepsConsistent(cats, m, ci, i);
    GatherSplit(cats, m, ci);
    HitInCatalogue(Gather(cats[..ci], m), list, i, Gather(cats[ci + 1..], m), name);
  }

  lemma HitInCatalogue(done: seq<ChannelInfo>, list: seq<ChannelInfo>, i: nat, rest: seq<ChannelInfo>, name: string)
    requires i < |list|
    requires FirstNamed(done, name).None? && FirstNamed(list[..i], name).None?
    requires SameName(list[i].name, name)
    ensures FirstNamed(done + list + rest, name) == Some(list[i])
    ensures WithoutFirstNamed(done + list + rest, name) == done + (list[..i] + list[i + 1..]) + rest
  {
    var tail := [list[i]] + (list[i + 1..] + rest);
    assert done + list + rest == done + (list[..i] + tail) by {
      assert list == list[..i] + [list[i]] + list[i + 1..];
    }
    FirstNamedCons(list[i], list[i + 1..] + rest, name);
    NoneNamedAppend(list[..i], tail, name);
    NoneNamedAppend(done, list[..i] + tail, name);
    assert done + (list[..i] + (list[i + 1..] + rest)) == done + (list[..i] + list[i + 1..]) + rest;
  }

  /** Entry `i` of category `cats[ci]` is the first channel named `name`,
      scanning categories in order and each list in order. */
  ghost predicate FirstHit(cats: seq<string>, m: map<string, seq<ChannelInfo>>, name: string, ci: int, i: int) {
    && 0 <= ci < |cats| && 0 <= i < |ListOf(m, cats[ci])|
    && FirstNamed(Gather(cats[..ci], m), name).None?
    && FirstNamed(ListOf(m, cats[ci])[..i], name).None?
    && SameName(ListOf(m, cats[ci])[i].name, name)
  }

  /** At most one position is the first hit, so the removal it describes is
      determined by the name. */
  lemma FirstHitUnique(cats: seq<string>, m: map<string, seq<ChannelInfo>>, name: string,
                       ci: int, i: int, cj: int, j: int)
    requires FirstHit(cats, m, name, ci, i) && FirstHit(cats, m, name, cj, j)
    ensures ci == cj && i == j
  {
    if ci < cj {
      EarlierHitIsFound(cats, m, name, ci, i, cj);
    } else if cj < ci {
      EarlierHitIsFound(cats, m, name, cj, j, ci);
    } else if i < j {
      assert ListOf(m, cats[ci])[..j][i] == ListOf(m, cats[ci])[i];
      FirstNamedNone(ListOf(m, cats[ci])[..j], name);
    } else if j < i {
      assert ListOf(m, cats[ci])[..i][j] == ListOf(m, cats[ci])[j];
      FirstNamedNone(ListOf(m, cats[ci])[..i], name);
    }
  }

  /** A channel named `name` in a category before `cats[cj]` is found in the
      categories before `cats[cj]`. */
  lemma EarlierHitIsFound(cats: seq<string>, m: map<string, seq<ChannelInfo>>, name: string,
                          ci: int, i: int, cj: int)
    requires 0 <= ci < cj <= |cats| && 0 <= i < |ListOf(m, cats[ci])|
    requires SameName(ListOf(m, cats[ci])[i].name, name)
    ensures FirstNamed(Gather(cats[..cj], m), name).Some?
  {
    var before := cats[..cj];
    assert before[ci] == cats[ci];
    GatherHolds(before, m, ci);
    var g := Gather(before, m);
    var ch := ListOf(m, cats[ci])[i];
    assert ch in g;
    var k :| 0 <= k < |g| && g[k] == ch;
    FirstNamedNone(g, name);
  }

  /** The table with entry `i` of category `cats[ci]` deleted and every other
      list as it was. */
  function RemovedAt(cats: seq<string>, m: map<string, seq<ChannelInfo>>, ci: nat, i: nat): map<string, seq<ChannelInfo>>
    requires ci < |cats| && i < |ListOf(m, cats[ci])|
  {
    var list := ListOf(m, cats[ci]);
    m[cats[ci] := list[..i] + list[i + 1..]]
  }

  class ChannelManager {
    /** The keys of `self.channels` in insertion order. */
    var categories: seq<string>
    var channels: map<string, seq<ChannelInfo>>
    var defaultSettings: map<string, Setting>

    ghost predicate Valid()
      reads this
    {
      Consistent(categories, channels)
    }

    /** Every channel, category after category. */
    function All(): seq<ChannelInfo>
      reads this
    {
      Gather(categories, channels)
    }

    /** A manager whose configuration file is missing starts from the default
        catalogue. */
    constructor()
      ensures Valid()
      ensures categories == ["news"] && channels == map["news" := [BbcNews()]]
      ensures defaultSettings == DefaultSettings()
    {
      categories := ["news"];
      channels := map["news" := [BbcNews()]];
      defaultSettings := DefaultSettings();
    }

    method CreateDefaultConfig()
      modifies this
      ensures Valid()
      ensures categories == ["news"] && channels == map["news" := [BbcNews()]]
      ensures defaultSettings == DefaultSettings()
      ensures All() == [BbcNews()]
    {
      categories := ["news"];
      channels := map["news" := [BbcNews()]];
      defaultSettings := DefaultSettings();
      assert categories[1..] == [];
    }

    /** `self.channels.get(category, [])`: an unknown category is empty, and
        every channel listed belongs to the catalogue. */
    function ChannelsByCategory(category: string): (r: seq<ChannelInfo>)
      reads this
      requires Valid()
      ensures category !in categories ==> r == []
      ensures forall ch :: ch in r ==> ch in All()
    {
      if category in channels then
        var k :| 0 <= k < |categories| && categories[k] == category;
        GatherHolds(categories, channels, k);
        channels[category]
      else []
    }

    /** Scans the categories in order and each category's list in order, and
        returns the first channel whose name matches ignoring case. */
    method GetChannelByName(name: string) returns (r: Option<ChannelInfo>)
      requires Valid()
      ensures r == FirstNamed(All(), name)
    {
      var ci := 0;
      assert categories[..0] == [];
      while ci < |categories|
        invariant 0 <= ci <= |categories|
        invariant FirstNamed(Gather(categories[..ci], channels), name).None?
      {
        var list := ListOf(channels, categories[ci]);
        var i := 0;
        assert list[..0] == [];
        while i < |list|
          invariant 0 <= i <= |list|
          invariant FirstNamed(list[..i], name).None?
        {
          if SameName(list[i].name, name) {
            FoundInCatalogue(categories, channels, ci, i, name);
            return Some(list[i]);
          }
          NoneNamedSnoc(list, i, name);
          i := i + 1;
        }
        CategoryWithoutName(categories, channels, ci, name);
        ci := ci + 1;
      }
      NoneNamedAll(categories, channels, name);
      return None;
    }

    /** Collects, in catalogue order, every channel whose language list holds
        `language` (an exact, case-sensitive membership test). */
    method GetChannelsForLanguage(language: string) returns (matching: seq<ChannelInfo>)
      requires Valid()
      ensures matching == SupportingLanguage(All(), language)
    {
      matching := [];
      var ci := 0;
      while ci < |categories|
        invariant 0 <= ci <= |categories|
        invariant matching + SupportingLanguage(Gather(categories[ci..], channels), language)
                  == SupportingLanguage(All(), language)
      {
        var list := channels[categories[ci]];
        ghost var rest := Gather(categories[ci + 1..], channels);
        GatherStep(categories, channels, ci);
        var i := 0;
        while i < |list|
          invariant 0 <= i <= |list|
          invariant matching + SupportingLanguage(list[i..] + rest, language)
                    == SupportingLanguage(All(), language)
        {
          SuffixCons(list, i, rest);
          SupportingLanguageStep(matching, list[i], list[i + 1..] + rest, language);
          if language in list[i].languages {
            matching := matching + [list[i]];
          }
          i := i + 1;
        }
        assert list[i..] + rest == rest;
        ci := ci + 1;
      }
      assert categories[ci..] == [];
    }

    /** Appends the channel to its category, creating the category (at the end
        of the category order) when it is new. `languages == None` stands for
        the missing argument and gives `["english"]`. Every other category is
        left as it was, and the catalogue gains exactly the new channel. */
    method AddChannel(category: string, name: string, url: string,
                      description: string, languages: Option<seq<string>>)
      requires Valid()
      modifies this
      ensures Valid()
      ensures var added := ChannelInfo(name, url, description, languages.GetOr(["english"]));
        && categories == old(if category in channels then categories else categories + [category])
        && channels == old(channels)[category := old(ListOf(channels, category)) + [added]]
        && multiset(All()) == old(multiset(All())) + multiset{added}
      ensures defaultSettings == old(defaultSettings)
    {
      var added := ChannelInfo(name, url, description, languages.GetOr(["english"]));
      var cats := if category in channels then categories else categories + [category];
      AddKeepsConsistent(categories, channels, category, added);
      categories, channels := cats, channels[category := ListOf(channels, category) + [added]];
    }

    /** Deletes the first channel whose name matches ignoring case, scanning as
        `GetChannelByName` does, and reports whether there was one. */
    method RemoveChannel(name: string) returns (removed: bool)
      requires Valid()
      modifies this
      ensures Valid()
      ensures removed <==> old(FirstNamed(All(), name)).Some?
      ensures All() == old(WithoutFirstNamed(All(), name))
      ensures !removed ==> channels == old(channels)
      ensures removed ==> exists ci, i :: FirstHit(old(categories), old(channels), name, ci, i)
                                       && channels == RemovedAt(old(categories), old(channels), ci, i)
      ensures categories == old(categories)
      ensures defaultSettings == old(defaultSettings)
    {
      var cats, m := categories, channels;
      var ci := 0;
      assert cats[..0] == [];
      while ci < |cats|
        invariant 0 <= ci <= |cats|
        invariant categories == cats && channels == m && defaultSettings == old(defaultSettings)
        invariant FirstNamed(Gather(cats[..ci], m), name).None?
      {
        var category := cats[ci];
        var list := ListOf(m, category);
        var i := 0;
        assert list[..0] == [];
        while i < |list|
          invariant 0 <= i <= |list|
          invariant categories == cats && channels == m && defaultSettings == old(defaultSettings)
          invariant FirstNamed(list[..i], name).None?
        {
          if SameName(list[i].name, name) {
            RemoveFirstHit(cats, m, ci, i, name);
            assert FirstHit(cats, m, name, ci, i);
            channels := m[category := list[..i] + list[i + 1..]];
            assert channels == RemovedAt(cats, m, ci, i);
            assert categories == cats && All() == Gather(cats, m[category := list[..i] + list[i + 1..]]);
            return true;
          }
          NoneNamedSnoc(list, i, name);
          i := i + 1;
        }
        CategoryWithoutName(cats, m, ci, name);
        ci := ci + 1;
      }
      NoneNamedAll(cats, m, name);
      return false;
    }
  }
}
