/** Shared vocabulary for the model: optional values, results, Python dictionary
    fields, byte strings, and the handful of Python `str` operations the
    repository relies on (`in`, `startswith`, `endswith`, `rstrip`, `replace`,
    `split(..)[-1]`, `lower`). */
module Common {

  datatype Option<+T> = None | Some(value: T) {
    function GetOr(default: T): T {
      match this
      case Some(v) => v
      case None => default
    }
  }

  datatype Result<+T, +E> = Ok(value: T) | Err(error: E)

  /** One key of a Python dictionary: the key is missing, the key maps to
      `None`, or the key maps to a value. `'k' in d` is `Present()`, and
      `d.get('k')` is `Get()`, which does not tell a missing key from `None`. */
  datatype Field<+T> = Absent | Null | Value(value: T) {
    predicate Present() { !Absent? }
    function Get(): Option<T> {
      if Value? then Some(value) else None
    }
  }

  /** An octet. */
  type Byte = b: int | 0 <= b < 256
  type Bytes = seq<Byte>

  /** The UTF-8 encoding of a text that is known to be ASCII; every header line
      and number the service writes is ASCII. */
  function Ascii(s: string): (r: Bytes)
    ensures |r| == |s|
  {
    seq(|s|, i requires 0 <= i < |s| => (s[i] as int % 256) as Byte)
  }

  /** Python's `p in s` for two strings. */
  predicate Contains(s: string, p: string)
    decreases |s|
  {
    p <= s || (|s| > 0 && Contains(s[1..], p))
  }

  lemma {:induction false} ContainsAt(s: string, p: string, i: nat)
    requires i + |p| <= |s| && s[i..i + |p|] == p
    ensures Contains(s, p)
    decreases i
  {
    if i > 0 {
      assert s[1..][i - 1..i - 1 + |p|] == s[i..i + |p|];
      ContainsAt(s[1..], p, i - 1);
    } else {
      assert s[..|p|] == p;
    }
  }

  predicate StartsWith(s: string, p: string) {
    p <= s
  }

  predicate EndsWith(s: string, p: string) {
    |p| <= |s| && s[|s| - |p|..] == p
  }

  /** Python's `s.rstrip(c)` for a one-character argument. */
  function RStrip(s: string, c: char): (r: string)
    ensures r <= s
    ensures r == [] || r[|r| - 1] != c
    ensures forall k :: |r| <= k < |s| ==> s[k] == c
    decreases |s|
  {
    if |s| > 0 && s[|s| - 1] == c then RStrip(s[..|s| - 1], c) else s
  }

  lemma RStripIdempotent(s: string, c: char)
    ensures RStrip(RStrip(s, c), c) == RStrip(s, c)
  {
  }

  /** Python's `s.replace(p, '')`: every occurrence of `p`, found scanning left
      to right without overlap, is dropped. */
  function RemoveAll(s: string, p: string): (r: string)
    requires |p| > 0
    ensures |r| <= |s|
    decreases |s|
  {
    if |s| < |p| then s
    else if p <= s then RemoveAll(s[|p|..], p)
    else [s[0]] + RemoveAll(s[1..], p)
  }

  lemma {:induction false} RemoveAllAbsent(s: string, p: string)
    requires |p| > 0 && !Contains(s, p)
    ensures RemoveAll(s, p) == s
    decreases |s|
  {
    if |s| >= |p| {
      assert !(p <= s);
      RemoveAllAbsent(s[1..], p);
      assert [s[0]] + s[1..] == s;
    }
  }

  lemma {:induction false} RemoveAllShrinks(s: string, p: string)
    requires |p| > 0 && Contains(s, p)
    ensures |RemoveAll(s, p)| <= |s| - |p|
    decreases |s|
  {
    if p <= s {
    } else {
      RemoveAllShrinks(s[1..], p);
    }
  }

  /** Removing a one-character text leaves no occurrence of that character. */
  lemma {:induction false} RemoveAllChar(s: string, c: char)
    ensures c !in RemoveAll(s, [c])
    decreases |s|
  {
    if |s| >= 1 {
      if [c] <= s {
        RemoveAllChar(s[1..], c);
      } else {
        RemoveAllChar(s[1..], c);
        assert s[0] != c;
      }
    }
  }

  /** Python's `s.split(c)[-1]`: the text after the last `c`, or all of `s`. */
  function AfterLast(s: string, c: char): (r: string)
    ensures c !in r
    ensures |r| <= |s| && r == s[|s| - |r|..]
    ensures |r| == |s| || s[|s| - |r| - 1] == c
    decreases |s|
  {
    if |s| == 0 then s
    else if s[|s| - 1] == c then []
    else AfterLast(s[..|s| - 1], c) + [s[|s| - 1]]
  }

  function LowerChar(c: char): char {
    if 'A' <= c <= 'Z' then (c as int + 32) as char else c
  }

  /** Python's `s.lower()`, restricted to the ASCII letters. */
  function Lower(s: string): (r: string)
    ensures |r| == |s|
    decreases |s|
  {
    if s == [] then [] else [LowerChar(s[0])] + Lower(s[1..])
  }

  /** `lower` maps each character on its own and leaves the length alone. */
  lemma {:induction false} LowerSpec(s: string)
    ensures |Lower(s)| == |s|
    ensures forall i :: 0 <= i < |s| ==> Lower(s)[i] == LowerChar(s[i])
    decreases |s|
  {
    if s != [] {
      LowerSpec(s[1..]);
      assert forall i :: 1 <= i < |s| ==> Lower(s)[i] == Lower(s[1..])[i - 1];
    }
  }

  /** Python's `any(k in text for k in keywords)`. */
  predicate ContainsAny(text: string, keywords: seq<string>) {
    exists k :: 0 <= k < |keywords| && Contains(text, keywords[k])
  }

  /** The elements of `s` that satisfy `p`, in their original order (a list
      comprehension with an `if`). */
  function Filter<T(!new)>(s: seq<T>, p: T -> bool): (r: seq<T>)
    ensures |r| <= |s|
    ensures forall x :: x in r <==> x in s && p(x)
    decreases |s|
  {
    if s == [] then []
    else if p(s[0]) then [s[0]] + Filter(s[1..], p)
    else Filter(s[1..], p)
  }

  /** Filtering works piece by piece: the kept elements of `a + b` are those of
      `a` followed by those of `b`, so order and repetitions are preserved. */
  lemma {:induction false} FilterAppend<T(!new)>(a: seq<T>, b: seq<T>, p: T -> bool)
    ensures Filter(a + b, p) == Filter(a, p) + Filter(b, p)
    ensures Filter([], p) == [] && forall x :: Filter([x], p) == if p(x) then [x] else []
    decreases |a|
  {
    if a != [] {
      assert (a + b)[1..] == a[1..] + b;
      FilterAppend(a[1..], b, p);
    } else {
      assert a + b == b;
    }
    forall x ensures Filter([x], p) == if p(x) then [x] else [] {
      assert [x][1..] == [];
    }
  }

  /** Nothing passes a filter that no element satisfies. */
  lemma {:induction false} FilterNone<T(!new)>(s: seq<T>, p: T -> bool)
    requires forall x :: x in s ==> !p(x)
    ensures Filter(s, p) == []
    decreases |s|
  {
    if s != [] {
      FilterNone(s[1..], p);
    }
  }

  /** When some element satisfies `p`, the filtered list starts with the first
      such element. */
  lemma {:induction false} FilterHead<T(!new)>(s: seq<T>, p: T -> bool, k: nat)
    requires k < |s| && p(s[k])
    requires forall j :: 0 <= j < k ==> !p(s[j])
    ensures Filter(s, p) != [] && Filter(s, p)[0] == s[k]
    decreases k
  {
    if k > 0 {
      FilterHead(s[1..], p, k - 1);
    }
  }

  /** Peeling the first element off a suffix that is followed by `rest`. */
  lemma SuffixCons<T>(s: seq<T>, i: nat, rest: seq<T>)
    requires i < |s|
    ensures s[i..] + rest == [s[i]] + (s[i + 1..] + rest)
  {
    assert s[i..] == [s[i]] + s[i + 1..];
  }

  /** Concatenation of a list of byte blocks, in order. */
  function Flatten(blocks: seq<Bytes>): (r: Bytes)
    decreases |blocks|
  {
    if blocks == [] then [] else Flatten(blocks[..|blocks| - 1]) + blocks[|blocks| - 1]
  }

  lemma FlattenSnoc(blocks: seq<Bytes>, b: Bytes)
    ensures Flatten(blocks + [b]) == Flatten(blocks) + b
  {
    assert (blocks + [b])[..|blocks|] == blocks;
  }
}
