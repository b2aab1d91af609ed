/** The audio stream of serve.py (`stream_translated_audio` and its
    `generate_audio` generator): a `multipart/x-mixed-replace` body whose
    parts are cut by the boundary `audio-boundary`. Each round of the
    generator takes the oldest queued chunk and writes it as one part with
    its length, id and timestamp headers, or writes an empty `text/plain`
    keep-alive part when the queue is empty.

    `ParseFrame`/`ParseStream` are the partner of the generator: a client
    that reads the body back, trusting `Content-Length` to find the end of
    each payload. Every text the service writes is ASCII, and `Ascii` is its
    encoding. */
module Framing {
  import opened Common
  import opened Processor

  // ---------------------------------------------------------------------
  // Numbers as text (`str(n)` of a Python `int`)
  // ---------------------------------------------------------------------

  function DigitChar(d: nat): char
    requires d < 10
  {
    ('0' as int + d) as char
  }

  /** The decimal digits of `n`, most significant first, with no leading zero. */
  function NatText(n: nat): (r: string)
    ensures |r| >= 1
    ensures forall i :: 0 <= i < |r| ==> '0' <= r[i] <= '9'
    decreases n
  {
    if n < 10 then [DigitChar(n)] else NatText(n / 10) + [DigitChar(n % 10)]
  }

  /** `str(n)`: a minus sign before the digits of a negative number. */
  function IntText(n: int): (r: string) {
    if n < 0 then "-" + NatText(-n) else NatText(n)
  }

  // ---------------------------------------------------------------------
  // The parts the generator writes
  // ---------------------------------------------------------------------

  /** What one round of the generator writes. */
  datatype Frame = ChunkFrame(chunk: QueuedChunk) | KeepAliveFrame

  /** A text line ended by CR LF. */
  function Line(s: string): Bytes {
    Ascii(s + "\r\n")
  }

  /** A header line: its name (with the `": "`) followed by its value. */
  function HeaderLine(name: string, value: string): Bytes {
    Line(name + value)
  }

  const Boundary := "--audio-boundary"

  /** The eight `yield`s of a chunk part, in order. */
  function ChunkPieces(c: QueuedChunk): (r: seq<Bytes>)
    ensures |r| == 8 && r[6] == c.audioData
  {
    [ Line(Boundary),
      HeaderLine("Content-Type: ", "audio/mpeg"),
      HeaderLine("Content-Length: ", IntText(|c.audioData|)),
      HeaderLine("X-Chunk-ID: ", IntText(c.chunkId)),
      HeaderLine("X-Timestamp: ", c.timestamp),
      Ascii("\r\n"),
      c.audioData,
      Ascii("\r\n") ]
  }

  /** The four `yield`s of a keep-alive part. */
  function KeepAlivePieces(): (r: seq<Bytes>)
    ensures |r| == 4
  {
    [ Line(Boundary),
      HeaderLine("Content-Type: ", "text/plain"),
      HeaderLine("Content-Length: ", "0"),
      Ascii("\r\n\r\n") ]
  }

  function Pieces(f: Frame): seq<Bytes> {
    match f
    case ChunkFrame(c) => ChunkPieces(c)
    case KeepAliveFrame => KeepAlivePieces()
  }

  /** The yields of several rounds, in order. */
  function PiecesOf(fs: seq<Frame>): seq<Bytes>
    decreases |fs|
  {
    if fs == [] then [] else Pieces(fs[0]) + PiecesOf(fs[1..])
  }

  lemma {:induction false} PiecesSnoc(fs: seq<Frame>, f: Frame)
    ensures PiecesOf(fs + [f]) == PiecesOf(fs) + Pieces(f)
    decreases |fs|
  {
    if fs == [] {
      assert PiecesOf([f]) == Pieces(f) + PiecesOf([]);
    } else {
      assert (fs + [f])[1..] == fs[1..] + [f];
      PiecesSnoc(fs[1..], f);
    }
  }

  /** What `rounds` rounds deliver from a queue that nothing refills: round
      `i` delivers the `i`-th queued chunk while there is one, and a
      keep-alive after that. */
  function StreamFrames(queue: seq<QueuedChunk>, rounds: nat): (r: seq<Frame>)
    ensures |r| == rounds
  {
    seq(rounds, i requires 0 <= i < rounds => if i < |queue| then ChunkFrame(queue[i]) else KeepAliveFrame)
  }

  function Min(a: nat, b: nat): nat {
    if a <= b then a else b
  }

  // ---------------------------------------------------------------------
  // The generator
  // ---------------------------------------------------------------------

  /** `generate_audio()`, pulled `rounds` times by the client: it runs only
      while the processor is "active" and its flag is down, so a client that
      connects while the stream is still "starting", or after it stopped or
      failed, gets an empty body. Each round pops one chunk, or finds the
      queue empty and writes a keep-alive. */
  method GenerateAudio(p: LiveStreamProcessor, rounds: nat) returns (out: seq<Bytes>)
    modifies p
    ensures old(p.Valid()) ==> p.Valid()
    ensures var live := old(p.status) == Active && !old(p.stopFlag);
      var taken := if live then Min(rounds, |old(p.audioQueue)|) else 0;
      && out == (if live then PiecesOf(StreamFrames(old(p.audioQueue), rounds)) else [])
      && p.audioQueue == old(p.audioQueue)[taken..]
    ensures p.status == old(p.status) && p.stopFlag == old(p.stopFlag)
    ensures p.chunksProcessed == old(p.chunksProcessed) && p.totalDuration == old(p.totalDuration)
    ensures p.errorMessage == old(p.errorMessage) && p.streamInfo == old(p.streamInfo)
    ensures p.inFlight == old(p.inFlight)
  {
    ghost var q0 := p.audioQueue;
    out := [];
    var i := 0;
    while i < rounds && p.status == Active && !p.stopFlag
      invariant i <= rounds
      invariant old(p.Valid()) ==> p.Valid()
      invariant out == PiecesOf(StreamFrames(q0, i))
      invariant p.audioQueue == q0[Min(i, |q0|)..]
      invariant i > 0 ==> old(p.status) == Active && !old(p.stopFlag)
      invariant p.status == old(p.status) && p.stopFlag == old(p.stopFlag)
      invariant p.chunksProcessed == old(p.chunksProcessed) && p.totalDuration == old(p.totalDuration)
      invariant p.errorMessage == old(p.errorMessage) && p.streamInfo == old(p.streamInfo)
      invariant p.inFlight == old(p.inFlight)
      decreases rounds - i
    {
      NextRound(q0, i, p.audioQueue);
      var chunk := p.GetAudioChunk();
      if chunk.Some? {
        out := out + ChunkPieces(chunk.value);
      } else {
        out := out + KeepAlivePieces();
      }
      i := i + 1;
    }
  }

  /** Round `i` takes the head of what is left of the queue, or writes a
      keep-alive when nothing is left. */
  lemma NextRound(q0: seq<QueuedChunk>, i: nat, queue: seq<QueuedChunk>)
    requires queue == q0[Min(i, |q0|)..]
    ensures var frame := if queue == [] then KeepAliveFrame else ChunkFrame(queue[0]);
      && PiecesOf(StreamFrames(q0, i + 1)) == PiecesOf(StreamFrames(q0, i)) + Pieces(frame)
      && (if queue == [] then [] else queue[1..]) == q0[Min(i + 1, |q0|)..]
  {
    var frame := if queue == [] then KeepAliveFrame else ChunkFrame(queue[0]);
    assert StreamFrames(q0, i + 1) == StreamFrames(q0, i) + [frame];
    PiecesSnoc(StreamFrames(q0, i), frame);
  }

  // ---------------------------------------------------------------------
  // Reading the stream back
  // ---------------------------------------------------------------------

  const CR: Byte := 13
  const LF: Byte := 10

  /** One line ended by CR LF, and the bytes after it. */
  function TakeLine(b: Bytes): (r: Option<(Bytes, Bytes)>)
    ensures r.Some? ==> |r.value.1| + 2 <= |b|
    decreases |b|
  {
    if |b| < 2 then None
    else if b[0] == CR then (if b[1] == LF then Some(([], b[2..])) else None)
    else match TakeLine(b[1..])
      case None => None
      case Some(p) => Some(([b[0]] + p.0, p.1))
  }

  /** A header line `name` + value: the value and the bytes after the line. */
  function Header(b: Bytes, name: string): (r: Option<(Bytes, Bytes)>)
    ensures r.Some? ==> |r.value.1| + 2 <= |b|
  {
    match TakeLine(b)
    case None => None
    case Some(p) => if Ascii(name) <= p.0 then Some((p.0[|name|..], p.1)) else None
  }

  /** The empty line that ends the headers, then `n` payload bytes and the
      CR LF after them. */
  function Body(b: Bytes, n: nat): (r: Option<(Bytes, Bytes)>)
    ensures r.Some? ==> |r.value.1| + 4 <= |b|
  {
    match TakeLine(b)
    case None => None
    case Some(p) =>
      if p.0 == [] && n + 2 <= |p.1| && p.1[n..n + 2] == [CR, LF] then Some((p.1[..n], p.1[n + 2..]))
      else None
  }

  predicate IsDigitByte(x: Byte) {
    48 <= x <= 57
  }

  /** The number a run of ASCII digits spells, most significant first. */
  function DigitsValue(b: Bytes): nat
    requires forall i :: 0 <= i < |b| ==> IsDigitByte(b[i])
    decreases |b|
  {
    if b == [] then 0 else assert IsDigitByte(b[|b| - 1]); DigitsValue(b[..|b| - 1]) * 10 + (b[|b| - 1] as int - 48)
  }

  function ParseNat(b: Bytes): Option<nat> {
    if b != [] && forall i :: 0 <= i < |b| ==> IsDigitByte(b[i]) then Some(DigitsValue(b)) else None
  }

  function ParseInt(b: Bytes): Option<int> {
    if b != [] && b[0] == 45 then
      match ParseNat(b[1..])
      case None => None
      case Some(n) => Some(0 - n)
    else ParseNat(b)
  }

  /** The text an ASCII byte string encodes. */
  function Decode(b: Bytes): (r: string)
    ensures |r| == |b|
  {
    seq(|b|, i requires 0 <= i < |b| => b[i] as char)
  }

  /** The headers every part starts with: the boundary line, the content
      type and the payload length. */
  function ParseHead(b: Bytes): (r: Option<(Bytes, nat, Bytes)>)
    ensures r.Some? ==> |r.value.2| < |b|
  {
    match Header(b, Boundary)
    case None => None
    case Some(h0) =>
      if h0.0 != [] then None else
      match Header(h0.1, "Content-Type: ")
      case None => None
      case Some(h1) =>
        match Header(h1.1, "Content-Length: ")
        case None => None
        case Some(h2) =>
          match ParseNat(h2.0)
          case None => None
          case Some(n) => Some((h1.0, n, h2.1))
  }

  /** The rest of an audio part: id, timestamp, then the payload. */
  function ParseChunkRest(b: Bytes, n: nat): (r: Option<(Frame, Bytes)>)
    ensures r.Some? ==> |r.value.1| < |b|
  {
    match Header(b, "X-Chunk-ID: ")
    case None => None
    case Some(h3) =>
      match ParseInt(h3.0)
      case None => None
      case Some(id) =>
        match Header(h3.1, "X-Timestamp: ")
        case None => None
        case Some(h4) =>
          match Body(h4.1, n)
          case None => None
          case Some(body) => Some((ChunkFrame(QueuedChunk(id, body.0, Decode(h4.0))), body.1))
  }

  /** Read one part off the front of `b`: the frame it carries and the bytes
      after it. */
  function ParseFrame(b: Bytes): (r: Option<(Frame, Bytes)>)
    ensures r.Some? ==> |r.value.1| < |b|
  {
    match ParseHead(b)
    case None => None
    case Some(head) =>
      if head.0 == Ascii("audio/mpeg") then ParseChunkRest(head.2, head.1)
      else if head.0 == Ascii("text/plain") then
        match Body(head.2, head.1)
        case None => None
        case Some(body) => if body.0 == [] then Some((KeepAliveFrame, body.1)) else None
      else None
  }

  /** Read parts until the bytes run out. */
  function ParseStream(b: Bytes): Option<seq<Frame>>
    decreases |b|
  {
    if b == [] then Some([])
    else match ParseFrame(b)
      case None => None
      case Some(p) =>
        match ParseStream(p.1)
        case None => None
        case Some(rest) => Some([p.0] + rest)
  }

  // ---------------------------------------------------------------------
  // Round trip
  // ---------------------------------------------------------------------

  /** A text that survives the trip through the header lines: ASCII, with no
      carriage return. */
  predicate PlainText(s: string) {
    forall i :: 0 <= i < |s| ==> s[i] as int < 128 && s[i] != '\r'
  }

  predicate PlainFrame(f: Frame) {
    f.ChunkFrame? ==> PlainText(f.chunk.timestamp)
  }

  lemma AsciiAppend(a: string, b: string)
    ensures Ascii(a + b) == Ascii(a) + Ascii(b)
  {
    assert forall i :: 0 <= i < |a + b| ==> Ascii(a + b)[i] == (Ascii(a) + Ascii(b))[i];
  }

  lemma PlainHasNoCR(s: string)
    requires PlainText(s)
    ensures CR !in Ascii(s)
  {
    forall i | 0 <= i < |s|
      ensures Ascii(s)[i] != CR
    {
    }
  }

  lemma DecodeAscii(s: string)
    requires PlainText(s)
    ensures Decode(Ascii(s)) == s
  {
    forall i | 0 <= i < |s|
      ensures Decode(Ascii(s))[i] == s[i]
    {
    }
  }

  lemma {:induction false} TakeLineOf(line: Bytes, rest: Bytes)
    requires CR !in line
    ensures TakeLine(line + [CR, LF] + rest) == Some((line, rest))
    decreases |line|
  {
    var b := line + [CR, LF] + rest;
    if line == [] {
      assert b == [CR, LF] + rest;
      assert b[2..] == rest;
    } else {
      assert b[1..] == line[1..] + [CR, LF] + rest;
      TakeLineOf(line[1..], rest);
      assert [b[0]] + line[1..] == line;
    }
  }

  /** A line reads back as its text. */
  lemma LineOf(text: string, rest: Bytes)
    requires PlainText(text)
    ensures TakeLine(Line(text) + rest) == Some((Ascii(text), rest))
  {
    AsciiAppend(text, "\r\n");
    assert Ascii("\r\n") == [CR, LF];
    PlainHasNoCR(text);
    assert Line(text) + rest == Ascii(text) + [CR, LF] + rest;
    TakeLineOf(Ascii(text), rest);
  }

  /** A header line reads back as its value. */
  lemma HeaderOf(name: string, value: string, rest: Bytes)
    requires PlainText(name) && PlainText(value)
    ensures Header(HeaderLine(name, value) + rest, name) == Some((Ascii(value), rest))
  {
    AsciiAppend(name, value);
    LineOf(name + value, rest);
    assert Ascii(name + value)[|name|..] == Ascii(value);
  }

  /** The boundary line reads back as a header with nothing after its name. */
  lemma BoundaryOf(rest: Bytes)
    ensures Header(Line(Boundary) + rest, Boundary) == Some(([], rest))
  {
    assert Boundary + "" == Boundary;
    HeaderOf(Boundary, "", rest);
  }

  /** The digits of `n` are ASCII digit bytes, and the first is not a minus
      sign. */
  lemma NatTextBytes(n: nat)
    ensures forall i :: 0 <= i < |Ascii(NatText(n))| ==> IsDigitByte(Ascii(NatText(n))[i])
    ensures Ascii(NatText(n))[0] != 45
  {
  }

  /** Appending a digit multiplies the value by ten and adds the digit. */
  lemma DigitsValueSnoc(h: Bytes, d: nat, a: Bytes)
    requires d < 10 && a == h + [48 + d]
    requires forall i :: 0 <= i < |h| ==> IsDigitByte(h[i])
    ensures forall i :: 0 <= i < |a| ==> IsDigitByte(a[i])
    ensures DigitsValue(a) == DigitsValue(h) * 10 + d
  {
    assert a[..|h|] == h;
  }

  /** The last digit of `n` is `n % 10`, after the digits of `n / 10`. */
  lemma NatTextSnoc(n: nat)
    requires n >= 10
    ensures Ascii(NatText(n)) == Ascii(NatText(n / 10)) + [48 + n % 10]
  {
    AsciiAppend(NatText(n / 10), [DigitChar(n % 10)]);
  }

  /** The digits of `n` spell `n`. */
  lemma {:induction false} NatTextDigits(n: nat)
    ensures forall i :: 0 <= i < |Ascii(NatText(n))| ==> IsDigitByte(Ascii(NatText(n))[i])
    ensures DigitsValue(Ascii(NatText(n))) == n
    decreases n
  {
    NatTextBytes(n);
    if n < 10 {
      var a := Ascii(NatText(n));
      assert a == [48 + n];
      assert a[..0] == [];
    } else {
      NatTextDigits(n / 10);
      NatTextSnoc(n);
      DigitsValueSnoc(Ascii(NatText(n / 10)), n % 10, Ascii(NatText(n)));
    }
  }

  lemma NatTextValue(n: nat)
    ensures ParseNat(Ascii(NatText(n))) == Some(n)
    ensures Ascii(NatText(n))[0] != 45
  {
    NatTextBytes(n);
    NatTextDigits(n);
  }

  lemma IntTextValue(n: int)
    ensures ParseInt(Ascii(IntText(n))) == Some(n)
  {
    var a := Ascii(IntText(n));
    if n < 0 {
      var m: nat := -n;
      NatTextValue(m);
      AsciiAppend("-", NatText(m));
      assert a == Ascii("-") + Ascii(NatText(m));
      assert a[0] == 45 && a[1..] == Ascii(NatText(m));
      assert ParseNat(a[1..]) == Some(m);
    } else {
      NatTextValue(n);
      assert a == Ascii(NatText(n));
    }
  }

  lemma IntTextPlain(n: int)
    ensures PlainText(IntText(n))
  {
  }

  /** One part reads back as the frame it was written from, whatever
      follows it. */
  lemma ParseFrameOf(f: Frame, rest: Bytes)
    requires PlainFrame(f)
    ensures ParseFrame(Flatten(Pieces(f)) + rest) == Some((f, rest))
  {
    match f
    case ChunkFrame(c) => ParseChunkOf(c, rest);
    case KeepAliveFrame => ParseKeepAliveOf(rest);
  }

  /** The three leading headers read back. */
  lemma ParseHeadOf(contentType: string, n: nat, rest: Bytes)
    requires PlainText(contentType)
    ensures var b := Line(Boundary) + (HeaderLine("Content-Type: ", contentType)
                       + (HeaderLine("Content-Length: ", IntText(n)) + rest));
      ParseHead(b) == Some((Ascii(contentType), n, rest))
  {
    var r2 := HeaderLine("Content-Length: ", IntText(n)) + rest;
    var r1 := HeaderLine("Content-Type: ", contentType) + r2;
    BoundaryOf(r1);
    HeaderOf("Content-Type: ", contentType, r2);
    IntTextPlain(n);
    HeaderOf("Content-Length: ", IntText(n), rest);
    NatTextValue(n);
    assert ParseNat(Ascii(IntText(n))) == Some(n);
  }

  /** A blank line, `n` payload bytes and CR LF read back as the payload. */
  lemma BodyOf(payload: Bytes, rest: Bytes)
    ensures Body(Ascii("\r\n") + (payload + (Ascii("\r\n") + rest)), |payload|) == Some((payload, rest))
  {
    var r6 := payload + (Ascii("\r\n") + rest);
    assert Ascii("\r\n") == [CR, LF];
    TakeLineOf([], r6);
    assert Ascii("\r\n") + r6 == [] + [CR, LF] + r6;
    var n := |payload|;
    assert r6[..n] == payload;
    assert r6[n..n + 2] == [CR, LF];
    assert r6[n + 2..] == rest;
  }

  lemma ParseKeepAliveOf(rest: Bytes)
    ensures ParseFrame(Flatten(KeepAlivePieces()) + rest) == Some((KeepAliveFrame, rest))
  {
    var tail := Ascii("\r\n\r\n") + rest;
    var b := Flatten(KeepAlivePieces()) + rest;
    KeepAliveBytes(rest);
    assert ParseHead(b) == Some((Ascii("text/plain"), 0, tail)) by {
      assert IntText(0) == "0";
      ParseHeadOf("text/plain", 0, tail);
    }
    assert Body(tail, 0) == Some(([], rest)) by {
      AsciiAppend("\r\n", "\r\n");
      BodyOf([], rest);
      assert tail == Ascii("\r\n") + ([] + (Ascii("\r\n") + rest));
    }
    KeepAliveFrameOf(b, tail, rest);
  }

  /** The bytes of a keep-alive part, grouped as the parser reads them. */
  lemma KeepAliveBytes(rest: Bytes)
    ensures Flatten(KeepAlivePieces()) + rest
         == Line(Boundary) + (HeaderLine("Content-Type: ", "text/plain")
              + (HeaderLine("Content-Length: ", "0") + (Ascii("\r\n\r\n") + rest)))
  {
    FlattenFour(KeepAlivePieces());
  }

  /** A part typed `text/plain` with an empty body is a keep-alive. */
  lemma KeepAliveFrameOf(b: Bytes, tail: Bytes, rest: Bytes)
    requires ParseHead(b) == Some((Ascii("text/plain"), 0, tail))
    requires Body(tail, 0) == Some(([], rest))
    ensures ParseFrame(b) == Some((KeepAliveFrame, rest))
  {
    assert Ascii("text/plain")[0] != Ascii("audio/mpeg")[0];
  }

  lemma ParseChunkOf(c: QueuedChunk, rest: Bytes)
    requires PlainText(c.timestamp)
    ensures ParseFrame(Flatten(ChunkPieces(c)) + rest) == Some((ChunkFrame(c), rest))
  {
    var ps := ChunkPieces(c);
    var r5 := Ascii("\r\n") + (c.audioData + (Ascii("\r\n") + rest));
    var r3 := ps[3] + (ps[4] + r5);
    FlattenEight(ps);
    assert Flatten(ps) + rest == ps[0] + (ps[1] + (ps[2] + r3));
    ParseHeadOf("audio/mpeg", |c.audioData|, r3);
    assert ParseHead(Flatten(ps) + rest) == Some((Ascii("audio/mpeg"), |c.audioData|, r3));
    ParseChunkRestOf(c, rest);
    assert ParseChunkRest(r3, |c.audioData|) == Some((ChunkFrame(c), rest));
  }

  lemma ParseChunkRestOf(c: QueuedChunk, rest: Bytes)
    requires PlainText(c.timestamp)
    ensures var r5 := Ascii("\r\n") + (c.audioData + (Ascii("\r\n") + rest));
      ParseChunkRest(HeaderLine("X-Chunk-ID: ", IntText(c.chunkId))
                       + (HeaderLine("X-Timestamp: ", c.timestamp) + r5), |c.audioData|)
        == Some((ChunkFrame(c), rest))
  {
    var r5 := Ascii("\r\n") + (c.audioData + (Ascii("\r\n") + rest));
    var r4 := HeaderLine("X-Timestamp: ", c.timestamp) + r5;
    IntTextPlain(c.chunkId);
    HeaderOf("X-Chunk-ID: ", IntText(c.chunkId), r4);
    IntTextValue(c.chunkId);
    HeaderOf("X-Timestamp: ", c.timestamp, r5);
    DecodeAscii(c.timestamp);
    BodyOf(c.audioData, rest);
  }

  lemma FlattenCons(x: Bytes, rest: seq<Bytes>)
    ensures Flatten([x] + rest) == x + Flatten(rest)
  {
    FlattenAppend([x], rest);
    assert Flatten([x]) == Flatten([]) + x;
  }

  lemma FlattenFour(ps: seq<Bytes>)
    requires |ps| == 4
    ensures Flatten(ps) == ps[0] + (ps[1] + (ps[2] + ps[3]))
  {
    forall i | 0 <= i < 4
      ensures Flatten(ps[i..]) == ps[i] + Flatten(ps[i + 1..])
    {
      assert ps[i..] == [ps[i]] + ps[i + 1..];
      FlattenCons(ps[i], ps[i + 1..]);
    }
    assert Flatten(ps[4..]) == [];
    assert ps[0..] == ps;
  }

  lemma FlattenEight(ps: seq<Bytes>)
    requires |ps| == 8
    ensures Flatten(ps) == ps[0] + (ps[1] + (ps[2] + (ps[3] + (ps[4] + (ps[5] + (ps[6] + ps[7]))))))
  {
    forall i | 0 <= i < 8
      ensures Flatten(ps[i..]) == ps[i] + Flatten(ps[i + 1..])
    {
      assert ps[i..] == [ps[i]] + ps[i + 1..];
      FlattenCons(ps[i], ps[i + 1..]);
    }
    assert Flatten(ps[8..]) == [];
    assert ps[0..] == ps;
  }

  lemma {:induction false} FlattenAppend(a: seq<Bytes>, b: seq<Bytes>)
    ensures Flatten(a + b) == Flatten(a) + Flatten(b)
    decreases |b|
  {
    if b != [] {
      var last := b[|b| - 1];
      var init := b[..|b| - 1];
      assert a + b == (a + init) + [last];
      FlattenSnoc(a + init, last);
      FlattenAppend(a, init);
      assert Flatten(b) == Flatten(init) + last;
    } else {
      assert a + b == a;
    }
  }

  /** What the generator writes reads back, part by part, as the frames it
      was written from. */
  lemma {:induction false} ParseStreamOf(fs: seq<Frame>)
    requires forall i :: 0 <= i < |fs| ==> PlainFrame(fs[i])
    ensures ParseStream(Flatten(PiecesOf(fs))) == Some(fs)
    decreases |fs|
  {
    if fs != [] {
      var rest := Flatten(PiecesOf(fs[1..]));
      FlattenAppend(Pieces(fs[0]), PiecesOf(fs[1..]));
      ParseFrameOf(fs[0], rest);
      ParseStreamOf(fs[1..]);
      assert [fs[0]] + fs[1..] == fs;
    }
  }

  /** A client of a live stream reads back exactly the queued chunks, in
      queue order, then keep-alives, for every round it pulled. */
  lemma StreamRoundTrip(queue: seq<QueuedChunk>, rounds: nat)
    requires forall i :: 0 <= i < |queue| ==> PlainText(queue[i].timestamp)
    ensures ParseStream(Flatten(PiecesOf(StreamFrames(queue, rounds)))) == Some(StreamFrames(queue, rounds))
    ensures var read := ParseStream(Flatten(PiecesOf(StreamFrames(queue, rounds))));
      && read.Some? && |read.value| == rounds
      && (forall i :: 0 <= i < rounds && i < |queue| ==> read.value[i] == ChunkFrame(queue[i]))
      && (forall i :: |queue| <= i < rounds ==> read.value[i] == KeepAliveFrame)
  {
    ParseStreamOf(StreamFrames(queue, rounds));
  }

  /** The `Content-Length` of a chunk part is the length of its payload. */
  lemma ContentLengthIsPayloadLength(c: QueuedChunk, rest: Bytes)
    requires PlainText(c.timestamp)
    ensures var b := Flatten(ChunkPieces(c)) + rest;
      && Header(b, Boundary).Some?
      && var h1 := Header(Header(b, Boundary).value.1, "Content-Type: ");
      && h1.Some?
      && var h2 := Header(h1.value.1, "Content-Length: ");
      && h2.Some? && ParseNat(h2.value.0) == Some(|c.audioData|)
  {
    ParseChunkOf(c, rest);
  }
}
