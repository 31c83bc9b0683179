/** Cutting a stream into chunks changes nothing that matters, and decoding undoes encoding. */
module FramingTheorems {
  import opened Options
  import opened Bytes
  import opened Framing

  // ---------------------------------------------------------------- parsing a concatenation

  // Bytes arriving later never change what the front of a stream amounts to.
  lemma HeadIsStable<V>(a: seq<Byte>, b: seq<Byte>, c: Config<V>)
    requires !HeadOf(a, c).Incomplete?
    ensures HeadOf(a + b, c) == HeadOf(a, c)
  {
    var n := Length(a);
    assert Length(a + b) == n;
    if 0 < n <= c.ceiling {
      assert (a + b)[HEADER..HEADER + n] == a[HEADER..HEADER + n];
    }
  }

  // Parse what is left over together with what arrives next.
  ghost function Resume<V>(p: Parse<V>, b: seq<Byte>, c: Config<V>): Parse<V> {
    if p.failure.Some? then p
    else
      var q := ParseAll(p.rest + b, c);
      Parse(p.frames + q.frames, q.rest, q.failure)
  }

  ghost predicate SameOutcome<V>(p: Parse<V>, q: Parse<V>) {
    p.frames == q.frames && p.failure == q.failure && (p.failure.None? ==> p.rest == q.rest)
  }

  function Behind<V>(f: Frame<V>, p: Parse<V>): Parse<V> { Parse([f] + p.frames, p.rest, p.failure) }

  lemma ResumeBehind<V>(f: Frame<V>, whole: Parse<V>, p: Parse<V>, b: seq<Byte>, c: Config<V>)
    requires SameOutcome(whole, Resume(p, b, c))
    ensures SameOutcome(Behind(f, whole), Resume(Behind(f, p), b, c))
  {
    if p.failure.None? {
      var q := ParseAll(p.rest + b, c);
      assert [f] + (p.frames + q.frames) == ([f] + p.frames) + q.frames;
    }
  }

  lemma {:induction false} ParseResumes<V>(a: seq<Byte>, b: seq<Byte>, c: Config<V>)
    ensures SameOutcome(ParseAll(a + b, c), Resume(ParseAll(a, c), b, c))
    decreases |a|
  {
    match HeadOf(a, c)
    case Incomplete =>
      assert Resume(ParseAll(a, c), b, c).frames == ParseAll(a + b, c).frames;
    case Broken(_) => HeadIsStable(a, b, c);
    case Complete(frame, size) =>
      HeadIsStable(a, b, c);
      assert (a + b)[size..] == a[size..] + b;
      ParseResumes(a[size..], b, c);
      ResumeBehind(frame, ParseAll(a[size..] + b, c), ParseAll(a[size..], c), b, c);
  }

  // ---------------------------------------------------------------- runs of the decoder

  function Concat(chunks: seq<seq<Byte>>): seq<Byte> {
    if chunks == [] then [] else Concat(chunks[..|chunks| - 1]) + chunks[|chunks| - 1]
  }

  // Everything a run of pushes leaves behind: the decoder, the frames handed out, and the first violation.
  datatype Outcome<+V> = Outcome(decoder: Decoder, delivered: seq<Frame<V>>, first: Option<Code>)

  function Feed<V>(chunks: seq<seq<Byte>>, c: Config<V>): Outcome<V> {
    if chunks == [] then Outcome(Decoder([], None), [], None)
    else
      var before := Feed(chunks[..|chunks| - 1], c);
      var (d, pushed) := PushOf(before.decoder, chunks[|chunks| - 1], c);
      match pushed
      case Frames(frames) => Outcome(d, before.delivered + frames, before.first)
      case Failed(code) => Outcome(d, before.delivered, if before.first.None? then Some(code) else before.first)
  }

  /** However a stream is cut, the run reaches the verdict and the first violation code of the one-shot parse.
      A clean run hands out exactly the parsed frames and holds back exactly the unparsed tail. */
  lemma {:induction false} ChunkingIsInvisible<V>(chunks: seq<seq<Byte>>, c: Config<V>)
    ensures Feed(chunks, c).first == ParseAll(Concat(chunks), c).failure
    ensures Feed(chunks, c).decoder.failure == Feed(chunks, c).first
    ensures var p := ParseAll(Concat(chunks), c);
      p.failure.None? ==> Feed(chunks, c).delivered == p.frames && Feed(chunks, c).decoder.buffer == p.rest
    ensures Feed(chunks, c).delivered <= ParseAll(Concat(chunks), c).frames
  {
    if chunks != [] {
      var front, last := chunks[..|chunks| - 1], chunks[|chunks| - 1];
      ChunkingIsInvisible(front, c);
      ParseResumes(Concat(front), last, c);
    }
  }

  /** Two ways of cutting one stream end with the same verdict and violation code; on a clean stream they also
      hand out the same frames, and on a violating one the shorter delivery is a prefix of the longer. */
  lemma CutsAgree<V>(left: seq<seq<Byte>>, right: seq<seq<Byte>>, c: Config<V>)
    requires Concat(left) == Concat(right)
    ensures Feed(left, c).first == Feed(right, c).first
    ensures Feed(left, c).first.None? ==> Feed(left, c) == Feed(right, c)
    ensures Feed(left, c).delivered <= Feed(right, c).delivered || Feed(right, c).delivered <= Feed(left, c).delivered
  {
    ChunkingIsInvisible(left, c);
    ChunkingIsInvisible(right, c);
  }

  /** The frames lost to a violation are those completed in the very push that met it. */
  lemma {:induction false} DeliveredBeforeViolation<V>(chunks: seq<seq<Byte>>, k: nat, c: Config<V>)
    requires k < |chunks|
    requires Feed(chunks[..k], c).first.None? && Feed(chunks[..k + 1], c).first.Some?
    ensures Feed(chunks, c).delivered == ParseAll(Concat(chunks[..k]), c).frames
    ensures Feed(chunks, c).decoder == Decoder([], Feed(chunks[..k + 1], c).first)
    decreases |chunks|
  {
    if k + 1 == |chunks| {
      assert chunks[..k + 1] == chunks && chunks[..k] == chunks[..|chunks| - 1];
      ChunkingIsInvisible(chunks[..k], c);
    } else {
      var front := chunks[..|chunks| - 1];
      assert front[..k] == chunks[..k] && front[..k + 1] == chunks[..k + 1];
      DeliveredBeforeViolation(front, k, c);
    }
  }

  // ---------------------------------------------------------------- round trip

  ghost predicate Sendable<V>(body: seq<Byte>, c: Config<V>) {
    Encode(body, c.ceiling).Ok? && c.decode(body).Value?
  }

  ghost predicate AllSendable<V>(bodies: seq<seq<Byte>>, c: Config<V>) {
    forall i | 0 <= i < |bodies| :: Sendable(bodies[i], c) && bodies[i] != []
  }

  function Encodings(bodies: seq<seq<Byte>>, ceiling: nat): seq<Byte>
    requires forall i | 0 <= i < |bodies| :: Encode(bodies[i], ceiling).Ok?
  {
    if bodies == [] then []
    else Encode(bodies[0], ceiling).bytes + Encodings(bodies[1..], ceiling)
  }

  ghost function FramesOf<V>(bodies: seq<seq<Byte>>, c: Config<V>): seq<Frame<V>>
    requires AllSendable(bodies, c)
  {
    if bodies == [] then [] else [Frame(bodies[0], c.decode(bodies[0]).value)] + FramesOf(bodies[1..], c)
  }

  lemma FitsHeader(n: nat)
    requires n < U32
    ensures n % U32 == n
  {
  }

  lemma EncodedHead<V>(body: seq<Byte>, tail: seq<Byte>, c: Config<V>)
    requires Sendable(body, c) && 0 < |body| < U32
    ensures HeadOf(Encode(body, c.ceiling).bytes + tail, c)
            == Complete(Frame(body, c.decode(body).value), HEADER + |body|)
  {
    var s := Encode(body, c.ceiling).bytes + tail;
    FitsHeader(|body|);
    assert s == Be(|body|, HEADER) + (body + tail);
    assert Length(s) == |body| by { HeaderLength(|body|, body + tail); }
    assert s[HEADER..HEADER + |body|] == body;
  }

  // A complete frame in front of a stream is delivered first.
  lemma ParseFirst<V>(first: seq<Byte>, rest: seq<Byte>, c: Config<V>, f: Frame<V>)
    requires HeadOf(first + rest, c) == Complete(f, |first|)
    ensures var p := ParseAll(rest, c); ParseAll(first + rest, c) == Parse([f] + p.frames, p.rest, p.failure)
  {
    assert (first + rest)[|first|..] == rest;
  }

  // The stream delivers `frames` and then whatever `tail` delivers.
  ghost predicate DecodesTo<V>(s: seq<Byte>, frames: seq<Frame<V>>, tail: seq<Byte>, c: Config<V>) {
    var p := ParseAll(tail, c);
    ParseAll(s, c) == Parse(frames + p.frames, p.rest, p.failure)
  }

  lemma DecodesMore<V>(first: seq<Byte>, rest: seq<Byte>, f: Frame<V>, frames: seq<Frame<V>>, tail: seq<Byte>,
                       c: Config<V>)
    requires HeadOf(first + rest, c) == Complete(f, |first|) && DecodesTo(rest, frames, tail, c)
    ensures DecodesTo(first + rest, [f] + frames, tail, c)
  {
    ParseFirst(first, rest, c, f);
    var p := ParseAll(tail, c);
    assert [f] + (frames + p.frames) == ([f] + frames) + p.frames;
  }

  lemma SplitEncodings<V>(bodies: seq<seq<Byte>>, tail: seq<Byte>, c: Config<V>)
    requires bodies != [] && AllSendable(bodies, c)
    ensures var body, more := bodies[0], bodies[1..];
      && Sendable(body, c) && body != [] && AllSendable(more, c)
      && Encodings(bodies, c.ceiling) + tail == Encode(body, c.ceiling).bytes + (Encodings(more, c.ceiling) + tail)
      && FramesOf(bodies, c) == [Frame(body, c.decode(body).value)] + FramesOf(more, c)
  {
  }

  /** Decoding concatenated encodings, followed by anything, first gives back exactly the bodies. */
  lemma {:induction false} DecodeEncoded<V>(bodies: seq<seq<Byte>>, tail: seq<Byte>, c: Config<V>)
    requires c.ceiling < U32
    requires AllSendable(bodies, c)
    ensures DecodesTo(Encodings(bodies, c.ceiling) + tail, FramesOf(bodies, c), tail, c)
    decreases |bodies|
  {
    if bodies == [] {
      assert Encodings(bodies, c.ceiling) + tail == tail;
    } else {
      SplitEncodings(bodies, tail, c);
      var body, more := bodies[0], bodies[1..];
      DecodeEncoded(more, tail, c);
      EncodedMore(body, Encodings(more, c.ceiling) + tail, FramesOf(more, c), tail, c);
    }
  }

  lemma EncodedMore<V>(body: seq<Byte>, rest: seq<Byte>, frames: seq<Frame<V>>, tail: seq<Byte>, c: Config<V>)
    requires Sendable(body, c) && 0 < |body| < U32 && DecodesTo(rest, frames, tail, c)
    ensures DecodesTo(Encode(body, c.ceiling).bytes + rest, [Frame(body, c.decode(body).value)] + frames, tail, c)
  {
    EncodedHead(body, rest, c);
    DecodesMore(Encode(body, c.ceiling).bytes, rest, Frame(body, c.decode(body).value), frames, tail, c);
  }

  /** One frame survives the trip exactly when its body is non-empty and its length fits the 32-bit header; a
      ceiling of 2^32 or more lets the encoder write frames the decoder misreads. */
  lemma RoundTripExactly<V>(body: seq<Byte>, c: Config<V>)
    requires Sendable(body, c)
    ensures ParseAll(Encode(body, c.ceiling).bytes, c) == Parse([Frame(body, c.decode(body).value)], [], None)
            <==> 0 < |body| < U32
  {
    var s := Encode(body, c.ceiling).bytes;
    if 0 < |body| < U32 {
      EncodedHead(body, [], c);
      assert s + [] == s;
    } else {
      HeaderLength(|body| % U32, body);
      assert Length(s) != |body| || Length(s) == 0;
      var p := ParseAll(s, c);
      if p.frames != [] {
        assert |p.frames[0].raw| == Length(s);
      }
    }
  }

  /** Encoder and decoder draw the same line: under a positive ceiling, a body is refused as oversized by the one
      exactly when its frame is by the other. */
  lemma CeilingsAgree<V>(body: seq<Byte>, c: Config<V>)
    requires 0 < |body| < U32 && c.ceiling > 0 && c.decode(body) != Violation(Oversized)
    ensures Encode(body, c.ceiling) == Err(Oversized) <==> HeadOf(Be(|body|, HEADER) + body, c) == Broken(Oversized)
    ensures Encode(body, c.ceiling).Err? ==> Encode(body, c.ceiling) == Err(Oversized)
  {
    var s := Be(|body|, HEADER) + body;
    assert Length(s) == |body| by { HeaderLength(|body|, body); }
    assert s[HEADER..HEADER + |body|] == body;
  }

  /** The wrapped header in full: a body of 2^32 bytes is sent with length 0. */
  lemma WrappedHeaderIsRefused<V>(body: seq<Byte>, c: Config<V>)
    requires |body| == U32 && c.ceiling >= U32
    ensures Encode(body, c.ceiling).Ok?
    ensures ParseAll(Encode(body, c.ceiling).bytes, c).failure == Some(Malformed)
  {
    HeaderLength(0, body);
  }

  /** Any cutting of the encodings hands out exactly the bodies and leaves nothing buffered. */
  lemma DecodeInChunks<V>(chunks: seq<seq<Byte>>, bodies: seq<seq<Byte>>, c: Config<V>)
    requires c.ceiling < U32
    requires AllSendable(bodies, c)
    requires Concat(chunks) == Encodings(bodies, c.ceiling)
    ensures Feed(chunks, c) == Outcome(Decoder([], None), FramesOf(bodies, c), None)
  {
    ChunkingIsInvisible(chunks, c);
    DecodeEncoded(bodies, [], c);
    assert Encodings(bodies, c.ceiling) + [] == Concat(chunks);
    assert ParseAll([], c) == Parse([], [], None);
  }

  // ---------------------------------------------------------------- what a parse says about the stream

  // The frames as they stand on the wire: four bytes of length, then the body.
  ghost function Wire<V>(frames: seq<Frame<V>>): seq<Byte> {
    if frames == [] then [] else Be(|frames[0].raw|, HEADER) + frames[0].raw + Wire(frames[1..])
  }

  ghost predicate Genuine<V>(f: Frame<V>, c: Config<V>) {
    1 <= |f.raw| <= c.ceiling && c.decode(f.raw) == Value(f.value)
  }

  ghost predicate AllGenuine<V>(frames: seq<Frame<V>>, c: Config<V>) {
    forall i | 0 <= i < |frames| :: Genuine(frames[i], c)
  }

  // The bytes start with a length field for n.
  ghost predicate Announces(s: seq<Byte>, n: nat) { n < U32 && Be(n, HEADER) <= s }

  // What is wrong with bytes that no frame can be taken from.
  ghost predicate Refused<V>(s: seq<Byte>, code: Code, c: Config<V>) {
    || (code == Malformed && Announces(s, 0))
    || (code == Oversized && exists n: nat :: Announces(s, n) && n > c.ceiling)
    || exists body, tail :: 1 <= |body| <= c.ceiling && c.decode(body) == Violation(code)
                            && Announces(s, |body|) && s == Be(|body|, HEADER) + body + tail
  }

  // Bytes of which a frame is still missing something.
  ghost predicate Pending<V>(s: seq<Byte>, c: Config<V>) {
    |s| < HEADER || exists n: nat :: Announces(s, n) && 1 <= n <= c.ceiling && |s| < HEADER + n
  }

  ghost predicate Ends<V>(rest: seq<Byte>, failure: Option<Code>, c: Config<V>) {
    match failure
    case None => Pending(rest, c)
    case Some(code) => Refused(rest, code, c)
  }

  ghost predicate Says<V>(s: seq<Byte>, p: Parse<V>, c: Config<V>) {
    s == Wire(p.frames) + p.rest && AllGenuine(p.frames, c) && Ends(p.rest, p.failure, c)
  }

  lemma HeaderBytes(s: seq<Byte>)
    requires |s| >= HEADER
    ensures Announces(s, Length(s))
  {
    var a, b, c, d := s[0] as int, s[1] as int, s[2] as int, s[3] as int;
    var n := Length(s);
    assert n / 256 == a * 0x1_0000 + b * 0x100 + c && n % 256 == d;
    assert n / 256 / 256 == a * 0x100 + b && n / 256 % 256 == c;
    assert n / 256 / 256 / 256 == a && n / 256 / 256 % 256 == b;
    assert Be(n / 256 / 256 / 256, 1) == [a];
    assert Be(n / 256 / 256, 2) == [a, b];
    assert Be(n / 256, 3) == [a, b, c];
    assert Be(n, 4) == [a, b, c, d];
  }

  lemma HeadSays<V>(s: seq<Byte>, c: Config<V>)
    ensures match HeadOf(s, c)
      case Incomplete => Pending(s, c)
      case Broken(code) => Refused(s, code, c)
      case Complete(f, size) =>
        Genuine(f, c) && size == HEADER + |f.raw| && s[..size] == Be(|f.raw|, HEADER) + f.raw
  {
    if |s| >= HEADER {
      var n := Length(s);
      HeaderBytes(s);
      if 1 <= n <= c.ceiling && HEADER + n <= |s| {
        var body, tail := s[HEADER..HEADER + n], s[HEADER + n..];
        assert |body| == n;
        assert s[..HEADER + n] == Be(n, HEADER) + body;
        assert s == Be(n, HEADER) + body + tail;
      }
    }
  }

  /** A parse read backwards: the stream is its frames, each as a length and a body the codec accepts, followed by
      the rest; and the rest is short of a frame, or refused for its length or by the codec. */
  lemma {:induction false} ParseSays<V>(s: seq<Byte>, c: Config<V>)
    ensures Says(s, ParseAll(s, c), c)
    decreases |s|
  {
    HeadSays(s, c);
    var head := HeadOf(s, c);
    if head.Complete? {
      ParseSays(s[head.size..], c);
      SaysMore(s, head.frame, ParseAll(s[head.size..], c), c);
    }
  }

  lemma SaysMore<V>(s: seq<Byte>, f: Frame<V>, p: Parse<V>, c: Config<V>)
    requires var first := Be(|f.raw|, HEADER) + f.raw; first <= s && Says(s[|first|..], p, c)
    requires Genuine(f, c)
    ensures Says(s, Behind(f, p), c)
  {
    var first := Be(|f.raw|, HEADER) + f.raw;
    assert ([f] + p.frames)[1..] == p.frames;
    assert s == first + s[|first|..];
    assert first + (Wire(p.frames) + p.rest) == first + Wire(p.frames) + p.rest;
  }
}
