/** Length-prefixed frames: the encoder, the streaming decoder, and the one-shot parse it refines. */
module Framing {
  import opened Options
  import opened Bytes

  const HEADER: nat := 4
  const U32: nat := 0x1_0000_0000

  datatype Code = Malformed | Oversized | Encoding | Json | ReservedKey | TooDeep | Poisoned

  // What decoding a body yields; the decoder's own behaviour does not depend on how.
  datatype Decoded<+V> = Value(value: V) | Violation(code: Code)

  datatype Frame<+V> = Frame(raw: seq<Byte>, value: V)

  datatype Config<!V> = Config(ceiling: nat, decode: seq<Byte> -> Decoded<V>)

  // ---------------------------------------------------------------- headers

  function Length(s: seq<Byte>): nat
    requires |s| >= HEADER
  {
    s[0] as int * 0x100_0000 + s[1] as int * 0x1_0000 + s[2] as int * 0x100 + s[3] as int
  }

  lemma LengthIsNum(s: seq<Byte>)
    requires |s| == HEADER
    ensures Length(s) == Num(s)
  {
    assert s[..3][..2] == s[..2] && s[..2][..1] == s[..1] && s[..1][..0] == [];
    assert Num(s[..1]) == s[0] as int;
    assert Num(s[..2]) == 256 * Num(s[..1]) + s[1] as int;
    assert Num(s[..3]) == 256 * Num(s[..2]) + s[2] as int;
  }

  lemma HeaderLength(n: nat, tail: seq<Byte>)
    requires n < U32
    ensures Length(Be(n, HEADER) + tail) == n
  {
    LengthIsNum(Be(n, HEADER));
    assert Pow256(4) == 256 * 256 * 256 * 256;
    NumBe(n, HEADER);
  }

  // ---------------------------------------------------------------- encode_frame

  datatype Encoded = Ok(bytes: seq<Byte>) | Err(code: Code)

  // The length is cast to u32, so it wraps.
  function Encode(body: seq<Byte>, ceiling: nat): Encoded {
    if ceiling == 0 then Err(Malformed)
    else if |body| > ceiling then Err(Oversized)
    else Ok(Be(|body| % U32, HEADER) + body)
  }

  // ---------------------------------------------------------------- one-shot parse

  datatype Parse<+V> = Parse(frames: seq<Frame<V>>, rest: seq<Byte>, failure: Option<Code>)

  // What the bytes at the front of a stream amount to.
  datatype Head<+V> = Incomplete | Broken(code: Code) | Complete(frame: Frame<V>, size: nat)

  function HeadOf<V>(s: seq<Byte>, c: Config<V>): (h: Head<V>)
    ensures h.Complete? ==> HEADER < h.size <= |s|
  {
    if |s| < HEADER then Incomplete
    else
      var n := Length(s);
      if n == 0 then Broken(Malformed)
      else if n > c.ceiling then Broken(Oversized)
      else if |s| < HEADER + n then Incomplete
      else
        var body := s[HEADER..HEADER + n];
        match c.decode(body)
        case Violation(code) => Broken(code)
        case Value(v) => Complete(Frame(body, v), HEADER + n)
  }

  function ParseAll<V>(s: seq<Byte>, c: Config<V>): Parse<V>
    decreases |s|
  {
    match HeadOf(s, c)
    case Incomplete => Parse([], s, None)
    case Broken(code) => Parse([], s, Some(code))
    case Complete(frame, size) =>
      var more := ParseAll(s[size..], c);
      Parse([frame] + more.frames, more.rest, more.failure)
  }

  // ---------------------------------------------------------------- the decoder

  datatype Decoder = Decoder(buffer: seq<Byte>, failure: Option<Code>)

  datatype Pushed<+V> = Frames(frames: seq<Frame<V>>) | Failed(code: Code)

  // What one push does, without the trailing buffer check.
  function PushOf<V>(d: Decoder, chunk: seq<Byte>, c: Config<V>): (Decoder, Pushed<V>) {
    if d.failure.Some? then (d, Failed(Poisoned))
    else
      var p := ParseAll(d.buffer + chunk, c);
      if p.failure.Some? then (Decoder([], p.failure), Failed(p.failure.value))
      else (Decoder(p.rest, None), Frames(p.frames))
  }

  // The frames taken so far and the parse of what is left make up the whole parse.
  ghost predicate Remaining<V>(whole: Parse<V>, frames: seq<Frame<V>>, left: Parse<V>) {
    whole == Parse(frames + left.frames, left.rest, left.failure)
  }

  lemma RemainingMore<V>(whole: Parse<V>, frames: seq<Frame<V>>, f: Frame<V>, left: Parse<V>)
    requires Remaining(whole, frames, Parse([f] + left.frames, left.rest, left.failure))
    ensures Remaining(whole, frames + [f], left)
  {
    assert frames + ([f] + left.frames) == (frames + [f]) + left.frames;
  }

  lemma RemainingStep<V>(whole: Parse<V>, frames: seq<Frame<V>>, s: seq<Byte>, c: Config<V>, head: Head<V>)
    requires Remaining(whole, frames, ParseAll(s, c)) && head == HeadOf(s, c)
    ensures head.Broken? ==> whole.failure == Some(head.code)
    ensures head.Incomplete? ==> whole == Parse(frames, s, None)
    ensures head.Complete? ==> Remaining(whole, frames + [head.frame], ParseAll(s[head.size..], c))
  {
    if head.Complete? { RemainingMore(whole, frames, head.frame, ParseAll(s[head.size..], c)); }
  }

  // What the loop stops on without a violation.
  ghost predicate Stops<V>(s: seq<Byte>, c: Config<V>) { HeadOf(s, c).Incomplete? }

  class FrameDecoder<V> {
    const config: Config<V>
    var buffer: seq<Byte>
    var failure: Option<Code>

    function State(): Decoder
      reads this
    {
      Decoder(buffer, failure)
    }

    constructor (config: Config<V>)
      ensures this.config == config && State() == Decoder([], None)
    {
      this.config := config;
      buffer := [];
      failure := None;
    }

    /** Feed bytes, take the frames that completed; the first violation is latched. */
    method Push(chunk: seq<Byte>) returns (r: Pushed<V>)
      modifies this
      ensures (State(), r) == PushOf(old(State()), chunk, config)
      ensures r.Frames? ==> |buffer| < config.ceiling + HEADER
    {
      if failure.Some? {
        return Failed(Poisoned);
      }
      r := PushInner(chunk);
      if r.Failed? {
        failure := Some(r.code);
        buffer := [];
      }
    }

    // One round of the loop, up to what it does with the frame.
    method TakeHead(offset: nat) returns (h: Head<V>)
      requires offset + HEADER <= |buffer|
      ensures h == HeadOf(buffer[offset..], config)
    {
      var header := buffer[offset..offset + HEADER];
      var length := Length(header);
      if length == 0 {
        return Broken(Malformed);
      }
      if length > config.ceiling {
        return Broken(Oversized);
      }
      var end := offset + HEADER + length;
      if |buffer| < end {
        return Incomplete;
      }
      var body := buffer[offset + HEADER..end];
      assert body == buffer[offset..][HEADER..HEADER + length];
      match config.decode(body) {
        case Violation(code) => return Broken(code);
        case Value(v) => return Complete(Frame(body, v), HEADER + length);
      }
    }

    // The loop over the buffer: the frames in front of `offset`, or the violation that ends it.
    method TakeFrames() returns (failure: Option<Code>, frames: seq<Frame<V>>, offset: nat)
      ensures failure == ParseAll(buffer, config).failure
      ensures failure.None? ==>
                && offset <= |buffer| && ParseAll(buffer, config) == Parse(frames, buffer[offset..], None)
                && Stops(buffer[offset..], config)
    {
      frames, offset := [], 0;
      ghost var whole := ParseAll(buffer, config);
      assert buffer[0..] == buffer;
      while |buffer| - offset >= HEADER
        invariant offset <= |buffer|
        invariant Remaining(whole, frames, ParseAll(buffer[offset..], config))
        decreases |buffer| - offset
      {
        var head := TakeHead(offset);
        RemainingStep(whole, frames, buffer[offset..], config, head);
        match head {
          case Broken(code) => return Some(code), frames, offset;
          case Incomplete => return None, frames, offset;
          case Complete(frame, size) =>
            assert buffer[offset..][size..] == buffer[offset + size..];
            frames := frames + [frame];
            offset := offset + size;
        }
      }
      RemainingStep(whole, frames, buffer[offset..], config, Incomplete);
      failure := None;
    }

    // The trailing check on the buffer's size never refuses.
    method PushInner(chunk: seq<Byte>) returns (r: Pushed<V>)
      modifies this`buffer
      ensures var p := ParseAll(old(buffer) + chunk, config);
        if p.failure.Some? then r == Failed(p.failure.value)
        else r == Frames(p.frames) && buffer == p.rest && |buffer| < config.ceiling + HEADER
    {
      buffer := buffer + chunk;
      var failure, frames, offset := TakeFrames();
      if failure.Some? {
        return Failed(failure.value);
      }
      RestIsShort(buffer[offset..], config);
      if offset > 0 {
        buffer := buffer[offset..];
      }
      if |buffer| > config.ceiling + HEADER {
        return Failed(Oversized);
      }
      return Frames(frames);
    }
  }

  // An incomplete tail is shorter than the largest frame.
  lemma RestIsShort<V>(s: seq<Byte>, c: Config<V>)
    requires Stops(s, c)
    ensures |s| < c.ceiling + HEADER
  {
  }
}
