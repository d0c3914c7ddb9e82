// The wire format: four bytes of body length, most significant first, one byte of frame type, the
// body. Three writers print it and two readers take it apart again.
module Framing {
  import opened Options

  newtype Byte = x: int | 0 <= x < 256

  const HeaderSize := 5
  const Word := 0x1_0000_0000

  datatype Frame = Frame(kind: Byte, body: seq<Byte>)

  // ---------- Encoding ----------

  // The 32-bit big-endian representation; larger numbers lose their upper bits.
  function BigEndian(n: nat): (r: seq<Byte>)
    ensures |r| == 4
  {
    [(n / 0x100_0000 % 256) as Byte, (n / 0x1_0000 % 256) as Byte, (n / 0x100 % 256) as Byte, (n % 256) as Byte]
  }

  function FromBigEndian(s: seq<Byte>): nat
    requires |s| == 4
  {
    s[0] as int * 0x100_0000 + s[1] as int * 0x1_0000 + s[2] as int * 0x100 + s[3] as int
  }

  function Encode(f: Frame): (r: seq<Byte>)
    ensures |r| == HeaderSize + |f.body|
  {
    BigEndian(|f.body|) + [f.kind] + f.body
  }

  function EncodeAll(frames: seq<Frame>): seq<Byte> {
    if frames == [] then [] else Encode(frames[0]) + EncodeAll(frames[1..])
  }

  lemma BigEndianInverse(n: nat)
    ensures FromBigEndian(BigEndian(n)) == n % Word
  {
    var a, b, c, d := n / 0x100, n / 0x1_0000, n / 0x100_0000, n / Word;
    assert n == 0x100 * a + n % 0x100;
    assert b == a / 0x100 && a == 0x100 * b + a % 0x100;
    assert c == b / 0x100 && b == 0x100 * c + b % 0x100;
    assert d == c / 0x100 && c == 0x100 * d + c % 0x100;
  }

  // The most significant byte comes first.
  lemma BigEndianHorner(a: Byte, b: Byte, c: Byte, d: Byte)
    ensures FromBigEndian([a, b, c, d]) == ((a as int * 256 + b as int) * 256 + c as int) * 256 + d as int
  {
  }

  // buildFrame
  method BuildFrame(frameType: int, body: seq<Byte>) returns (frame: array<Byte>)
    ensures fresh(frame) && frame[..] == Encode(Frame((frameType % 256) as Byte, body))
  {
    frame := new Byte[HeaderSize + |body|];
    PutUint32(frame, |body|);
    frame[4] := (frameType % 256) as Byte;
    for i := 0 to |body|
      invariant frame[..4] == BigEndian(|body|) && frame[4] == (frameType % 256) as Byte
      invariant frame[5..5 + i] == body[..i]
    {
      frame[HeaderSize + i] := body[i];
      assert frame[5..5 + i + 1] == frame[5..5 + i] + [body[i]];
    }
    assert frame[..] == frame[..4] + [frame[4]] + frame[5..5 + |body|];
  }

  // setUint32 and PutUint32: the length modulo 2^32 in the first four bytes.
  method PutUint32(frame: array<Byte>, n: nat)
    requires frame.Length >= 4
    modifies frame
    ensures frame[..4] == BigEndian(n) && frame[4..] == old(frame[4..])
  {
    frame[0] := (n / 0x100_0000 % 256) as Byte;
    frame[1] := (n / 0x1_0000 % 256) as Byte;
    frame[2] := (n / 0x100 % 256) as Byte;
    frame[3] := (n % 256) as Byte;
  }

  const FrameTypeRequest: Byte := 2
  const FrameTypeAuthAck: Byte := 3
  const FrameTypeResponse: Byte := 4

  // The frame-building tail of buildClientResponseFrame
  method BuildResponseFrame(body: seq<Byte>) returns (frame: array<Byte>)
    ensures fresh(frame) && frame[..] == Encode(Frame(FrameTypeResponse, body))
  {
    frame := BuildFrame(FrameTypeResponse as int, body);
  }

  lemma BigEndianOf(s: seq<Byte>)
    requires |s| == 4
    ensures BigEndian(FromBigEndian(s)) == s && FromBigEndian(s) < Word
  {
    var a, b, c := s[0] as int, s[1] as int, s[2] as int;
    var n := FromBigEndian(s);
    assert n / 0x100 == a * 0x1_0000 + b * 0x100 + c;
    assert n / 0x1_0000 == a * 0x100 + b;
    assert n / 0x100_0000 == a;
  }

  // parseFrameHeader: at the front of a built frame whose length fits, it finds that length and the type;
  // and whatever it finds prints as the five bytes that it was found in.
  method ParseFrameHeader(buffer: seq<Byte>) returns (header: Option<(nat, Byte)>)
    ensures header.None? <==> |buffer| < HeaderSize
    ensures header.Some? ==>
      header.value.0 < Word && BigEndian(header.value.0) + [header.value.1] == buffer[..HeaderSize]
    ensures forall f: Frame :: Fits(f) && Encode(f) <= buffer ==> header == Some((|f.body|, f.kind))
  {
    if |buffer| < HeaderSize {
      return None;
    }
    BigEndianOf(buffer[..4]);
    header := Some((FromBigEndian(buffer[..4]), buffer[4]));
    hide BigEndian, FromBigEndian, Encode, Fits;
    forall f: Frame | Fits(f) && Encode(f) <= buffer
      ensures header == Some((|f.body|, f.kind))
    {
      HeaderInFront(f, buffer);
    }
  }

  lemma HeaderInFront(f: Frame, buffer: seq<Byte>)
    requires Fits(f) && Encode(f) <= buffer
    ensures |buffer| >= HeaderSize && FromBigEndian(buffer[..4]) == |f.body| && buffer[4] == f.kind
  {
    HeaderRoundTrip(f);
    hide FromBigEndian, Encode;
    assert buffer[..4] == Encode(f)[..4] && buffer[4] == Encode(f)[4];
  }

  // The header of a built frame gives back length and type as long as the length fits in 32 bits.
  lemma HeaderRoundTrip(f: Frame)
    ensures FromBigEndian(Encode(f)[..4]) == |f.body| % Word
    ensures Encode(f)[4] == f.kind && Encode(f)[HeaderSize..] == f.body
  {
    assert Encode(f)[..4] == BigEndian(|f.body|);
    BigEndianInverse(|f.body|);
  }

  // ---------- Decoding ----------

  // The complete frames at the front of a byte string, and the bytes behind them.
  datatype Parsed = Parsed(frames: seq<Frame>, rest: seq<Byte>)

  // The first frame is complete.
  predicate HoldsFrame(s: seq<Byte>) {
    |s| >= HeaderSize && |s| >= HeaderSize + FromBigEndian(s[..4])
  }

  function FirstSize(s: seq<Byte>): nat
    requires HoldsFrame(s)
  {
    HeaderSize + FromBigEndian(s[..4])
  }

  function FirstFrame(s: seq<Byte>): Frame
    requires HoldsFrame(s)
  {
    Frame(s[4], s[HeaderSize..FirstSize(s)])
  }

  function Parse(s: seq<Byte>): Parsed
    decreases |s|
  {
    if !HoldsFrame(s) then Parsed([], s)
    else
      var later := Parse(s[FirstSize(s)..]);
      Parsed([FirstFrame(s)] + later.frames, later.rest)
  }

  predicate Fits(f: Frame) {
    |f.body| < Word
  }

  // A frame whose body length fits comes back from the front of the bytes.
  lemma FrontFrame(f: Frame, rest: seq<Byte>)
    requires Fits(f)
    ensures HoldsFrame(Encode(f) + rest) && FirstSize(Encode(f) + rest) == |Encode(f)|
    ensures FirstFrame(Encode(f) + rest) == f && (Encode(f) + rest)[|Encode(f)|..] == rest
  {
    HeaderRoundTrip(f);
    var s := Encode(f) + rest;
    hide Encode, FromBigEndian;
    assert s[..4] == Encode(f)[..4];
    assert s[HeaderSize..|Encode(f)|] == Encode(f)[HeaderSize..];
  }

  lemma ParseFront(f: Frame, rest: seq<Byte>)
    requires Fits(f)
    ensures Parse(Encode(f) + rest) == Parsed([f] + Parse(rest).frames, Parse(rest).rest)
  {
    FrontFrame(f, rest);
    hide HoldsFrame, FirstSize, FirstFrame, Encode;
  }

  // Any list of frames is recovered, in order, whatever bytes follow.
  lemma {:induction false} ParseAll(frames: seq<Frame>, tail: seq<Byte>)
    requires forall i :: 0 <= i < |frames| ==> Fits(frames[i])
    ensures Parse(EncodeAll(frames) + tail) == Parsed(frames + Parse(tail).frames, Parse(tail).rest)
  {
    hide Parse, Encode, Fits;
    if frames == [] {
      assert EncodeAll(frames) + tail == tail;
      assert frames + Parse(tail).frames == Parse(tail).frames;
    } else {
      ParseAll(frames[1..], tail);
      var rest := EncodeAll(frames[1..]) + tail;
      assert EncodeAll(frames) + tail == Encode(frames[0]) + rest;
      hide EncodeAll;
      ParseFront(frames[0], rest);
      assert [frames[0]] + (frames[1..] + Parse(tail).frames) == frames + Parse(tail).frames;
    }
  }

  // A proper prefix of a frame holds no frame.
  lemma TruncatedHoldsNothing(f: Frame, n: nat)
    requires Fits(f) && n < |Encode(f)|
    ensures Parse(Encode(f)[..n]) == Parsed([], Encode(f)[..n])
  {
    HeaderRoundTrip(f);
    if n >= HeaderSize {
      assert Encode(f)[..n][..4] == Encode(f)[..4];
    }
  }

  // The stream of whole frames cut off inside one more frame.
  lemma ParseTruncated(frames: seq<Frame>, last: Frame, n: nat)
    requires (forall i :: 0 <= i < |frames| ==> Fits(frames[i])) && Fits(last) && n < |Encode(last)|
    ensures Parse(EncodeAll(frames) + Encode(last)[..n]) == Parsed(frames, Encode(last)[..n])
  {
    ParseAll(frames, Encode(last)[..n]);
    TruncatedHoldsNothing(last, n);
    assert frames + [] == frames;
  }

  // Frames printed one after the other and split into chunks anywhere, with the last one cut off, are
  // dispatched as they were, and nothing is dispatched for the truncated one.
  lemma AnyChunking(frames: seq<Frame>, last: Frame, n: nat, chunks: seq<Option<seq<Byte>>>)
    requires (forall i :: 0 <= i < |frames| ==> Fits(frames[i])) && Fits(last) && n < |Encode(last)|
    requires Joined(chunks) == EncodeAll(frames) + Encode(last)[..n]
    ensures Parse(Joined(chunks)) == Parsed(frames, Encode(last)[..n])
  {
    ParseTruncated(frames, last, n);
  }

  // A single frame survives the round trip if and only if its body length fits in 32 bits.
  lemma RoundTripIff(f: Frame)
    ensures Parse(Encode(f)) == Parsed([f], []) <==> Fits(f)
  {
    HeaderRoundTrip(f);
    if Fits(f) {
      assert EncodeAll([f]) + [] == Encode(f) by {
        assert EncodeAll([f][1..]) == [];
      }
      ParseAll([f], []);
      assert Parse([]) == Parsed([], []);
      assert [f] + [] == [f];
    } else {
      assert FirstSize(Encode(f)) < |Encode(f)|;
      assert |FirstFrame(Encode(f)).body| < |f.body|;
      assert Parse(Encode(f)).frames[0] == FirstFrame(Encode(f));
    }
  }

  // ---------- The client's receive loop ----------

  // What the reader delivers, chunk by chunk; a read may come without a value.
  function Joined(chunks: seq<Option<seq<Byte>>>): seq<Byte> {
    if chunks == [] then [] else (if chunks[0].Some? then chunks[0].value else []) + Joined(chunks[1..])
  }

  // Reads chunks until the buffer holds n bytes; done reports that the chunks ran out first.
  method Fill(buffer: seq<Byte>, chunks: seq<Option<seq<Byte>>>, n: nat)
    returns (filled: seq<Byte>, left: seq<Option<seq<Byte>>>, done: bool)
    ensures buffer <= filled && filled + Joined(left) == buffer + Joined(chunks)
    ensures done ==> left == [] && |filled| < n
    ensures !done ==> |filled| >= n
  {
    filled, left := buffer, chunks;
    while |filled| < n
      invariant buffer <= filled && filled + Joined(left) == buffer + Joined(chunks)
      decreases |left|
    {
      if left == [] {
        return filled, left, true;
      }
      var value := left[0];
      left := left[1..];
      if value.Some? {
        filled := filled + value.value;
      }
    }
    return filled, left, false;
  }

  // A request is among the frames.
  ghost predicate HoldsRequest(frames: seq<Frame>) {
    exists f :: f in frames && f.kind == FrameTypeRequest
  }

  lemma NoRequestYet()
    ensures !HoldsRequest([])
  {
  }

  lemma OneMoreRequest(frames: seq<Frame>, f: Frame)
    ensures HoldsRequest(frames + [f]) <==> HoldsRequest(frames) || f.kind == FrameTypeRequest
  {
    assert f in frames + [f];
    forall g
      ensures g in frames + [f] <==> g in frames || g == f
    {
    }
  }

  // handleIncomingStream: dispatches exactly the complete frames of the joined bytes, wherever the chunk
  // boundaries fall; it warns when the stream ends inside a frame whose header has arrived. An
  // authentication that is waiting is resolved by the first frame of type 2, which is a request.
  method HandleIncomingStream(chunks: seq<Option<seq<Byte>>>, waiting: bool)
    returns (dispatched: seq<Frame>, warned: bool, resolved: bool)
    ensures dispatched == Parse(Joined(chunks)).frames
    ensures resolved <==> waiting && HoldsRequest(dispatched)
    ensures warned <==> |Parse(Joined(chunks)).rest| >= HeaderSize
  {
    hide Parse, Joined, HoldsRequest;
    NoRequestYet();
    dispatched, resolved := [], false;
    var buffer: seq<Byte> := [];
    var left := chunks;
    ghost var all := Parse(Joined(chunks));
    assert [] + Joined(chunks) == Joined(chunks);
    while true
      invariant dispatched + Parse(buffer + Joined(left)).frames == all.frames
      invariant Parse(buffer + Joined(left)).rest == all.rest
      invariant resolved <==> waiting && HoldsRequest(dispatched)
      decreases |buffer + Joined(left)|
    {
      ghost var pending := buffer + Joined(left);
      var done;
      buffer, left, done := Fill(buffer, left, HeaderSize);
      if done {
        Incomplete(pending, buffer, left);
        assert dispatched + [] == dispatched;
        return dispatched, false, resolved;
      }
      var bodyLength := FromBigEndian(buffer[..4]);
      var frameType := buffer[4];
      var totalFrameLength := HeaderSize + bodyLength;
      assert pending[..4] == buffer[..4];
      buffer, left, done := Fill(buffer, left, totalFrameLength);
      if done {
        Incomplete(pending, buffer, left);
        assert dispatched + [] == dispatched;
        return dispatched, true, resolved;
      }
      var bodyData := buffer[HeaderSize..totalFrameLength];
      OneMoreRequest(dispatched, Frame(frameType, bodyData));
      dispatched := dispatched + [Frame(frameType, bodyData)];
      if frameType == FrameTypeRequest && waiting && !resolved {
        resolved := true;
      }
      FirstOf(pending, buffer, Joined(left));
      buffer := buffer[totalFrameLength..];
    }
  }

  lemma Incomplete(pending: seq<Byte>, buffer: seq<Byte>, left: seq<Option<seq<Byte>>>)
    requires left == [] && pending == buffer + Joined(left) && !HoldsFrame(buffer)
    ensures Parse(pending) == Parsed([], buffer)
  {
    assert pending == buffer;
  }

  lemma FirstOf(pending: seq<Byte>, buffer: seq<Byte>, later: seq<Byte>)
    requires pending == buffer + later && HoldsFrame(buffer)
    ensures HoldsFrame(pending) && FirstFrame(pending) == FirstFrame(buffer)
    ensures Parse(pending).frames == [FirstFrame(buffer)] + Parse(buffer[FirstSize(buffer)..] + later).frames
    ensures Parse(pending).rest == Parse(buffer[FirstSize(buffer)..] + later).rest
  {
    assert pending[..4] == buffer[..4];
    assert pending[HeaderSize..FirstSize(buffer)] == buffer[HeaderSize..FirstSize(buffer)];
    assert pending[FirstSize(buffer)..] == buffer[FirstSize(buffer)..] + later;
  }

  // Since type 2 is a request and the server answers with acknowledgements and responses only, no stream
  // that the server builds resolves a waiting authentication, however it is chunked or cut off.
  lemma ServerNeverResolves(frames: seq<Frame>, last: Frame, n: nat, chunks: seq<Option<seq<Byte>>>)
    requires (forall i :: 0 <= i < |frames| ==> Fits(frames[i])) && Fits(last) && n < |Encode(last)|
    requires forall f :: f in frames ==> f.kind == FrameTypeAuthAck || f.kind == FrameTypeResponse
    requires Joined(chunks) == EncodeAll(frames) + Encode(last)[..n]
    ensures !HoldsRequest(Parse(Joined(chunks)).frames)
  {
    hide Parse, Joined, EncodeAll, Encode, Fits;
    ParseTruncated(frames, last, n);
  }

  // ---------- The server's read loop ----------

  // io.ReadFull from position pos: n bytes, or a failure when the stream ends before.
  method ReadFull(stream: seq<Byte>, pos: nat, n: nat) returns (data: Option<seq<Byte>>, next: nat)
    requires pos <= |stream|
    ensures next <= |stream|
    ensures data == if pos + n <= |stream| then Some(stream[pos..pos + n]) else None
    ensures data.Some? ==> next == pos + n
  {
    if pos + n <= |stream| {
      return Some(stream[pos..pos + n]), pos + n;
    }
    return None, |stream|;
  }

  // The frames that the worker pool takes; while it shuts down it may refuse some.
  function Taken(frames: seq<Frame>, accepts: nat -> bool): seq<Frame> {
    if frames == [] then []
    else
      var k := |frames| - 1;
      Taken(frames[..k], accepts) + if accepts(k) then [frames[k]] else []
  }

  // A pool that is not shutting down takes them all.
  lemma {:induction false} AllTaken(frames: seq<Frame>, accepts: nat -> bool)
    requires forall k :: 0 <= k < |frames| ==> accepts(k)
    ensures Taken(frames, accepts) == frames
  {
    if frames != [] {
      AllTaken(frames[..|frames| - 1], accepts);
    }
  }

  // What the pool takes of frames in two parts is what it takes of each part.
  lemma {:induction false} TakenInParts(a: seq<Frame>, b: seq<Frame>, accepts: nat -> bool)
    ensures Taken(a + b, accepts) == Taken(a, accepts) + Taken(b, (k: nat) => accepts(|a| + k))
  {
    if b == [] {
      assert a + b == a;
    } else {
      var n := |b| - 1;
      assert (a + b)[..|a| + n] == a + b[..n] && (a + b)[|a| + n] == b[n];
      TakenInParts(a, b[..n], accepts);
    }
  }

  // A frame that is refused is dropped.
  lemma RefusedIsDropped(f: Frame, accepts: nat -> bool)
    ensures Taken([f], accepts) == if accepts(0) then [f] else []
  {
    assert [f][..0] == [];
  }

  // HandleStream: reads exactly the complete frames of the stream and submits them to the workers in
  // order; accepts tells whether the pool takes the k-th submission. A refused frame is dropped.
  method HandleStream(stream: seq<Byte>, accepts: nat -> bool) returns (received: seq<Frame>, submitted: seq<Frame>)
    ensures received == Parse(stream).frames
    ensures submitted == Taken(received, accepts)
  {
    hide Parse, FirstSize, FirstFrame, HoldsFrame, FromBigEndian, Taken;
    NoneTaken(accepts);
    received, submitted := [], [];
    var pos := 0;
    assert stream[0..] == stream;
    while true
      invariant 0 <= pos <= |stream|
      invariant received + Parse(stream[pos..]).frames == Parse(stream).frames
      invariant submitted == Taken(received, accepts)
      decreases |stream| - pos
    {
      var header, next := ReadFull(stream, pos, HeaderSize);
      if header.None? {
        NoneOnStream(stream, pos);
        return;
      }
      var length := FromBigEndian(header.value[..4]);
      var frameType := header.value[4];
      assert header.value[..4] == stream[pos..][..4];
      var body, after := ReadFull(stream, next, length);
      if body.None? {
        NoneOnStream(stream, pos);
        return;
      }
      FirstOnStream(stream, pos, after);
      var frame := Frame(frameType, body.value);
      assert Parse(stream[pos..]).frames == [frame] + Parse(stream[after..]).frames;
      MoveOver(received, frame, Parse(stream[after..]).frames);
      OneMoreTaken(received, frame, accepts);
      if accepts(|received|) {
        submitted := submitted + [frame];
      }
      received, pos := received + [frame], after;
    }
  }

  lemma MoveOver(before: seq<Frame>, f: Frame, after: seq<Frame>)
    ensures before + ([f] + after) == before + [f] + after
  {
  }

  lemma NoneTaken(accepts: nat -> bool)
    ensures Taken([], accepts) == []
  {
  }

  lemma OneMoreTaken(frames: seq<Frame>, f: Frame, accepts: nat -> bool)
    ensures Taken(frames + [f], accepts) == Taken(frames, accepts) + if accepts(|frames|) then [f] else []
  {
    assert (frames + [f])[..|frames|] == frames;
  }

  lemma NoneOnStream(stream: seq<Byte>, pos: nat)
    requires pos <= |stream|
    requires |stream| < pos + HeaderSize || |stream| < pos + HeaderSize + FromBigEndian(stream[pos..][..4])
    ensures Parse(stream[pos..]).frames == []
  {
  }

  lemma FirstOnStream(stream: seq<Byte>, pos: nat, after: nat)
    requires pos + HeaderSize <= after <= |stream|
    requires after == pos + HeaderSize + FromBigEndian(stream[pos..][..4])
    ensures Parse(stream[pos..]).frames ==
      [Frame(stream[pos + 4], stream[pos + HeaderSize..after])] + Parse(stream[after..]).frames
  {
    var pending := stream[pos..];
    assert HoldsFrame(pending) && FirstSize(pending) == after - pos;
    assert stream[pos + HeaderSize..after] == pending[HeaderSize..FirstSize(pending)];
    assert stream[after..] == pending[FirstSize(pending)..];
  }
}
