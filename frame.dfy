/**
 * The length-prefixed framing of src/connection/frame.rs. A frame on the
 * wire is the payload length as a 4-byte little-endian `u32`, then the
 * payload. The payload codec (bincode) is abstract: a pair of functions
 * `enc`/`dec` that the round-trip lemmas assume to be inverse on the
 * payloads in question.
 *
 * A read consumes a `Stream`: the bytes the peer has sent, and how the
 * stream ends after them (an orderly end of file, or a fault). The one
 * `read_buf` call of the reader gets as many bytes as the transport hands
 * over in one read; that amount is the parameter `chunk`.
 */
module Frame {
  import opened Wrappers

  /** `ConnectionError` (the variants a frame read or write can produce). */
  datatype ConnectionError =
    | BincodeDecode
    | BincodeEncode
    | Io
    | ConnectionClosed
    | ConnectionDropped
    | InvalidFrameSize

  /** Rust's `u32` range: the length prefix is written `as u32`. */
  const U32Limit: nat := 0x1_0000_0000

  /** The fresh-buffer growth of `BytesMut` when a read needs room in an empty, zero-capacity buffer. */
  const EmptyBufferGrowth: nat := 64

  // ------------------------------------------------- little-endian integers

  function Pow256(k: nat): (r: nat)
    ensures r > 0
  {
    if k == 0 then 1 else 256 * Pow256(k - 1)
  }

  /** The `k` low bytes of `n`, least significant first. */
  function LeBytes(n: nat, k: nat): (b: seq<byte>)
    ensures |b| == k
  {
    if k == 0 then [] else [n % 256] + LeBytes(n / 256, k - 1)
  }

  /** The value of a little-endian byte string. */
  function FromLe(b: seq<byte>): (n: nat)
    ensures n < Pow256(|b|)
  {
    if |b| == 0 then 0 else b[0] + 256 * FromLe(b[1..])
  }

  /** `u32::to_le_bytes`, as `write_u32_le` puts it on the wire. */
  function Le32(n: nat): (b: seq<byte>)
    requires n < U32Limit
    ensures |b| == 4
  {
    LeBytes(n, 4)
  }

  /** `u32::from_le_bytes`. */
  function FromLe32(b: seq<byte>): (n: nat)
    requires |b| == 4
    ensures n < U32Limit
  {
    assert Pow256(4) == U32Limit;
    FromLe(b)
  }

  /** Reading back the bytes of a number that fits gives the number. */
  lemma {:induction false} LeBytesRoundTrip(n: nat, k: nat)
    requires n < Pow256(k)
    ensures FromLe(LeBytes(n, k)) == n
  {
    if k > 0 {
      var b := LeBytes(n, k);
      assert b[1..] == LeBytes(n / 256, k - 1);
      assert n / 256 < Pow256(k - 1);
      LeBytesRoundTrip(n / 256, k - 1);
    }
  }

  /** Writing out the value of a byte string gives the byte string. */
  lemma {:induction false} FromLeRoundTrip(b: seq<byte>)
    ensures LeBytes(FromLe(b), |b|) == b
  {
    if |b| > 0 {
      var n := FromLe(b);
      assert n % 256 == b[0] && n / 256 == FromLe(b[1..]);
      FromLeRoundTrip(b[1..]);
    }
  }

  /** The length prefix round-trips for every `u32`. */
  lemma Le32RoundTrip(n: nat)
    requires n < U32Limit
    ensures FromLe32(Le32(n)) == n
  {
    assert Pow256(4) == U32Limit;
    LeBytesRoundTrip(n, 4);
  }

  /** And every 4-byte prefix is the encoding of the number it is read as. */
  lemma FromLe32RoundTrip(b: seq<byte>)
    requires |b| == 4
    ensures Le32(FromLe32(b)) == b
  {
    FromLeRoundTrip(b);
  }

  // ------------------------------------------------------------------ write

  /**
   * `write_frame_to`: the encoded payload after its length as a little-endian
   * `u32` (`data.len() as u32`, so a length of 2^32 or more is cut to its
   * low 32 bits). Failures of the socket itself are not modelled.
   */
  function WriteFrame<M>(enc: M -> Option<seq<byte>>, m: M): (r: Result<seq<byte>, ConnectionError>)
    ensures enc(m).None? <==> r == Err(BincodeEncode)
    ensures r.Ok? ==> |r.value| >= 4 && r.value[4..] == enc(m).value
  {
    match enc(m)
    case None => Err(BincodeEncode)
    case Some(data) => Ok(Le32(|data| % U32Limit) + data)
  }

  /** The prefix of a written frame is the payload length, when that length fits a `u32`. */
  lemma WritePrefixIsLength<M>(enc: M -> Option<seq<byte>>, m: M)
    requires enc(m).Some? && |enc(m).value| < U32Limit
    ensures WriteFrame(enc, m).Ok?
    ensures FromLe32(WriteFrame(enc, m).value[..4]) == |enc(m).value|
  {
    var data := enc(m).value;
    assert WriteFrame(enc, m).value[..4] == Le32(|data|);
    Le32RoundTrip(|data|);
  }

  // ------------------------------------------------------------------- read

  datatype StreamEnd = Eof | Fault

  /** What a reader still has to read: the bytes the peer sent, then how the stream ends. */
  datatype Stream = Stream(bytes: seq<byte>, end: StreamEnd)

  /** The error a failed read is converted to: end of file is `ConnectionClosed`, anything else `ConnectionDropped`. */
  function ConvertError(end: StreamEnd): ConnectionError
  {
    if end.Eof? then ConnectionClosed else ConnectionDropped
  }

  /** `read_exact` of `n` bytes, with the error converted as the reader does. */
  function ReadExact(s: Stream, n: nat): (r: Result<(seq<byte>, Stream), ConnectionError>)
    ensures r.Ok? <==> n <= |s.bytes|
    ensures r.Ok? ==> r.value.0 + r.value.1.bytes == s.bytes && |r.value.0| == n && r.value.1.end == s.end
    ensures r.Err? ==> r.error == ConvertError(s.end)
  {
    if n <= |s.bytes| then Ok((s.bytes[..n], Stream(s.bytes[n..], s.end)))
    else Err(ConvertError(s.end))
  }

  function Min(a: nat, b: nat): nat { if a <= b then a else b }

  /**
   * One `read_buf` into a buffer with room for `capacity` bytes, when the
   * transport hands over at most `chunk` bytes: at end of file it reads
   * nothing and succeeds; on a fault with nothing left it fails.
   */
  function ReadBuf(s: Stream, capacity: pos, chunk: pos): (r: Result<(seq<byte>, Stream), ConnectionError>)
    ensures r.Err? <==> s.bytes == [] && s.end.Fault?
    ensures r.Err? ==> r.error == ConnectionDropped
    ensures r.Ok? ==> r.value.0 + r.value.1.bytes == s.bytes && r.value.1.end == s.end
    ensures r.Ok? ==> |r.value.0| == Min(Min(chunk, capacity), |s.bytes|)
  {
    if s.bytes == [] then
      if s.end.Eof? then Ok(([], s)) else Err(ConvertError(s.end))
    else
      var n := Min(Min(chunk, capacity), |s.bytes|);
      Ok((s.bytes[..n], Stream(s.bytes[n..], s.end)))
  }

  /** The buffer `BytesMut::with_capacity(size)` offers to one read. */
  function Capacity(size: nat): pos
  {
    if size == 0 then EmptyBufferGrowth else size
  }

  /**
   * The payload of the next frame, as `read_frame_from` obtains it before
   * decoding: the length prefix by `read_exact`, then one `read_buf`, then
   * the size check.
   */
  function ReadPayload(s: Stream, chunk: pos): (r: Result<(seq<byte>, Stream), ConnectionError>)
    ensures |s.bytes| < 4 ==> r == Err(ConvertError(s.end))
    ensures r.Ok? ==> |s.bytes| >= 4 && |r.value.0| == FromLe32(s.bytes[..4])
    ensures r.Ok? ==> s.bytes == s.bytes[..4] + r.value.0 + r.value.1.bytes && r.value.1.end == s.end
  {
    match ReadExact(s, 4)
    case Err(e) => Err(e)
    case Ok((head, rest)) =>
      assert head == s.bytes[..4];
      var size := FromLe32(head);
      match ReadBuf(rest, Capacity(size), chunk)
      case Err(e) => Err(e)
      case Ok((data, after)) =>
        if size != |data| then Err(InvalidFrameSize) else Ok((data, after))
  }

  /** The decoder reads all of the payload it is given (`assert_eq!(size, decode_size)`). */
  predicate DecodesWhole<M>(dec: seq<byte> -> Option<(M, nat)>, payload: seq<byte>)
  {
    dec(payload).Some? ==> dec(payload).value.1 == |payload|
  }

  /**
   * `read_frame_from`: the payload, then the decoded frame and the rest of
   * the stream. A decoder that stops short of the payload's end fails the
   * reader's assertion; callers must exclude that.
   */
  function ReadFrame<M>(dec: seq<byte> -> Option<(M, nat)>, s: Stream, chunk: pos): (r: Result<(M, Stream), ConnectionError>)
    requires ReadPayload(s, chunk).Ok? ==> DecodesWhole(dec, ReadPayload(s, chunk).value.0)
    ensures ReadPayload(s, chunk).Err? ==> r == Err(ReadPayload(s, chunk).error)
    ensures ReadPayload(s, chunk).Ok? ==>
              match dec(ReadPayload(s, chunk).value.0)
              case None => r == Err(BincodeDecode)
              case Some(d) => r == Ok((d.0, ReadPayload(s, chunk).value.1))
  {
    match ReadPayload(s, chunk)
    case Err(e) => Err(e)
    case Ok((data, after)) =>
      match dec(data)
      case None => Err(BincodeDecode)
      case Some((m, _)) => Ok((m, after))
  }

  /** A stream that ends inside the length prefix: closed at end of file, dropped on a fault. */
  lemma ShortPrefix<M>(dec: seq<byte> -> Option<(M, nat)>, s: Stream, chunk: pos)
    requires |s.bytes| < 4
    ensures ReadFrame(dec, s, chunk) == Err(if s.end.Eof? then ConnectionClosed else ConnectionDropped)
  {
  }

  /**
   * When the bytes one read obtains are fewer or more than the prefix
   * declares, the read fails with `InvalidFrameSize` and nothing is decoded.
   */
  lemma SizeMismatch<M>(dec: seq<byte> -> Option<(M, nat)>, s: Stream, chunk: pos)
    requires |s.bytes| >= 4
    requires ReadBuf(Stream(s.bytes[4..], s.end), Capacity(FromLe32(s.bytes[..4])), chunk).Ok?
    requires |ReadBuf(Stream(s.bytes[4..], s.end), Capacity(FromLe32(s.bytes[..4])), chunk).value.0|
             != FromLe32(s.bytes[..4])
    ensures ReadFrame(dec, s, chunk) == Err(InvalidFrameSize)
  {
  }

  /** The codec inverts on `m`: its non-empty payload decodes, whole, back to `m`. */
  predicate InvertsOn<M(==)>(enc: M -> Option<seq<byte>>, dec: seq<byte> -> Option<(M, nat)>, m: M)
  {
    enc(m).Some? ==> |enc(m).value| > 0 && dec(enc(m).value) == Some((m, |enc(m).value|))
  }

  /**
   * Framing round trip: a stream that starts with the frame written for `m`
   * reads back as `m`, leaving the bytes after the frame, provided the
   * payload arrives in one read.
   */
  lemma FrameRoundTrip<M>(enc: M -> Option<seq<byte>>, dec: seq<byte> -> Option<(M, nat)>, m: M,
                          rest: seq<byte>, end: StreamEnd, chunk: pos)
    requires InvertsOn(enc, dec, m)
    requires enc(m).Some? && |enc(m).value| < U32Limit
    requires chunk >= |enc(m).value|
    ensures WriteFrame(enc, m).Ok?
    ensures ReadPayload(Stream(WriteFrame(enc, m).value + rest, end), chunk) == Ok((enc(m).value, Stream(rest, end)))
    ensures ReadFrame(dec, Stream(WriteFrame(enc, m).value + rest, end), chunk) == Ok((m, Stream(rest, end)))
  {
    var data := enc(m).value;
    var s := Stream(WriteFrame(enc, m).value + rest, end);
    assert s.bytes[..4] == Le32(|data|);
    assert s.bytes[4..] == data + rest;
    Le32RoundTrip(|data|);
    assert (data + rest)[..|data|] == data;
    assert (data + rest)[|data|..] == rest;
  }

  /**
   * A zero-length frame followed by more bytes is rejected: the empty buffer
   * grows before the read, which then takes bytes of what follows.
   */
  lemma EmptyFrameThenData<M>(dec: seq<byte> -> Option<(M, nat)>, rest: seq<byte>, end: StreamEnd, chunk: pos)
    requires rest != []
    ensures ReadFrame(dec, Stream(Le32(0) + rest, end), chunk) == Err(InvalidFrameSize)
  {
    Le32RoundTrip(0);
    var s := Stream(Le32(0) + rest, end);
    assert s.bytes[..4] == Le32(0) && s.bytes[4..] == rest;
  }

  /**
   * As written, the payload is taken by a single read: when the transport
   * delivers a payload in more than one piece, the frame is rejected with
   * `InvalidFrameSize` although the stream holds all of it.
   */
  lemma SplitPayloadRejected<M>(enc: M -> Option<seq<byte>>, dec: seq<byte> -> Option<(M, nat)>, m: M,
                                rest: seq<byte>, end: StreamEnd, chunk: pos)
    requires InvertsOn(enc, dec, m)
    requires enc(m).Some? && |enc(m).value| < U32Limit
    requires chunk < |enc(m).value|
    ensures WriteFrame(enc, m).Ok?
    ensures ReadPayload(Stream(WriteFrame(enc, m).value + rest, end), chunk) == Err(InvalidFrameSize)
    ensures ReadFrame(dec, Stream(WriteFrame(enc, m).value + rest, end), chunk) == Err(InvalidFrameSize)
  {
    var data := enc(m).value;
    var s := Stream(WriteFrame(enc, m).value + rest, end);
    assert s.bytes[..4] == Le32(|data|);
    assert s.bytes[4..] == data + rest;
    Le32RoundTrip(|data|);
  }

  // ------------------------------------------------ reading the whole frame

  /**
   * The payload read the reader evidently intends: `read_exact` of the
   * declared size, so a payload that arrives in pieces is still read whole,
   * and a stream that ends early is reported as the prefix read reports it.
   */
  function ReadPayloadExact(s: Stream): (r: Result<(seq<byte>, Stream), ConnectionError>)
    ensures |s.bytes| < 4 ==> r == Err(ConvertError(s.end))
    ensures r.Err? ==> r.error == ConvertError(s.end)
    ensures r.Ok? ==> |s.bytes| >= 4 && |r.value.0| == FromLe32(s.bytes[..4])
    ensures r.Ok? ==> s.bytes == s.bytes[..4] + r.value.0 + r.value.1.bytes && r.value.1.end == s.end
  {
    match ReadExact(s, 4)
    case Err(e) => Err(e)
    case Ok((head, rest)) =>
      assert head == s.bytes[..4];
      ReadExact(rest, FromLe32(head))
  }

  /** `read_frame_from` with the payload read whole. */
  function ReadFrameExact<M>(dec: seq<byte> -> Option<(M, nat)>, s: Stream): (r: Result<(M, Stream), ConnectionError>)
    requires ReadPayloadExact(s).Ok? ==> DecodesWhole(dec, ReadPayloadExact(s).value.0)
    ensures ReadPayloadExact(s).Err? ==> r == Err(ReadPayloadExact(s).error)
    ensures ReadPayloadExact(s).Ok? ==>
              match dec(ReadPayloadExact(s).value.0)
              case None => r == Err(BincodeDecode)
              case Some(d) => r == Ok((d.0, ReadPayloadExact(s).value.1))
  {
    match ReadPayloadExact(s)
    case Err(e) => Err(e)
    case Ok((data, after)) =>
      match dec(data)
      case None => Err(BincodeDecode)
      case Some((m, _)) => Ok((m, after))
  }

  /** With the whole-payload read, the framing round trip holds however the transport splits the bytes. */
  lemma FrameRoundTripExact<M>(enc: M -> Option<seq<byte>>, dec: seq<byte> -> Option<(M, nat)>, m: M,
                               rest: seq<byte>, end: StreamEnd)
    requires InvertsOn(enc, dec, m)
    requires enc(m).Some? && |enc(m).value| < U32Limit
    ensures WriteFrame(enc, m).Ok?
    ensures ReadPayloadExact(Stream(WriteFrame(enc, m).value + rest, end)) == Ok((enc(m).value, Stream(rest, end)))
    ensures ReadFrameExact(dec, Stream(WriteFrame(enc, m).value + rest, end)) == Ok((m, Stream(rest, end)))
  {
    var data := enc(m).value;
    var s := Stream(WriteFrame(enc, m).value + rest, end);
    assert s.bytes[..4] == Le32(|data|);
    assert s.bytes[4..] == data + rest;
    Le32RoundTrip(|data|);
    assert (data + rest)[..|data|] == data;
    assert (data + rest)[|data|..] == rest;
  }

  /** A stream that ends inside the payload is closed (end of file) or dropped (fault), never mis-sized. */
  lemma ExactTruncatedPayload<M>(dec: seq<byte> -> Option<(M, nat)>, s: Stream)
    requires |s.bytes| >= 4 && |s.bytes| - 4 < FromLe32(s.bytes[..4])
    ensures ReadFrameExact(dec, s) == Err(ConvertError(s.end))
  {
  }
}
