/**
  Length-prefixed frames: control messages and stream headers with a 32-bit length and a size limit, and UDP
  datagrams with a 16-bit length. A message is its marshalled bytes.
 */
module Frames {
  import opened Wrappers

  type Byte = b: int | 0 <= b < 256
  type Bytes = seq<Byte>

  // ---- Big-endian numbers ----

  function Limit(width: nat): nat {
    if width == 0 then 1 else 256 * Limit(width - 1)
  }

  function Encode(n: nat, width: nat): (r: Bytes)
    ensures |r| == width
  {
    if width == 0 then [] else Encode(n / 256, width - 1) + [n % 256]
  }

  function Decode(s: Bytes): nat {
    if s == [] then 0 else 256 * Decode(s[..|s| - 1]) + s[|s| - 1]
  }

  lemma {:induction false} DecodeEncode(n: nat, width: nat)
    requires n < Limit(width)
    ensures Decode(Encode(n, width)) == n
  {
    if width > 0 {
      DecodeEncode(n / 256, width - 1);
      assert Encode(n, width)[..width - 1] == Encode(n / 256, width - 1);
    }
  }

  lemma EncodeNext(x: nat, d: Byte, width: nat)
    ensures Encode(256 * x + d, width + 1) == Encode(x, width) + [d]
  {
  }

  lemma TwoBytes(a: Byte, b: Byte)
    ensures Encode(256 * a + b, 2) == [a, b]
  {
    EncodeNext(0, a, 0);
    EncodeNext(a, b, 1);
  }

  /** Network byte order: the most significant byte first. */
  lemma BigEndian(a: Byte, b: Byte, c: Byte, d: Byte)
    ensures Encode(256 * (256 * (256 * a + b) + c) + d, 4) == [a, b, c, d]
  {
    var high := 256 * a + b;
    TwoBytes(a, b);
    EncodeNext(high, c, 2);
    EncodeNext(256 * high + c, d, 3);
  }

  // ---- One frame ----

  /** The length of the prefix in bytes, and the largest message allowed. */
  datatype Codec = Codec(width: nat, max: nat)

  predicate Fits(c: Codec) {
    0 < c.width && c.max < Limit(c.width)
  }

  const CONTROL := Codec(4, 1_048_576)
  const UDP := Codec(2, 65_535)

  lemma CodecsFit()
    ensures Fits(CONTROL) && Fits(UDP)
    ensures CONTROL.width == 4 && CONTROL.max == 1024 * 1024 && UDP.width == 2 && UDP.max == 256 * 256 - 1
  {
    assert Limit(2) == 65_536;
    assert Limit(4) == 65_536 * Limit(2);
  }

  function Frame(c: Codec, m: Bytes): Bytes {
    Encode(|m|, c.width) + m
  }

  /** Success with the rest of the stream, or io.EOF, io.ErrUnexpectedEOF, ErrFrameTooLarge. */
  datatype ReadResult = Got(msg: Bytes, rest: Bytes) | Eof | UnexpectedEof | TooLarge

  /** readFramed: io.ReadFull of the prefix, the size check, io.ReadFull of the body. */
  function ReadFrame(c: Codec, s: Bytes): (r: ReadResult)
    ensures r.Got? ==> c.width + |r.msg| + |r.rest| == |s|
  {
    if |s| < c.width then (if s == [] then Eof else UnexpectedEof)
    else
      var n := Decode(s[..c.width]);
      if n > c.max then TooLarge
      else if |s| < c.width + n then (if |s| == c.width then Eof else UnexpectedEof)
      else Got(s[c.width..c.width + n], s[c.width + n..])
  }

  /** A UDP frame on the wire: the datagram's length in two bytes, the higher one first, and the datagram. */
  lemma UdpFrameMeans(m: Bytes, hi: Byte, lo: Byte)
    requires |m| == 256 * hi + lo
    ensures Frame(UDP, m) == [hi, lo] + m
  {
    TwoBytes(hi, lo);
  }

  /** What is read back is what was written, and the bytes after the frame are left alone. */
  lemma ReadWritten(c: Codec, m: Bytes, rest: Bytes)
    requires Fits(c) && |m| <= c.max
    ensures ReadFrame(c, Frame(c, m) + rest) == Got(m, rest)
  {
    var s := Frame(c, m) + rest;
    assert s[..c.width] == Encode(|m|, c.width);
    DecodeEncode(|m|, c.width);
    assert s[c.width..c.width + |m|] == m && s[c.width + |m|..] == rest;
  }

  /** A frame cut short is never mistaken for a message. */
  lemma ReadCutFrame(c: Codec, m: Bytes, k: nat)
    requires Fits(c) && |m| <= c.max && k < |Frame(c, m)|
    ensures var r := ReadFrame(c, Frame(c, m)[..k]); r == Eof || r == UnexpectedEof
  {
    if k >= c.width {
      assert Frame(c, m)[..k][..c.width] == Encode(|m|, c.width);
      DecodeEncode(|m|, c.width);
    }
  }

  // ---- Sequences of frames ----

  function FrameAll(c: Codec, msgs: seq<Bytes>): Bytes {
    if msgs == [] then [] else Frame(c, msgs[0]) + FrameAll(c, msgs[1..])
  }

  /** The messages read until the first error. */
  function ReadAll(c: Codec, s: Bytes): seq<Bytes>
    requires 0 < c.width
    decreases |s|
  {
    var r := ReadFrame(c, s);
    if r.Got? then [r.msg] + ReadAll(c, r.rest) else []
  }

  ghost predicate Small(c: Codec, msgs: seq<Bytes>) {
    forall i :: 0 <= i < |msgs| ==> |msgs[i]| <= c.max
  }

  /** `n` reads in a row; `None` when one of them fails. */
  function ReadMany(c: Codec, s: Bytes, n: nat): Option<(seq<Bytes>, Bytes)> {
    if n == 0 then Some(([], s))
    else
      var r := ReadFrame(c, s);
      if !r.Got? then None
      else
        var more := ReadMany(c, r.rest, n - 1);
        if more.None? then None else Some(([r.msg] + more.value.0, more.value.1))
  }

  /** Round trip of any sequence of messages, with any raw bytes after it left unread. */
  lemma {:induction false} RoundTrip(c: Codec, msgs: seq<Bytes>, raw: Bytes)
    requires Fits(c) && Small(c, msgs)
    ensures ReadMany(c, FrameAll(c, msgs) + raw, |msgs|) == Some((msgs, raw))
    decreases |msgs|
  {
    if msgs == [] {
      assert FrameAll(c, msgs) + raw == raw;
    } else {
      var rest := FrameAll(c, msgs[1..]) + raw;
      assert FrameAll(c, msgs) + raw == Frame(c, msgs[0]) + rest;
      ReadWritten(c, msgs[0], rest);
      RoundTrip(c, msgs[1..], raw);
      assert [msgs[0]] + msgs[1..] == msgs;
    }
  }

  /** How many whole frames lie within the first `k` bytes. */
  function WholeFrames(c: Codec, msgs: seq<Bytes>, k: nat): (n: nat)
    ensures n <= |msgs|
  {
    if msgs == [] || k < |Frame(c, msgs[0])| then 0
    else 1 + WholeFrames(c, msgs[1..], k - |Frame(c, msgs[0])|)
  }

  lemma ReadAllFirst(c: Codec, m: Bytes, rest: Bytes)
    requires Fits(c) && |m| <= c.max
    ensures ReadAll(c, Frame(c, m) + rest) == [m] + ReadAll(c, rest)
  {
    ReadWritten(c, m, rest);
  }

  lemma ReadAllCut(c: Codec, m: Bytes, k: nat)
    requires Fits(c) && |m| <= c.max && k < |Frame(c, m)|
    ensures ReadAll(c, Frame(c, m)[..k]) == []
  {
    ReadCutFrame(c, m, k);
  }

  lemma CutConcat(f: Bytes, rest: Bytes, k: nat)
    requires k <= |f| + |rest|
    ensures (f + rest)[..k] == if k < |f| then f[..k] else f + rest[..k - |f|]
  {
  }

  lemma PrefixGrows(msgs: seq<Bytes>, n: nat, read: seq<Bytes>)
    requires msgs != [] && n <= |msgs| - 1 && read == msgs[1..][..n]
    ensures [msgs[0]] + read == msgs[..1 + n]
  {
  }

  /** One more whole frame in front. */
  lemma TruncationStep(c: Codec, msgs: seq<Bytes>, k: nat, n: nat)
    requires Fits(c) && msgs != [] && |msgs[0]| <= c.max && n <= |msgs| - 1
    requires |Frame(c, msgs[0])| <= k <= |Frame(c, msgs[0])| + |FrameAll(c, msgs[1..])|
    requires ReadAll(c, FrameAll(c, msgs[1..])[..k - |Frame(c, msgs[0])|]) == msgs[1..][..n]
    ensures ReadAll(c, (Frame(c, msgs[0]) + FrameAll(c, msgs[1..]))[..k]) == msgs[..1 + n]
  {
    var f, rest := Frame(c, msgs[0]), FrameAll(c, msgs[1..]);
    CutConcat(f, rest, k);
    ReadAllFirst(c, msgs[0], rest[..k - |f|]);
    PrefixGrows(msgs, n, ReadAll(c, rest[..k - |f|]));
  }

  /** Every truncation decodes to a prefix of what was sent: exactly the messages whose frames arrived whole. */
  lemma {:induction false} TruncationIsPrefix(c: Codec, msgs: seq<Bytes>, k: nat)
    requires Fits(c) && Small(c, msgs) && k <= |FrameAll(c, msgs)|
    ensures ReadAll(c, FrameAll(c, msgs)[..k]) == msgs[..WholeFrames(c, msgs, k)]
    decreases |msgs|
  {
    if msgs == [] {
      assert FrameAll(c, msgs)[..k] == [];
    } else if k < |Frame(c, msgs[0])| {
      NoWholeFrame(c, msgs, k);
    } else {
      var k' := k - |Frame(c, msgs[0])|;
      TruncationIsPrefix(c, msgs[1..], k');
      TruncationStep(c, msgs, k, WholeFrames(c, msgs[1..], k'));
    }
  }

  lemma NoWholeFrame(c: Codec, msgs: seq<Bytes>, k: nat)
    requires Fits(c) && msgs != [] && |msgs[0]| <= c.max && k < |Frame(c, msgs[0])|
    ensures k <= |FrameAll(c, msgs)| && ReadAll(c, FrameAll(c, msgs)[..k]) == []
  {
    CutConcat(Frame(c, msgs[0]), FrameAll(c, msgs[1..]), k);
    ReadAllCut(c, msgs[0], k);
  }

  lemma {:induction false} FrameAllSnoc(c: Codec, msgs: seq<Bytes>, m: Bytes)
    ensures FrameAll(c, msgs + [m]) == FrameAll(c, msgs) + Frame(c, m)
    decreases |msgs|
  {
    if msgs == [] {
      assert ([] + [m])[1..] == [];
    } else {
      assert (msgs + [m])[1..] == msgs[1..] + [m];
      FrameAllSnoc(c, msgs[1..], m);
    }
  }
}
