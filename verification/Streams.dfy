/** Frames on a stream: the read and write calls, the UDP pumps, and several writers sharing one control stream. */
module Streams {
  import opened Wrappers
  import opened Frames

  datatype WriteResult = Written | Refused

  /** A reliable byte stream: what has been written and not yet read. */
  class Stream {
    var data: Bytes

    constructor ()
      ensures data == []
    {
      data := [];
    }

    method Write(p: Bytes)
      modifies this
      ensures data == old(data) + p
    {
      data := data + p;
    }

    /** io.ReadFull: all `n` bytes, or what there is together with an error. */
    method ReadFull(n: nat) returns (p: Bytes, err: Option<ReadResult>)
      modifies this
      ensures n <= |old(data)| ==> err == None && p == old(data)[..n] && data == old(data)[n..]
      ensures n > |old(data)| ==> err == Some(if old(data) == [] then Eof else UnexpectedEof) && data == []
    {
      if n <= |data| {
        p, data := data[..n], data[n..];
        return p, None;
      }
      err := Some(if data == [] then Eof else UnexpectedEof);
      p, data := data, [];
    }

    /** writeFramed: nothing is written for a message over the limit. */
    method WriteFramed(c: Codec, m: Bytes) returns (r: WriteResult)
      modifies this
      ensures r == Refused <==> |m| > c.max
      ensures data == if r == Refused then old(data) else old(data) + Frame(c, m)
    {
      if |m| > c.max {
        return Refused;
      }
      Write(Encode(|m|, c.width));
      Write(m);
      assert data == old(data) + Frame(c, m);
      return Written;
    }

    method ReadFramed(c: Codec) returns (r: ReadResult)
      requires 0 < c.width
      modifies this
      ensures r == ReadFrame(c, old(data))
      ensures r.Got? ==> data == r.rest
    {
      var hdr, err := ReadFull(c.width);
      if err.Some? {
        return err.value;
      }
      var n := Decode(hdr);
      if n > c.max {
        return TooLarge;
      }
      var body;
      body, err := ReadFull(n);
      if err.Some? {
        return err.value;
      }
      return Got(body, data);
    }

    /** The datagram loop of the sender: each datagram read from the socket becomes one frame. */
    method PumpDatagrams(datagrams: seq<Bytes>)
      requires Small(UDP, datagrams)
      modifies this
      ensures data == old(data) + FrameAll(UDP, datagrams)
    {
      for i := 0 to |datagrams|
        invariant data == old(data) + FrameAll(UDP, datagrams[..i])
      {
        assert datagrams[..i + 1] == datagrams[..i] + [datagrams[i]];
        FrameAllSnoc(UDP, datagrams[..i], datagrams[i]);
        Write(Encode(|datagrams[i]|, UDP.width));
        Write(datagrams[i]);
      }
      assert datagrams[..|datagrams|] == datagrams;
    }

    /** The datagram loop of the receiver, until the stream ends. */
    method DrainDatagrams() returns (out: seq<Bytes>)
      modifies this
      ensures out == ReadAll(UDP, old(data))
    {
      out := [];
      ghost var start := data;
      while true
        invariant ReadAll(UDP, start) == out + ReadAll(UDP, data)
        decreases |data|
      {
        var r := ReadFramed(UDP);
        if !r.Got? {
          return;
        }
        out := out + [r.msg];
      }
    }
  }

  /** Datagrams carried from edge to agent, or back, arrive as they were sent. */
  method CarryDatagrams(datagrams: seq<Bytes>) returns (out: seq<Bytes>)
    requires Small(UDP, datagrams)
    ensures out == datagrams
  {
    var st := new Stream();
    st.PumpDatagrams(datagrams);
    CodecsFit();
    var all := FrameAll(UDP, datagrams);
    assert st.data == all && all[..|all|] == all;
    TruncationIsPrefix(UDP, datagrams, |all|);
    AllFramesWhole(UDP, datagrams);
    out := st.DrainDatagrams();
    assert datagrams[..|datagrams|] == datagrams;
  }

  lemma {:induction false} AllFramesWhole(c: Codec, msgs: seq<Bytes>)
    ensures WholeFrames(c, msgs, |FrameAll(c, msgs)|) == |msgs|
    decreases |msgs|
  {
    if msgs != [] {
      AllFramesWhole(c, msgs[1..]);
    }
  }

  // ---- Several writers on one control stream ----

  /** The writer in the critical section, its message, and whether the length prefix is out. */
  datatype Holder = Holder(writer: nat, msg: Bytes, prefixOut: bool)

  /** `done` lists the messages written so far in lock order; a failed write breaks the stream for good. */
  datatype Wire = Wire(bytes: Bytes, holder: Option<Holder>, done: seq<Bytes>, broken: bool)

  datatype Step =
    | Acquire(writer: nat, msg: Bytes)
    | WritePrefix
    | WriteBody
    | Fail(k: nat)  // the write in progress puts out only k bytes

  /** The bytes that the holder's next Write call would put out. */
  function NextWrite(c: Codec, h: Holder): Bytes {
    if h.prefixOut then h.msg else Encode(|h.msg|, c.width)
  }

  /** A step that does not apply leaves the wire alone; only the holder of the mutex writes. */
  function Apply(c: Codec, w: Wire, st: Step): Wire {
    match st
    case Acquire(writer, msg) =>
      if w.holder.Some? || w.broken || |msg| > c.max then w else w.(holder := Some(Holder(writer, msg, false)))
    case WritePrefix =>
      if w.holder.None? || w.holder.value.prefixOut then w
      else w.(bytes := w.bytes + NextWrite(c, w.holder.value), holder := Some(w.holder.value.(prefixOut := true)))
    case WriteBody =>
      if w.holder.None? || !w.holder.value.prefixOut then w
      else Wire(w.bytes + w.holder.value.msg, None, w.done + [w.holder.value.msg], w.broken)
    case Fail(k) =>
      if w.holder.None? || k >= |NextWrite(c, w.holder.value)| then w
      else Wire(w.bytes + NextWrite(c, w.holder.value)[..k], None, w.done, true)
  }

  function Exec(c: Codec, w: Wire, steps: seq<Step>): Wire
    decreases |steps|
  {
    if steps == [] then w else Exec(c, Apply(c, w, steps[0]), steps[1..])
  }

  /** Whole frames of the finished messages, then at most part of one more frame. */
  ghost predicate WireOk(c: Codec, w: Wire) {
    && Small(c, w.done)
    && (w.holder.Some? ==> !w.broken && HolderOk(c, w, w.holder.value))
    && (w.holder.None? && !w.broken ==> w.bytes == FrameAll(c, w.done))
    && (w.broken ==> exists m: Bytes, k: nat :: BrokenOff(c, w, m, k))
  }

  predicate HolderOk(c: Codec, w: Wire, h: Holder) {
    && |h.msg| <= c.max
    && w.bytes == FrameAll(c, w.done) + (if h.prefixOut then Encode(|h.msg|, c.width) else [])
  }

  predicate BrokenOff(c: Codec, w: Wire, m: Bytes, k: nat) {
    |m| <= c.max && k < |Frame(c, m)| && w.bytes == FrameAll(c, w.done) + Frame(c, m)[..k]
  }

  lemma FailBreaksOff(c: Codec, w: Wire, k: nat)
    requires WireOk(c, w) && w.holder.Some? && k < |NextWrite(c, w.holder.value)|
    ensures WireOk(c, Apply(c, w, Fail(k)))
  {
    var h, w' := w.holder.value, Apply(c, w, Fail(k));
    var cut := if h.prefixOut then c.width + k else k;
    assert w'.bytes == FrameAll(c, w.done) + Frame(c, h.msg)[..cut];
    assert BrokenOff(c, w', h.msg, cut);
  }

  lemma WireStep(c: Codec, w: Wire, st: Step)
    requires WireOk(c, w)
    ensures WireOk(c, Apply(c, w, st))
  {
    var w' := Apply(c, w, st);
    match st
    case Acquire(_, _) =>
      assert w.bytes + [] == w.bytes;
    case WritePrefix =>
      if w.holder.Some? && !w.holder.value.prefixOut {
        assert FrameAll(c, w.done) + [] == FrameAll(c, w.done);
      }
    case WriteBody =>
      if w.holder.Some? && w.holder.value.prefixOut {
        FrameAllSnoc(c, w.done, w.holder.value.msg);
        assert w'.bytes == FrameAll(c, w.done) + Frame(c, w.holder.value.msg);
      }
    case Fail(k) =>
      if w.holder.Some? && k < |NextWrite(c, w.holder.value)| {
        FailBreaksOff(c, w, k);
      }
  }

  lemma {:induction false} WireRun(c: Codec, w: Wire, steps: seq<Step>)
    requires WireOk(c, w)
    ensures WireOk(c, Exec(c, w, steps))
    decreases |steps|
  {
    if steps != [] {
      WireStep(c, w, steps[0]);
      WireRun(c, Apply(c, w, steps[0]), steps[1..]);
    }
  }

  lemma {:induction false} ReadAllThenPart(c: Codec, msgs: seq<Bytes>, part: Bytes)
    requires Fits(c) && Small(c, msgs) && !ReadFrame(c, part).Got?
    ensures ReadAll(c, FrameAll(c, msgs) + part) == msgs
    decreases |msgs|
  {
    if msgs == [] {
      assert FrameAll(c, msgs) + part == part;
    } else {
      var rest := FrameAll(c, msgs[1..]) + part;
      assert FrameAll(c, msgs) + part == Frame(c, msgs[0]) + rest;
      ReadWritten(c, msgs[0], rest);
      ReadAllThenPart(c, msgs[1..], part);
    }
  }

  /** A writer that gets the mutex and whose writes go through puts out its whole frame. */
  lemma WriteCompletes(c: Codec, w: Wire, writer: nat, msg: Bytes)
    requires w.holder.None? && !w.broken && |msg| <= c.max
    ensures var w' := Apply(c, Apply(c, Apply(c, w, Acquire(writer, msg)), WritePrefix), WriteBody);
      w' == Wire(w.bytes + Encode(|msg|, c.width) + msg, None, w.done + [msg], false)
  {
  }

  /** A write that fails part way puts out what it could, frees the mutex and breaks the stream. */
  lemma FailMeans(c: Codec, w: Wire, h: Holder, k: nat)
    requires w.holder == Some(h)
    ensures var next := if h.prefixOut then h.msg else Encode(|h.msg|, c.width);
      Apply(c, w, Fail(k)) == if k < |next| then Wire(w.bytes + next[..k], None, w.done, true) else w
  {
  }

  /** While one writer holds the mutex, and once the stream is broken, no other gets in. */
  lemma OthersWait(c: Codec, w: Wire, writer: nat, msg: Bytes)
    requires w.holder.Some? || w.broken || |msg| > c.max
    ensures Apply(c, w, Acquire(writer, msg)) == w
  {
  }

  /** An empty message is whole once its length prefix is out. */
  function AlreadyWhole(w: Wire): seq<Bytes> {
    if w.holder.Some? && w.holder.value.prefixOut && w.holder.value.msg == [] then [[]] else []
  }

  lemma ReadBroken(c: Codec, w: Wire)
    requires Fits(c) && WireOk(c, w) && w.broken
    ensures ReadAll(c, w.bytes) == w.done
  {
    var m: Bytes, k: nat :| BrokenOff(c, w, m, k);
    ReadCutFrame(c, m, k);
    ReadAllThenPart(c, w.done, Frame(c, m)[..k]);
  }

  lemma ReadHeld(c: Codec, w: Wire)
    requires Fits(c) && WireOk(c, w) && w.holder.Some?
    ensures ReadAll(c, w.bytes) == w.done + AlreadyWhole(w)
  {
    var m := w.holder.value.msg;
    if !w.holder.value.prefixOut {
      ReadAllThenPart(c, w.done, []);
    } else if m == [] {
      FrameAllSnoc(c, w.done, m);
      assert w.bytes == FrameAll(c, w.done + [m]) + [];
      ReadAllThenPart(c, w.done + [m], []);
    } else {
      assert Frame(c, m)[..c.width] == Encode(|m|, c.width);
      ReadCutFrame(c, m, c.width);
      ReadAllThenPart(c, w.done, Encode(|m|, c.width));
    }
  }

  /**
    In every interleaving of writers that hold the write mutex, with writes that fail part way included, the peer
    reads exactly the messages written so far, in lock order.
   */
  lemma WritersNeverInterleave(c: Codec, steps: seq<Step>)
    requires Fits(c)
    ensures var w := Exec(c, Wire([], None, [], false), steps); ReadAll(c, w.bytes) == w.done + AlreadyWhole(w)
  {
    var w := Exec(c, Wire([], None, [], false), steps);
    WireRun(c, Wire([], None, [], false), steps);
    if w.broken {
      ReadBroken(c, w);
    } else if w.holder.Some? {
      ReadHeld(c, w);
    } else {
      assert w.bytes == FrameAll(c, w.done) + [];
      ReadAllThenPart(c, w.done, []);
    }
  }

  // ---- The inspector's bounded copy ----

  class CapWriter {
    const max: nat
    var buf: Bytes
    var total: nat
    ghost var all: Bytes  // everything written

    /** Every byte is counted and exactly the first `max` are kept. */
    ghost predicate Valid()
      reads this
    {
      total == |all| && buf == if |all| <= max then all else all[..max]
    }

    constructor (max: nat)
      ensures Valid() && this.max == max && all == []
    {
      this.max := max;
      buf, total, all := [], 0, [];
    }

    method Write(p: Bytes)
      requires Valid()
      modifies this
      ensures Valid() && all == old(all) + p
    {
      total := total + |p|;
      all := all + p;
      var room := max - |buf|;
      if room > 0 {
        if room > |p| {
          room := |p|;
        }
        buf := buf + p[..room];
      }
    }
  }
}
