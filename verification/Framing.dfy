/** Length-prefixed records over a TCP byte stream (tls_web_server/tls/framing.py),
    and the record loop that both TLS endpoints run over such a buffer. */
module Framing {
  import opened Wire

  const MAX_RECORD_SIZE := 16 * 1024 * 1024
  const HEADER_SIZE := 4

  /** The length prefix and the payload. Only meaningful below 2^32 bytes. */
  function Frame(payload: Bytes): Bytes {
    Pack(|payload|, HEADER_SIZE) + payload
  }

  /** frame_payload: None is the struct.error of a length that needs more than 32 bits.
      MAX_RECORD_SIZE is not checked on this side. */
  function FramePayload(payload: Bytes): Option<Bytes> {
    if |payload| < LIMIT_32 then Some(Frame(payload)) else None
  }

  function FrameAll(payloads: seq<Bytes>): Bytes {
    if payloads == [] then [] else Frame(payloads[0]) + FrameAll(payloads[1..])
  }

  /** Every payload is small enough for the receiving side. */
  predicate Acceptable(payloads: seq<Bytes>) {
    forall i :: 0 <= i < |payloads| ==> |payloads[i]| <= MAX_RECORD_SIZE
  }

  // ---- one pop ----

  datatype Pop = NeedMore | TooLarge(length: nat) | Popped(payload: Bytes, rest: Bytes)

  function Declared(buffer: Bytes): nat
    requires HEADER_SIZE <= |buffer|
  {
    Unpack(buffer[..HEADER_SIZE])
  }

  /** What pop_record does to a buffer. */
  function PopFrom(buffer: Bytes): Pop {
    if |buffer| < HEADER_SIZE then NeedMore
    else if Declared(buffer) > MAX_RECORD_SIZE then TooLarge(Declared(buffer))
    else if |buffer| < HEADER_SIZE + Declared(buffer) then NeedMore
    else Popped(buffer[HEADER_SIZE..HEADER_SIZE + Declared(buffer)], buffer[HEADER_SIZE + Declared(buffer)..])
  }

  /** RecordBuffer: the only mutable state of the framing layer. */
  class RecordBuffer {
    var buffer: Bytes

    constructor ()
      ensures buffer == []
    {
      buffer := [];
    }

    method Feed(data: Bytes)
      modifies this
      ensures buffer == old(buffer) + data
    {
      buffer := buffer + data;
    }

    /** TooLarge is the ValueError, NeedMore is the None result. */
    method PopRecord() returns (r: Pop)
      modifies this
      ensures r == PopFrom(old(buffer))
      ensures buffer == if r.Popped? then r.rest else old(buffer)
    {
      if |buffer| < HEADER_SIZE {
        return NeedMore;
      }
      var length := Unpack(buffer[..HEADER_SIZE]);
      if length > MAX_RECORD_SIZE {
        return TooLarge(length);
      }
      if |buffer| < HEADER_SIZE + length {
        return NeedMore;
      }
      var payload := buffer[HEADER_SIZE..HEADER_SIZE + length];
      buffer := buffer[HEADER_SIZE + length..];
      return Popped(payload, buffer);
    }

    /** None is the ValueError, which loses the records popped before it. */
    method PopAll() returns (records: Option<seq<Bytes>>)
      modifies this
      ensures buffer == Deframe(old(buffer)).rest
      ensures records == if Deframe(old(buffer)).oversize then None else Some(Deframe(old(buffer)).records)
    {
      var popped: seq<Bytes> := [];
      while true
        invariant Deframe(old(buffer)) ==
          var d := Deframe(buffer); Deframed(popped + d.records, d.rest, d.oversize)
        decreases |buffer|
      {
        var r := PopRecord();
        match r {
          case NeedMore =>
            assert popped + [] == popped;
            return Some(popped);
          case TooLarge(_) =>
            return None;
          case Popped(payload, rest) =>
            assert popped + ([payload] + Deframe(rest).records) == (popped + [payload]) + Deframe(rest).records;
            popped := popped + [payload];
        }
      }
    }
  }

  /** The records in a buffer, the bytes left over, and whether the loop stopped at an oversize header. */
  datatype Deframed = Deframed(records: seq<Bytes>, rest: Bytes, oversize: bool)

  function Deframe(buffer: Bytes): Deframed
    decreases |buffer|
  {
    match PopFrom(buffer)
    case NeedMore => Deframed([], buffer, false)
    case TooLarge(_) => Deframed([], buffer, true)
    case Popped(payload, rest) =>
      var d := Deframe(rest);
      Deframed([payload] + d.records, d.rest, d.oversize)
  }

  // ---- what a pop means for the stream ----

  /** A popped record is a prefix of the buffer in framed form. */
  lemma PopFrames(buffer: Bytes)
    requires PopFrom(buffer).Popped?
    ensures Frame(PopFrom(buffer).payload) + PopFrom(buffer).rest == buffer
    ensures |PopFrom(buffer).payload| <= MAX_RECORD_SIZE
  {
    PackUnpack(buffer[..HEADER_SIZE]);
    assert buffer == buffer[..HEADER_SIZE] + buffer[HEADER_SIZE..];
  }

  /** More bytes never change a verdict that has been reached. */
  lemma {:induction false} PopStable(a: Bytes, b: Bytes)
    ensures PopFrom(a).TooLarge? ==> PopFrom(a + b) == PopFrom(a)
    ensures PopFrom(a).Popped? ==> PopFrom(a + b) == Popped(PopFrom(a).payload, PopFrom(a).rest + b)
  {
    if HEADER_SIZE <= |a| {
      assert (a + b)[..HEADER_SIZE] == a[..HEADER_SIZE];
    }
  }

  lemma PopOfFrame(payload: Bytes, tail: Bytes)
    requires |payload| <= MAX_RECORD_SIZE
    ensures PopFrom(Frame(payload) + tail) == Popped(payload, tail)
  {
    var whole := Frame(payload) + tail;
    Capacities();
    UnpackPack(|payload|, HEADER_SIZE);
    assert whole[..HEADER_SIZE] == Pack(|payload|, HEADER_SIZE);
    assert whole[HEADER_SIZE..HEADER_SIZE + |payload|] == payload;
    assert whole[HEADER_SIZE + |payload|..] == tail;
  }

  /** A frame that the sender may build and the receiver does not accept. */
  lemma PopOfOversize(payload: Bytes, tail: Bytes)
    requires MAX_RECORD_SIZE < |payload| < LIMIT_32
    ensures PopFrom(Frame(payload) + tail) == TooLarge(|payload|)
  {
    var whole := Frame(payload) + tail;
    Capacities();
    UnpackPack(|payload|, HEADER_SIZE);
    assert whole[..HEADER_SIZE] == Pack(|payload|, HEADER_SIZE);
  }

  /** A buffer that starts a stream of acceptable frames either waits for more
      or gives exactly the first payload of the stream. */
  lemma {:induction false} PopOfFrames(buffer: Bytes, later: Bytes, payloads: seq<Bytes>)
    requires Acceptable(payloads)
    requires buffer + later == FrameAll(payloads)
    ensures !PopFrom(buffer).TooLarge?
    ensures PopFrom(buffer).Popped? ==>
      && payloads != []
      && PopFrom(buffer).payload == payloads[0]
      && PopFrom(buffer).rest + later == FrameAll(payloads[1..])
    ensures PopFrom(buffer).NeedMore? && payloads != [] ==> later != []
  {
    if payloads != [] {
      PopOfFrame(payloads[0], FrameAll(payloads[1..]));
      PopStable(buffer, later);
      if later == [] {
        assert buffer + later == buffer;
      }
    }
  }

  lemma {:induction false} FrameAllCons(x: Bytes, a: seq<Bytes>)
    ensures FrameAll([x] + a) == Frame(x) + FrameAll(a)
  {
    assert ([x] + a)[1..] == a;
  }

  lemma {:induction false} FrameAllAppend(a: seq<Bytes>, b: seq<Bytes>)
    ensures FrameAll(a + b) == FrameAll(a) + FrameAll(b)
  {
    if a == [] {
      assert a + b == b;
    } else {
      assert (a + b)[1..] == a[1..] + b;
      FrameAllAppend(a[1..], b);
    }
  }

  lemma {:induction false} FrameAllSnoc(a: seq<Bytes>, x: Bytes)
    ensures FrameAll(a + [x]) == FrameAll(a) + Frame(x)
  {
    FrameAllAppend(a, [x]);
    assert FrameAll([x]) == Frame(x) + FrameAll([]);
  }

  lemma {:induction false} FrameAllConsThen(x: Bytes, xs: seq<Bytes>, tail: Bytes)
    ensures FrameAll([x] + xs) + tail == Frame(x) + (FrameAll(xs) + tail)
  {
    FrameAllCons(x, xs);
  }

  /** Nothing is lost or invented: the records, framed again, followed by the
      residue, are the bytes fed; and the residue holds no complete frame. */
  lemma {:induction false} DeframeConserves(buffer: Bytes)
    ensures FrameAll(Deframe(buffer).records) + Deframe(buffer).rest == buffer
    ensures Acceptable(Deframe(buffer).records)
    ensures if Deframe(buffer).oversize then PopFrom(Deframe(buffer).rest).TooLarge?
            else PopFrom(Deframe(buffer).rest).NeedMore?
    decreases |buffer|
  {
    var pop := PopFrom(buffer);
    if pop.Popped? {
      PopFrames(buffer);
      DeframeConserves(pop.rest);
      FrameAllConsThen(pop.payload, Deframe(pop.rest).records, Deframe(pop.rest).rest);
    }
  }

  lemma {:induction false} DeframeFrame(payload: Bytes, tail: Bytes)
    requires |payload| <= MAX_RECORD_SIZE
    ensures Deframe(Frame(payload) + tail) ==
      Deframed([payload] + Deframe(tail).records, Deframe(tail).rest, Deframe(tail).oversize)
  {
    PopOfFrame(payload, tail);
  }

  /** Frames of acceptable payloads come back as exactly those payloads, whatever follows them. */
  lemma {:induction false} DeframeFrames(payloads: seq<Bytes>, tail: Bytes)
    requires Acceptable(payloads)
    ensures Deframe(FrameAll(payloads) + tail) ==
      Deframed(payloads + Deframe(tail).records, Deframe(tail).rest, Deframe(tail).oversize)
  {
    if payloads == [] {
      assert FrameAll(payloads) + tail == tail;
      assert payloads + Deframe(tail).records == Deframe(tail).records;
    } else {
      var x, xs := payloads[0], payloads[1..];
      assert payloads == [x] + xs;
      FrameAllConsThen(x, xs, tail);
      DeframeFrame(x, FrameAll(xs) + tail);
      DeframeFrames(xs, tail);
      ConcatAssoc([x], xs, Deframe(tail).records);
    }
  }

  // ---- the record loop of feed_wire_data ----

  /** Every way a feed or a protect call can raise. */
  datatype Error = ProtocolError | ValueError | InvalidTag | StructError | VerificationError | InvalidSignature

  /** One handler call: the state it leaves, and the exception it raised, if any. */
  datatype Step<+S> = Step(core: S, error: Option<Error>)

  datatype Fed<+S> = Fed(core: S, buffer: Bytes, error: Option<Error>)

  type Handler<!S> = (S, Bytes) -> Step<S>

  /** The `while True` loop of feed_wire_data: pop, handle, until the buffer
      needs more bytes or something raises. A record whose handler raises is gone
      from the buffer; an oversize header stays in it. */
  function Drain<S>(handle: Handler<S>, core: S, buffer: Bytes): Fed<S>
    decreases |buffer|
  {
    match PopFrom(buffer)
    case NeedMore => Fed(core, buffer, None)
    case TooLarge(_) => Fed(core, buffer, Some(ValueError))
    case Popped(payload, rest) =>
      var step := handle(core, payload);
      if step.error.Some? then Fed(step.core, rest, step.error) else Drain(handle, step.core, rest)
  }

  /** feed_wire_data: an empty chunk returns before the loop. */
  function Feed<S>(handle: Handler<S>, core: S, buffer: Bytes, data: Bytes): Fed<S> {
    if data == [] then Fed(core, buffer, None) else Drain(handle, core, buffer + data)
  }

  /** Feeding chunk after chunk, stopping at the first exception. */
  function FeedChunks<S>(handle: Handler<S>, core: S, buffer: Bytes, chunks: seq<Bytes>): Fed<S>
    decreases |chunks|
  {
    if chunks == [] then Fed(core, buffer, None)
    else
      var fed := Feed(handle, core, buffer, chunks[0]);
      if fed.error.Some? then fed else FeedChunks(handle, fed.core, fed.buffer, chunks[1..])
  }

  /** Draining a longer buffer is draining the short one and going on from there;
      a failure is final and leaves the extra bytes unread. */
  lemma {:induction false} DrainAppend<S>(handle: Handler<S>, core: S, a: Bytes, b: Bytes)
    ensures var fed := Drain(handle, core, a);
      Drain(handle, core, a + b) ==
        if fed.error.Some? then Fed(fed.core, fed.buffer + b, fed.error)
        else Drain(handle, fed.core, fed.buffer + b)
    decreases |a|
  {
    PopStable(a, b);
    match PopFrom(a)
    case NeedMore =>
    case TooLarge(_) =>
    case Popped(payload, rest) =>
      var step := handle(core, payload);
      if step.error.None? {
        DrainAppend(handle, step.core, rest, b);
      }
  }

  /** One whole frame is one handler call. */
  lemma {:induction false} DrainFrame<S>(handle: Handler<S>, core: S, payload: Bytes, tail: Bytes)
    requires |payload| <= MAX_RECORD_SIZE
    ensures var step := handle(core, payload);
      Drain(handle, core, Frame(payload) + tail)
        == if step.error.Some? then Fed(step.core, tail, step.error) else Drain(handle, step.core, tail)
  {
    PopOfFrame(payload, tail);
  }

  lemma DrainLastFrame<S>(handle: Handler<S>, core: S, payload: Bytes)
    requires |payload| <= MAX_RECORD_SIZE
    ensures var step := handle(core, payload);
      Drain(handle, core, Frame(payload)) == Fed(step.core, [], step.error)
  {
    DrainFrame(handle, core, payload, []);
    assert Frame(payload) + [] == Frame(payload);
  }

  /** After a feed that did not raise, the buffer holds no complete frame. */
  lemma {:induction false} DrainQuiet<S>(handle: Handler<S>, core: S, buffer: Bytes)
    ensures var fed := Drain(handle, core, buffer);
      fed.error.None? ==> PopFrom(fed.buffer).NeedMore?
    decreases |buffer|
  {
    match PopFrom(buffer)
    case NeedMore =>
    case TooLarge(_) =>
    case Popped(payload, rest) =>
      DrainQuiet(handle, handle(core, payload).core, rest);
  }

  /** Feeding nothing is no different from looping over a buffer without a complete frame. */
  lemma {:induction false} FeedDrains<S>(handle: Handler<S>, core: S, buffer: Bytes, data: Bytes)
    requires PopFrom(buffer).NeedMore?
    ensures Feed(handle, core, buffer, data) == Drain(handle, core, buffer + data)
  {
    assert buffer + [] == buffer;
    assert Drain(handle, core, buffer) == Fed(core, buffer, None);
  }

  /** Fragmentation independence, for any handler: every chunking of a stream
      gives the state and the error of the stream fed whole. On success the
      buffers are equal too. */
  lemma {:induction false} ChunkingIrrelevant<S>(handle: Handler<S>, core: S, buffer: Bytes, chunks: seq<Bytes>)
    requires PopFrom(buffer).NeedMore?
    ensures var parts, whole := FeedChunks(handle, core, buffer, chunks), Feed(handle, core, buffer, Flatten(chunks));
      && parts.core == whole.core
      && parts.error == whole.error
      && parts.buffer <= whole.buffer
      && (whole.error.None? ==> parts.buffer == whole.buffer && PopFrom(parts.buffer).NeedMore?)
    decreases |chunks|
  {
    if chunks != [] {
      var later := Flatten(chunks[1..]);
      var fed := Feed(handle, core, buffer, chunks[0]);
      FeedDrains(handle, core, buffer, chunks[0]);
      FeedDrains(handle, core, buffer, Flatten(chunks));
      ConcatAssoc(buffer, chunks[0], later);
      DrainAppend(handle, core, buffer + chunks[0], later);
      DrainQuiet(handle, core, buffer + chunks[0]);
      if fed.error.None? {
        FeedDrains(handle, fed.core, fed.buffer, later);
        ChunkingIrrelevant(handle, fed.core, fed.buffer, chunks[1..]);
      }
    }
  }
}
