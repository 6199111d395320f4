/** HTTP cannot tell which path its bytes took: a TLS connection read by an honest
    client and a plain connection given the same plaintext show the same responses. */
module Transparency {
  import opened Wire
  import opened Framing
  import opened Crypto
  import opened RecordProtection
  import opened Connection
  import opened Session
  import opened Http
  import opened Pipeline
  import opened Server
  import opened ConnectionRuns
  import opened ReplyRule

  /** Everything an honest client sends: its hello, then the records of its messages. */
  ghost function ClientStream(h: Setup, log: seq<Sent>): Bytes
    requires h.Honest()
  {
    FrameAll([h.ClientHello()] + Records(h.suite, h.Keys().clientWrite, log))
  }

  /** The plaintext request stream of those messages. */
  function RequestStream(log: seq<Sent>): Bytes {
    Flatten(Texts(log))
  }

  // ---- the way in ----

  /** What a TLS end has made of the first `read` bytes of the client's stream. */
  ghost predicate FollowsTo(h: Setup, log: seq<Sent>, core: ServerCore, buffer: Bytes, read: nat, appended: Bytes)
    requires h.Honest()
  {
    && read <= |ClientStream(h, log)|
    && ServerInSession(h, core) && core.recvSeq <= |log|
    && buffer + ClientStream(h, log)[read..] == FrameAll(AwaitedByServer(h, core, log))
    && PopFrom(buffer).NeedMore?
    && appended == Flatten(Texts(log)[..core.recvSeq])
  }

  ghost predicate Following(h: Setup, log: seq<Sent>, c: Conn)
    requires h.Honest()
  {
    && c.link != Closed(TlsError)
    && c.tls.Some?
    && FollowsTo(h, log, c.tls.value.core, c.tls.value.buffer, |c.wireIn|, c.appended)
  }

  ghost predicate Tracking(h: Setup, log: seq<Sent>, c: Conn)
    requires h.Honest()
  {
    c.wireIn <= ClientStream(h, log) ==> Following(h, log, c)
  }

  lemma AcceptedFollows(h: Setup, log: seq<Sent>)
    requires h.Honest()
    ensures Following(h, log, Accepted(true))
  {
    assert [] + ClientStream(h, log)[0..] == ClientStream(h, log);
    assert Texts(log)[..0] == [];
  }

  lemma RestSplits(whole: Bytes, read: nat, bytes: Bytes, buffer: Bytes)
    requires read + |bytes| <= |whole| && whole[read..read + |bytes|] == bytes
    ensures (buffer + bytes) + whole[read + |bytes|..] == buffer + whole[read..]
  {
    assert whole[read..] == bytes + whole[read + |bytes|..];
    ConcatAssoc(buffer, bytes, whole[read + |bytes|..]);
  }

  lemma PrefixSlice(read: Bytes, bytes: Bytes, whole: Bytes)
    requires read + bytes <= whole
    ensures read <= whole && whole[|read|..|read| + |bytes|] == bytes
  {
  }

  lemma TextsGrow(texts: seq<Bytes>, i: nat, j: nat)
    requires i <= j <= |texts|
    ensures Flatten(texts[..i]) + ([] + Flatten(texts[i..j])) == Flatten(texts[..j])
  {
    assert texts[..j] == texts[..i] + texts[i..j];
    FlattenAppend(texts[..i], texts[i..j]);
    assert [] + Flatten(texts[i..j]) == Flatten(texts[i..j]);
  }

  /** Feeding the next part of the client's stream does not raise and goes on following it. */
  lemma {:induction false} FeedFollows(h: Setup, log: seq<Sent>, core: ServerCore, buffer: Bytes, read: nat,
                                       appended: Bytes, bytes: Bytes)
    requires h.Honest() && Sendable(log) && FollowsTo(h, log, core, buffer, read, appended) && core.plaintext == []
    requires read + |bytes| <= |ClientStream(h, log)| && ClientStream(h, log)[read..read + |bytes|] == bytes
    ensures var fed := Drain(ServerHandler(h.ServerEnd()), core, buffer + bytes);
      fed.error.None? && FollowsTo(h, log, fed.core, fed.buffer, read + |bytes|, appended + fed.core.plaintext)
  {
    var later := ClientStream(h, log)[read + |bytes|..];
    RestSplits(ClientStream(h, log), read, bytes, buffer);
    ServerDrains(h, core, buffer + bytes, later, log);
    DrainQuiet(ServerHandler(h.ServerEnd()), core, buffer + bytes);
    TextsGrow(Texts(log), core.recvSeq, Drain(ServerHandler(h.ServerEnd()), core, buffer + bytes).core.recvSeq);
  }

  /** What reading does to the TLS end and to the plaintext when the feed does not raise. */
  lemma {:induction false} ReadSplits(env: Setting, c: Conn, bytes: Bytes)
    requires Speaks(env.site) && Inv(env, c) && c.link.Open? && c.loop == Running && c.tls.Some? && bytes != []
    requires Drain(ServerHandler(env.tls), c.tls.value.core, c.tls.value.buffer + bytes).error.None?
    ensures Split(c, Drain(ServerHandler(env.tls), c.tls.value.core, c.tls.value.buffer + bytes), bytes,
                  Read(env, c, Data(bytes)))
  {
    var fed := Feed(ServerHandler(env.tls), c.tls.value.core, c.tls.value.buffer, bytes);
    var took := c.(wireIn := c.wireIn + bytes);
    DrainMoves(env.tls, c.tls.value.core, c.tls.value.buffer + bytes);
    QueuedFlight(env, took, fed);
    AppendSplits(env, took, fed);
  }

  predicate Split(c: Conn, fed: Fed<ServerCore>, bytes: Bytes, d: Conn) {
    && d.link.Open? && d.wireIn == c.wireIn + bytes && d.appended == c.appended + fed.core.plaintext
    && d.tls.Some? && d.tls.value.buffer == fed.buffer
    && d.tls.value.core == fed.core.(pendingWire := [], plaintext := [], sendSeq := d.tls.value.core.sendSeq)
  }

  lemma AppendSplits(env: Setting, c: Conn, fed: Fed<ServerCore>)
    requires Speaks(env.site) && c.tls.Some? && fed.error.None?
    requires var e := Emptied(c, fed); OutputOk(e) && Healthy(env, e) && e.link.Open? && e.loop == Running
    requires fed.core.plaintext != [] ==> Sending(env, Emptied(c, fed))
    ensures Split(c, fed, [], Decrypted(env, c, fed))
  {
    EmptyAfter(c.wireIn);
    if fed.core.plaintext == [] {
      EmptyAfter(c.appended);
    } else {
      AppendKeeps(env, Emptied(c, fed), fed.core.plaintext);
    }
  }

  lemma EmptyAfter(x: Bytes)
    ensures x + [] == x
  {
  }

  lemma {:induction false} ReadFails(env: Setting, c: Conn, bytes: Bytes)
    requires c.tls.Some? && bytes != []
    requires Drain(ServerHandler(env.tls), c.tls.value.core, c.tls.value.buffer + bytes).error.Some?
    ensures Read(env, c, Data(bytes)).wireIn == c.wireIn + bytes
  {
  }

  /** Sending, and emptying the two output buffers, does not touch what has been followed. */
  lemma FollowsStill(h: Setup, log: seq<Sent>, core: ServerCore, buffer: Bytes, read: nat, appended: Bytes,
                     sendSeq: nat)
    requires h.Honest() && FollowsTo(h, log, core, buffer, read, appended)
    ensures FollowsTo(h, log, core.(pendingWire := [], plaintext := [], sendSeq := sendSeq), buffer, read, appended)
  {
    assert AwaitedByServer(h, core.(pendingWire := [], plaintext := [], sendSeq := sendSeq), log)
        == AwaitedByServer(h, core, log);
  }

  lemma ReadWires(env: Setting, c: Conn, bytes: Bytes)
    requires Speaks(env.site) && Inv(env, c) && c.link.Open? && c.loop == Running && c.tls.Some? && bytes != []
    ensures Read(env, c, Data(bytes)).wireIn == c.wireIn + bytes
  {
    if Drain(ServerHandler(env.tls), c.tls.value.core, c.tls.value.buffer + bytes).error.Some? {
      ReadFails(env, c, bytes);
    } else {
      ReadSplits(env, c, bytes);
    }
  }

  lemma SplitFollows(h: Setup, log: seq<Sent>, c: Conn, fed: Fed<ServerCore>, bytes: Bytes, d: Conn)
    requires h.Honest() && Split(c, fed, bytes, d)
    requires FollowsTo(h, log, fed.core, fed.buffer, |c.wireIn| + |bytes|, c.appended + fed.core.plaintext)
    ensures Following(h, log, d)
  {
    FollowsStill(h, log, fed.core, fed.buffer, |d.wireIn|, d.appended, d.tls.value.core.sendSeq);
  }

  /** A read that does not fail follows the stream if its feed does. */
  lemma {:induction false} ReadFollows(env: Setting, h: Setup, log: seq<Sent>, c: Conn, bytes: Bytes)
    requires h.Honest() && Speaks(env.site)
    requires Inv(env, c) && c.link.Open? && c.loop == Running && c.tls.Some? && bytes != []
    requires var fed := Drain(ServerHandler(env.tls), c.tls.value.core, c.tls.value.buffer + bytes);
      && fed.error.None?
      && FollowsTo(h, log, fed.core, fed.buffer, |c.wireIn| + |bytes|, c.appended + fed.core.plaintext)
    ensures Following(h, log, Read(env, c, Data(bytes)))
  {
    var fed := Drain(ServerHandler(env.tls), c.tls.value.core, c.tls.value.buffer + bytes);
    ReadSplits(env, c, bytes);
    SplitFollows(h, log, c, fed, bytes, Read(env, c, Data(bytes)));
  }

  lemma ReadTracks(env: Setting, h: Setup, log: seq<Sent>, c: Conn, bytes: Bytes)
    requires h.Honest() && Sendable(log) && env.tls == h.ServerEnd() && Speaks(env.site)
    requires Inv(env, c) && c.link.Open? && c.loop == Running && c.tls.Some? && bytes != []
    requires Tracking(h, log, c)
    ensures Tracking(h, log, Read(env, c, Data(bytes)))
  {
    ReadWires(env, c, bytes);
    if c.wireIn + bytes <= ClientStream(h, log) {
      PrefixSlice(c.wireIn, bytes, ClientStream(h, log));
      FeedFollows(h, log, c.tls.value.core, c.tls.value.buffer, |c.wireIn|, c.appended, bytes);
      ReadFollows(env, h, log, c, bytes);
    }
  }

  lemma ServiceTracks(env: Setting, h: Setup, log: seq<Sent>, c: Conn, e: Event)
    requires h.Honest() && Sendable(log) && env.tls == h.ServerEnd() && Speaks(env.site)
    requires Inv(env, c) && c.tls.Some? && Tracking(h, log, c)
    ensures Tracking(h, log, Service(env, c, e))
  {
    if Reported(c, e) {
      var d := c;
      if e.read.Some? {
        d := Read(env, c, e.read.value);
        ReadAnyTracks(env, h, log, c, e.read.value);
      }
      if d.loop == Running && d.link.Open? && e.write.Some? {
        FlushTracks(h, log, d, e.write.value);
      }
    }
  }

  lemma FlushTracks(h: Setup, log: seq<Sent>, c: Conn, r: SendResult)
    requires h.Honest() && Tracking(h, log, c) && c.link.Open?
    ensures Tracking(h, log, Flush(c, r))
  {
    SocketTracks(h, log, c, Flush(c, r));
  }

  lemma ReadAnyTracks(env: Setting, h: Setup, log: seq<Sent>, c: Conn, r: Recv)
    requires h.Honest() && Sendable(log) && env.tls == h.ServerEnd() && Speaks(env.site)
    requires Inv(env, c) && c.link.Open? && c.loop == Running && c.tls.Some? && Tracking(h, log, c)
    ensures Tracking(h, log, Read(env, c, r))
  {
    if r.Data? && r.bytes != [] {
      ReadTracks(env, h, log, c, r.bytes);
    } else {
      SocketTracks(h, log, c, Read(env, c, r));
    }
  }

  /** What happens at the socket alone does not touch the way in. */
  lemma SocketTracks(h: Setup, log: seq<Sent>, c: Conn, d: Conn)
    requires h.Honest() && Tracking(h, log, c)
    requires d.tls == c.tls && d.wireIn == c.wireIn && d.appended == c.appended && d.link != Closed(TlsError)
    ensures Tracking(h, log, d)
  {
  }

  lemma {:induction false} RunTracks(env: Setting, h: Setup, log: seq<Sent>, c: Conn, events: seq<Event>)
    requires h.Honest() && Sendable(log) && env.tls == h.ServerEnd() && Speaks(env.site)
    requires Inv(env, c) && c.tls.Some? && Tracking(h, log, c)
    ensures Tracking(h, log, Run(env, c, events))
    decreases |events|
  {
    if events != [] {
      ServiceKeeps(env, c, events[0]);
      ServiceTracks(env, h, log, c, events[0]);
      RunTracks(env, h, log, Service(env, c, events[0]), events[1..]);
    }
  }

  /** Whatever part of an honest client's stream a TLS connection has read, in whatever
      pieces, it has not failed and has handed up exactly the whole messages in that
      part; once all of the stream is in, that is the whole plaintext stream. */
  lemma {:induction false} PlaintextArrives(env: Setting, h: Setup, log: seq<Sent>, events: seq<Event>)
    requires h.Honest() && Sendable(log) && env.tls == h.ServerEnd() && Speaks(env.site)
    ensures var c := Run(env, Accepted(true), events);
      c.wireIn <= ClientStream(h, log) ==>
        && Following(h, log, c)
        && c.appended <= RequestStream(log)
        && (c.wireIn == ClientStream(h, log) ==> c.appended == RequestStream(log))
  {
    AcceptedInv(env, true);
    AcceptedFollows(h, log);
    RunTracks(env, h, log, Accepted(true), events);
    var c := Run(env, Accepted(true), events);
    if c.wireIn <= ClientStream(h, log) {
      var end := c.tls.value;
      FlattenPrefix(Texts(log)[..end.core.recvSeq], Texts(log));
      if c.wireIn == ClientStream(h, log) {
        AllTaken(h, log, end);
        assert Texts(log)[..|log|] == Texts(log);
      }
    }
  }

  lemma AllTaken(h: Setup, log: seq<Sent>, end: TlsEnd)
    requires h.Honest() && Sendable(log) && end.core.recvSeq <= |log|
    requires end.buffer + [] == FrameAll(AwaitedByServer(h, end.core, log)) && PopFrom(end.buffer).NeedMore?
    ensures end.core.recvSeq == |log|
  {
    AwaitedByServerAcceptable(h, end.core, log);
    PopOfFrames(end.buffer, [], AwaitedByServer(h, end.core, log));
  }

  // ---- the way out ----

  /** What an honest client of this session has decrypted from the bytes sent to it. */
  ghost function Decrypts(h: Setup, wire: Bytes): Fed<ClientCore> {
    Drain(ClientHandler(h.ClientEnd()), FreshClient(h.ClientEnd()), wire)
  }

  predicate Fits(replies: seq<Bytes>) {
    forall i :: 0 <= i < |replies| ==> |replies[i]| <= MAX_PLAINTEXT
  }

  /** No response is too large to be framed. */
  predicate Framable(replies: seq<Bytes>) {
    forall i :: 0 <= i < |replies| ==> |replies[i]| + OVERHEAD < LIMIT_32
  }

  lemma TextsOfNumbered(env: Setting, replies: seq<Bytes>)
    ensures Texts(Numbered(env, replies)) == replies
    ensures Fits(replies) && |replies| <= LIMIT_64 ==> Sendable(Numbered(env, replies))
  {
  }

  /** The honest client decrypts what has been sent, without an exception, to the first
      so-many responses; and to all of them once nothing waits in the output buffer. */
  lemma {:induction false} ResponsesDecrypt(env: Setting, h: Setup, log: seq<Sent>, events: seq<Event>)
    requires h.Honest() && Sendable(log) && env.tls == h.ServerEnd() && Speaks(env.site)
    requires var c := Run(env, Accepted(true), events); c.wireIn <= ClientStream(h, log) && Fits(c.replies)
    ensures var c := Run(env, Accepted(true), events);
      var seen := Decrypts(h, c.sent);
      && seen.error.None?
      && seen.core.recvSeq <= |c.replies|
      && seen.core.plaintext == Flatten(c.replies[..seen.core.recvSeq])
      && (c.output == [] ==> seen.core.recvSeq == |c.replies|)
  {
    var c := Run(env, Accepted(true), events);
    AcceptedInv(env, true);
    RunKeeps(env, Accepted(true), events);
    PlaintextArrives(env, h, log, events);
    if c.queued == [] && c.replies == [] {
      assert c.sent == [] by { assert |c.sent + c.output| == |c.sent| + |c.output|; }
    } else {
      StreamDecrypts(env, h, c);
    }
  }

  /** The client's side of one server stream, of which `output` is still to come. */
  lemma StreamDecrypts(env: Setting, h: Setup, c: Conn)
    requires h.Honest() && env.tls == h.ServerEnd() && Fits(c.replies) && |c.replies| <= LIMIT_64
    requires c.tls.Some? && ServerInSession(h, c.tls.value.core) && c.tls.value.core.signings != []
    requires c.tls.value.core.serverWriteKey.Some?
    requires c.sent + c.output == ServerStream(env, c.tls.value.core, c.replies)
    ensures var seen := Decrypts(h, c.sent);
      && seen.error.None?
      && seen.core.recvSeq <= |c.replies|
      && seen.core.plaintext == Flatten(c.replies[..seen.core.recvSeq])
      && (c.output == [] ==> seen.core.recvSeq == |c.replies|)
  {
    var log := Numbered(env, c.replies);
    var client := FreshClient(h.ClientEnd());
    TextsOfNumbered(env, c.replies);
    FrameAllAppend(h.Flight(), Records(h.suite, h.Keys().serverWrite, log));
    assert FrameAll(AwaitedByClient(h, client, log)) == c.sent + c.output;
    ClientDrains(h, client, c.sent, c.output, log);
    DrainQuiet(ClientHandler(h.ClientEnd()), client, c.sent);
    var seen := Decrypts(h, c.sent);
    assert seen.core.plaintext == Flatten(Texts(log)[0..seen.core.recvSeq]);
    assert Texts(log)[0..seen.core.recvSeq] == c.replies[..seen.core.recvSeq];
    if c.output == [] {
      AwaitedByClientAcceptable(h, seen.core, log);
      PopOfFrames(seen.buffer, [], AwaitedByClient(h, seen.core, log));
    }
  }

  // ---- exactly the responses that fit get through ----

  /** How many responses come before the first that does not fit into a record. */
  function Fitting(replies: seq<Bytes>): (n: nat)
    ensures n <= |replies| && Fits(replies[..n]) && (n < |replies| ==> |replies[n]| > MAX_PLAINTEXT)
  {
    if replies == [] || |replies[0]| > MAX_PLAINTEXT then 0
    else
      var n := 1 + Fitting(replies[1..]);
      assert replies[..n][0] == replies[0] && forall i :: 0 < i < n ==> replies[..n][i] == replies[1..][..n - 1][i - 1];
      n
  }

  lemma RecordsCut(env: Setting, key: Bytes, replies: seq<Bytes>, k: nat)
    requires k < |replies|
    ensures var log := Numbered(env, replies);
      Records(env.tls.suite, key, log)
        == Records(env.tls.suite, key, Numbered(env, replies[..k]))
         + ([Record(env.tls.suite, key, k, env.nonce(k), replies[k])] + Records(env.tls.suite, key, log)[k + 1..])
  {
  }

  lemma {:induction false} StreamCut(flight: seq<Bytes>, front: seq<Bytes>, record: Bytes, later: seq<Bytes>)
    ensures FrameAll(flight) + FrameAll(front + ([record] + later))
      == FrameAll(flight + front) + (Frame(record) + FrameAll(later))
  {
    FrameAllAppend(front, [record] + later);
    FrameAllCons(record, later);
    FrameAllAppend(flight, front);
    ConcatAssoc(FrameAll(flight), FrameAll(front), Frame(record) + FrameAll(later));
  }

  /** What a client that has read a whole number of acceptable frames still awaits: nothing. */
  lemma AllAwaitedTaken(h: Setup, fed: Fed<ClientCore>, log: seq<Sent>)
    requires h.Honest() && Sendable(log) && ClientTook(h, FreshClient(h.ClientEnd()), fed.core, log)
    requires fed.buffer == FrameAll(AwaitedByClient(h, fed.core, log)) && PopFrom(fed.buffer).NeedMore?
    ensures fed.buffer == [] && fed.core.recvSeq == |log|
  {
    EmptyAfter(fed.buffer);
    AwaitedByClientAcceptable(h, fed.core, log);
    PopOfFrames(fed.buffer, [], AwaitedByClient(h, fed.core, log));
  }

  lemma FrontDrains(h: Setup, log: seq<Sent>)
    requires h.Honest() && Sendable(log)
    ensures var fed := Decrypts(h, FrameAll(h.Flight() + Records(h.suite, h.Keys().serverWrite, log)));
      && fed.error.None? && ClientTook(h, FreshClient(h.ClientEnd()), fed.core, log)
      && fed.buffer == FrameAll(AwaitedByClient(h, fed.core, log)) && PopFrom(fed.buffer).NeedMore?
  {
    var client := FreshClient(h.ClientEnd());
    var wire := FrameAll(h.Flight() + Records(h.suite, h.Keys().serverWrite, log));
    EmptyAfter(wire);
    ClientDrains(h, client, wire, [], log);
    DrainQuiet(ClientHandler(h.ClientEnd()), client, wire);
    EmptyAfter(Decrypts(h, wire).buffer);
  }

  /** The flight and records that fit are read to their end. */
  lemma {:induction false} FrontDecrypts(env: Setting, h: Setup, front: seq<Bytes>)
    requires h.Honest() && env.tls == h.ServerEnd() && Fits(front) && |front| <= LIMIT_64
    ensures var records := Records(h.suite, h.Keys().serverWrite, Numbered(env, front));
      var fed := Decrypts(h, FrameAll(h.Flight() + records));
      fed.error.None? && fed.buffer == [] && fed.core.plaintext == Flatten(front)
  {
    var log := Numbered(env, front);
    TextsOfNumbered(env, front);
    FrontDrains(h, log);
    var fed := Decrypts(h, FrameAll(h.Flight() + Records(h.suite, h.Keys().serverWrite, log)));
    AllAwaitedTaken(h, fed, log);
    assert Texts(log)[0..|log|] == front && [] + Flatten(front) == Flatten(front);
  }

  /** At the first record that does not fit, the client stops, with what it has. */
  lemma {:induction false} OversizeStops(env: Setting, h: Setup, front: seq<Bytes>, record: Bytes, tail: Bytes)
    requires h.Honest() && env.tls == h.ServerEnd() && Fits(front) && |front| <= LIMIT_64
    requires MAX_RECORD_SIZE < |record| < LIMIT_32
    ensures var records := Records(h.suite, h.Keys().serverWrite, Numbered(env, front));
      var fed := Decrypts(h, FrameAll(h.Flight() + records) + (Frame(record) + tail));
      fed.error == Some(ValueError) && fed.core.plaintext == Flatten(front)
  {
    var wire := FrameAll(h.Flight() + Records(h.suite, h.Keys().serverWrite, Numbered(env, front)));
    var more := Frame(record) + tail;
    FrontDecrypts(env, h, front);
    OversizeDrain(ClientHandler(h.ClientEnd()), Decrypts(h, wire).core, record, tail);
    DrainAppend(ClientHandler(h.ClientEnd()), FreshClient(h.ClientEnd()), wire, more);
    EmptyBefore(more);
  }

  lemma {:induction false} OversizeDrain<S>(handle: Handler<S>, core: S, record: Bytes, tail: Bytes)
    requires MAX_RECORD_SIZE < |record| < LIMIT_32
    ensures Drain(handle, core, Frame(record) + tail) == Fed(core, Frame(record) + tail, Some(ValueError))
  {
    PopOfOversize(record, tail);
  }

  lemma EmptyBefore(x: Bytes)
    ensures [] + x == x
  {
  }

  lemma {:induction false} TooBigStops(env: Setting, h: Setup, core: ServerCore, replies: seq<Bytes>)
    requires h.Honest() && env.tls == h.ServerEnd() && |replies| <= LIMIT_64 && Fitting(replies) < |replies|
    requires |replies[Fitting(replies)]| + OVERHEAD < LIMIT_32
    requires ServerInSession(h, core) && core.serverWriteKey == Some(h.Keys().serverWrite) && core.signings != []
    ensures var fed := Decrypts(h, ServerStream(env, core, replies));
      fed.error == Some(ValueError) && fed.core.plaintext == Flatten(replies[..Fitting(replies)])
  {
    var k := Fitting(replies);
    var key := h.Keys().serverWrite;
    var record := Record(h.suite, key, k, env.nonce(k), replies[k]);
    var records := Records(h.suite, key, Numbered(env, replies));
    var front := Records(h.suite, key, Numbered(env, replies[..k]));
    UnprotectProtected(h.suite, key, k, env.nonce(k), replies[k], k);
    RecordsCut(env, key, replies, k);
    StreamCut(h.Flight(), front, record, records[k + 1..]);
    OversizeStops(env, h, replies[..k], record, FrameAll(records[k + 1..]));
  }

  /** A response is queued on a TLS connection only if its record can be framed. */
  predicate Framed(c: Conn) {
    c.tls.Some? ==> Framable(c.replies)
  }

  lemma SendFramed(env: Setting, c: Conn, text: Bytes)
    requires SealOpens(env.tls.suite) && Framed(c)
    ensures Framed(SendApplication(env, c, text))
  {
    if c.tls.Some? {
      var s := c.tls.value.core;
      var nonce := env.nonce(s.sendSeq);
      if ServerProtect(env.tls, s, text, nonce).1.Ok? {
        UnprotectProtected(env.tls.suite, s.serverWriteKey.value, s.sendSeq, nonce, text, s.sendSeq);
      }
    }
  }

  lemma AnswerFramed(env: Setting, c: Conn, message: HTTPMessage, consumed: int)
    requires SealOpens(env.tls.suite) && Framed(c)
    ensures Framed(AnswerRequest(env, c, message, consumed))
  {
    SendFramed(env, c.(httpInput := DropPy(c.httpInput, consumed)), env.site.respond(message).bytes);
  }

  lemma {:induction false} HandleFramed(env: Setting, c: Conn)
    requires SealOpens(env.tls.suite) && Framed(c)
    ensures Framed(HandleHttp(env, c))
    decreases |c.httpInput|
  {
    if c.link.Open? && Parse(c.httpInput).Invalid? {
      SendFramed(env, c, env.site.reject(Parse(c.httpInput).reason));
    }
    if c.link.Open? && Parse(c.httpInput).Parsed? {
      var d := AnswerRequest(env, c, Parse(c.httpInput).message, Parse(c.httpInput).consumed);
      AnswerFramed(env, c, Parse(c.httpInput).message, Parse(c.httpInput).consumed);
      if |d.httpInput| < |c.httpInput| {
        HandleFramed(env, d);
      }
    }
  }

  lemma DecryptedFramed(env: Setting, c: Conn, fed: Fed<ServerCore>)
    requires SealOpens(env.tls.suite) && Framed(c) && c.tls.Some?
    ensures Framed(Decrypted(env, c, fed))
  {
    var e := Emptied(c, fed);
    HandleFramed(env, e.(httpInput := e.httpInput + fed.core.plaintext, appended := e.appended + fed.core.plaintext));
  }

  lemma ReadFramed(env: Setting, c: Conn, r: Recv)
    requires SealOpens(env.tls.suite) && Framed(c)
    ensures Framed(Read(env, c, r))
  {
    if r.Data? && r.bytes != [] {
      var took := c.(wireIn := c.wireIn + r.bytes);
      if c.tls.None? {
        HandleFramed(env, took.(httpInput := took.httpInput + r.bytes, appended := took.appended + r.bytes));
      } else {
        DecryptedFramed(env, took, Feed(ServerHandler(env.tls), c.tls.value.core, c.tls.value.buffer, r.bytes));
      }
    }
  }

  lemma {:induction false} RunFramed(env: Setting, c: Conn, events: seq<Event>)
    requires SealOpens(env.tls.suite) && Framed(c)
    ensures Framed(Run(env, c, events))
    decreases |events|
  {
    if events != [] {
      if Reported(c, events[0]) && events[0].read.Some? {
        ReadFramed(env, c, events[0].read.value);
      }
      RunFramed(env, Service(env, c, events[0]), events[1..]);
    }
  }

  /** Once flushed, the honest client decrypts without an exception if and only if all
      responses queued fit into a record; otherwise it holds exactly those before the
      first that does not. */
  lemma {:induction false} DecryptsIffFits(env: Setting, h: Setup, log: seq<Sent>, events: seq<Event>)
    requires h.Honest() && Sendable(log) && env.tls == h.ServerEnd() && Speaks(env.site)
    requires var c := Run(env, Accepted(true), events); c.wireIn <= ClientStream(h, log) && c.output == []
    ensures var c := Run(env, Accepted(true), events);
      var seen := Decrypts(h, c.sent);
      && (seen.error.None? <==> Fits(c.replies))
      && seen.core.plaintext == Flatten(c.replies[..Fitting(c.replies)])
  {
    var c := Run(env, Accepted(true), events);
    AcceptedInv(env, true);
    RunKeeps(env, Accepted(true), events);
    PlaintextArrives(env, h, log, events);
    RunFramed(env, Accepted(true), events);
    EmptyAfter(c.sent);
    var k := Fitting(c.replies);
    if k == |c.replies| {
      assert c.replies[..k] == c.replies;
      ResponsesDecrypt(env, h, log, events);
    } else {
      TooBigStops(env, h, c.tls.value.core, c.replies);
    }
  }

  // ---- both paths against the pipeline ----

  /** One of the two is a prefix of the other. */
  predicate Comparable<T(==)>(a: seq<T>, b: seq<T>) {
    a <= b || b <= a
  }

  lemma {:induction false} FlattenComparable(a: seq<Bytes>, b: seq<Bytes>)
    requires Comparable(a, b)
    ensures Comparable(Flatten(a), Flatten(b))
  {
    if a <= b { FlattenPrefix(a, b); } else { FlattenPrefix(b, a); }
  }

  /** The responses of a connection that has been given part of a request stream
      agree with the pipeline on the whole stream, up to its first closing response. */
  lemma {:induction false} RepliesAgree(env: Setting, c: Conn, stream: Bytes)
    requires Answering(env, c) && c.appended <= stream && Regular(env.site, stream)
    ensures var whole := Serve(env.site, stream);
      && Comparable(c.replies, whole.replies)
      && (c.appended == stream && whole.ending == Waiting ==> c.replies == whole.replies)
      && (c.appended == stream || Serve(env.site, c.appended).ending == Closing ==> whole.replies <= c.replies)
  {
    var more := stream[|c.appended|..];
    assert stream == c.appended + more;
    RegularPrefix(env.site, c.appended, more);
    ServeAppend(env.site, c.appended, more);
    ServeConserves(env.site, c.appended);
  }

  // ---- the last state in which the event loop was running ----

  /** Nothing is sent, and no response is taken back. */
  predicate Touched(c: Conn, d: Conn) {
    d.sent == c.sent && d.wireIn == c.wireIn && c.replies <= d.replies
  }

  lemma SendTouches(env: Setting, c: Conn, text: Bytes)
    ensures Touched(c, SendApplication(env, c, text))
  {
  }

  lemma AnswerTouches(env: Setting, c: Conn, message: HTTPMessage, consumed: int)
    ensures Touched(c, AnswerRequest(env, c, message, consumed))
  {
    SendTouches(env, c.(httpInput := DropPy(c.httpInput, consumed)), env.site.respond(message).bytes);
  }

  lemma {:induction false} HandleTouches(env: Setting, c: Conn)
    ensures Touched(c, HandleHttp(env, c))
    decreases |c.httpInput|
  {
    if c.link.Open? && Parse(c.httpInput).Invalid? {
      SendTouches(env, c, env.site.reject(Parse(c.httpInput).reason));
    }
    if c.link.Open? && Parse(c.httpInput).Parsed? {
      var d := AnswerRequest(env, c, Parse(c.httpInput).message, Parse(c.httpInput).consumed);
      AnswerTouches(env, c, Parse(c.httpInput).message, Parse(c.httpInput).consumed);
      if |d.httpInput| < |c.httpInput| {
        HandleTouches(env, d);
      }
    }
  }

  lemma ReadTouches(env: Setting, c: Conn, r: Recv)
    ensures Touched(c.(wireIn := Read(env, c, r).wireIn), Read(env, c, r)) && c.wireIn <= Read(env, c, r).wireIn
  {
    if r.Data? && r.bytes != [] {
      var took := c.(wireIn := c.wireIn + r.bytes);
      if c.tls.None? {
        HandleTouches(env, took.(httpInput := took.httpInput + r.bytes, appended := took.appended + r.bytes));
      } else {
        DecryptedTouches(env, took, Feed(ServerHandler(env.tls), c.tls.value.core, c.tls.value.buffer, r.bytes));
      }
    }
  }

  lemma DecryptedTouches(env: Setting, c: Conn, fed: Fed<ServerCore>)
    requires c.tls.Some?
    ensures Touched(c, Decrypted(env, c, fed))
  {
    var e := Emptied(c, fed);
    HandleTouches(env, e.(httpInput := e.httpInput + fed.core.plaintext, appended := e.appended + fed.core.plaintext));
  }

  lemma ServiceTouches(env: Setting, c: Conn, e: Event)
    requires c.loop == Running
    ensures var d := Service(env, c, e);
      c.wireIn <= d.wireIn && c.replies <= d.replies && (d.loop != Running ==> d.sent == c.sent)
  {
    if Reported(c, e) && e.read.Some? {
      ReadTouches(env, c, e.read.value);
    }
  }

  /** Whatever has been sent at all was sent while the event loop was running. */
  lemma {:induction false} LastRunning(env: Setting, c: Conn, events: seq<Event>) returns (k: nat)
    requires c.loop == Running
    ensures k <= |events|
    ensures var m, d := Run(env, c, events[..k]), Run(env, c, events);
      && m.loop == Running && m.sent == d.sent && m.wireIn <= d.wireIn && m.replies <= d.replies
      && (d.loop == Running ==> m == d)
    decreases |events|
  {
    k := 0;
    if events != [] {
      var d := Service(env, c, events[0]);
      ServiceTouches(env, c, events[0]);
      if d.loop == Running {
        var j := LastRunning(env, d, events[1..]);
        k := j + 1;
        assert events[..k][1..] == events[1..][..j];
        assert Run(env, c, events[..k]) == Run(env, d, events[1..][..j]);
      } else {
        StoppedStays(env, d, events[1..]);
        assert events[..0] == [];
      }
    }
  }

  // ---- transparency ----

  /** What the peers hold, while the event loop is running: of the TLS side, some of the
      responses made, and all of them once nothing waits; of the plain side, the responses
      made but for what waits; and on both, at least the responses of one pass over the
      plaintext read. */
  ghost predicate PeersHold(env: Setting, h: Setup, t: Conn, p: Conn)
    requires h.Honest()
  {
    var seen := Decrypts(h, t.sent);
    && (t.loop == Running ==>
          && Serve(env.site, t.appended).replies <= t.replies
          && seen.core.recvSeq <= |t.replies|
          && seen.core.plaintext == Flatten(t.replies[..seen.core.recvSeq])
          && Decrypts(h, t.sent + t.output).core.plaintext == Flatten(t.replies))
    && (p.loop == Running ==>
          && Serve(env.site, p.wireIn).replies <= p.replies
          && p.sent + p.output == Flatten(p.replies))
  }

  /** Transparency, at every moment of any two runs, however they went: on one side a TLS
      connection that has read any part of an honest client's stream in any pieces, with
      any pattern of partial sends; on the other a plain connection that has read any part
      of the same plaintext. What the client has decrypted and what the plain peer has
      received both agree with the pipeline's responses to the plaintext, up to and
      including the first closing response. */
  lemma {:induction false} TlsTransparency(env: Setting, h: Setup, log: seq<Sent>, tlsEvents: seq<Event>,
                                           plainEvents: seq<Event>)
    requires h.Honest() && Sendable(log) && env.tls == h.ServerEnd() && Speaks(env.site)
    requires Regular(env.site, RequestStream(log))
    requires var t := Run(env, Accepted(true), tlsEvents);
      t.wireIn <= ClientStream(h, log) && Fits(t.replies)
    requires Run(env, Accepted(false), plainEvents).wireIn <= RequestStream(log)
    ensures var t := Run(env, Accepted(true), tlsEvents);
      var p := Run(env, Accepted(false), plainEvents);
      var responses := Flatten(Serve(env.site, RequestStream(log)).replies);
      var seen := Decrypts(h, t.sent);
      && t.link != Closed(TlsError) && seen.error.None?
      && Comparable(seen.core.plaintext, responses)
      && Comparable(p.sent, responses)
      && PeersHold(env, h, t, p)
  {
    PlainMoment(env, log, plainEvents);
    TlsMoment(env, h, log, tlsEvents);
    PlaintextArrives(env, h, log, tlsEvents);
  }

  lemma {:induction false} TlsMoment(env: Setting, h: Setup, log: seq<Sent>, events: seq<Event>)
    requires h.Honest() && Sendable(log) && env.tls == h.ServerEnd() && Speaks(env.site)
    requires Regular(env.site, RequestStream(log))
    requires var t := Run(env, Accepted(true), events);
      t.wireIn <= ClientStream(h, log) && Fits(t.replies)
    ensures var t := Run(env, Accepted(true), events);
      var seen := Decrypts(h, t.sent);
      && seen.error.None?
      && Comparable(seen.core.plaintext, Flatten(Serve(env.site, RequestStream(log)).replies))
      && (t.loop == Running ==>
            && Serve(env.site, t.appended).replies <= t.replies
            && seen.core.recvSeq <= |t.replies|
            && seen.core.plaintext == Flatten(t.replies[..seen.core.recvSeq])
            && Decrypts(h, t.sent + t.output).core.plaintext == Flatten(t.replies))
  {
    var k := LastRunning(env, Accepted(true), events);
    if Run(env, Accepted(true), events).loop != Running {
      RunningMoment(env, h, log, events[..k]);
    } else {
      RunningMoment(env, h, log, events);
    }
  }

  lemma {:induction false} RunningMoment(env: Setting, h: Setup, log: seq<Sent>, events: seq<Event>)
    requires h.Honest() && Sendable(log) && env.tls == h.ServerEnd() && Speaks(env.site)
    requires Regular(env.site, RequestStream(log))
    requires var t := Run(env, Accepted(true), events);
      t.wireIn <= ClientStream(h, log) && t.loop == Running && Fits(t.replies)
    ensures var t := Run(env, Accepted(true), events);
      var seen := Decrypts(h, t.sent);
      && seen.error.None?
      && Comparable(seen.core.plaintext, Flatten(Serve(env.site, RequestStream(log)).replies))
      && Serve(env.site, t.appended).replies <= t.replies
      && seen.core.recvSeq <= |t.replies|
      && seen.core.plaintext == Flatten(t.replies[..seen.core.recvSeq])
      && Decrypts(h, t.sent + t.output).core.plaintext == Flatten(t.replies)
  {
    var t := Run(env, Accepted(true), events);
    TlsSide(env, h, log, events);
    RepliesAgree(env, t, RequestStream(log));
    FlattenComparable(t.replies[..Decrypts(h, t.sent).core.recvSeq], Serve(env.site, RequestStream(log)).replies);
    AnsweredPart(env, t, RequestStream(log));
    QueuedDecrypts(env, h, log, events);
  }

  /** At least one pass over what has been read is answered. */
  lemma {:induction false} AnsweredPart(env: Setting, c: Conn, stream: Bytes)
    requires Answering(env, c) && c.appended <= stream && Regular(env.site, stream)
    ensures Serve(env.site, c.appended).replies <= c.replies
  {
    assert stream == c.appended + stream[|c.appended|..];
    RegularPrefix(env.site, c.appended, stream[|c.appended|..]);
  }

  lemma {:induction false} PlainMoment(env: Setting, log: seq<Sent>, events: seq<Event>)
    requires Speaks(env.site) && Regular(env.site, RequestStream(log))
    requires Run(env, Accepted(false), events).wireIn <= RequestStream(log)
    ensures var p := Run(env, Accepted(false), events);
      && Comparable(p.sent, Flatten(Serve(env.site, RequestStream(log)).replies))
      && (p.loop == Running ==>
            Serve(env.site, p.wireIn).replies <= p.replies && p.sent + p.output == Flatten(p.replies))
  {
    var k := LastRunning(env, Accepted(false), events);
    var m := Run(env, Accepted(false), events[..k]);
    PlainSide(env, events[..k]);
    RepliesAgree(env, m, RequestStream(log));
    FlattenComparable(m.replies, Serve(env.site, RequestStream(log)).replies);
    AnsweredPart(env, m, RequestStream(log));
  }

  /** Everything has been heard: the whole stream is in, or what is in has been answered
      with a response that closes. */
  predicate Heard(site: Site, wire: Bytes, stream: Bytes, appended: Bytes) {
    wire == stream || Serve(site, appended).ending == Closing
  }

  /** And when everything has been heard and flushed, wherever the last read ended: both
      peers hold all responses up to and including the first closing one; and if none
      closes, exactly those, so the same bytes. */
  lemma {:induction false} TlsTransparencyComplete(env: Setting, h: Setup, log: seq<Sent>, tlsEvents: seq<Event>,
                                                   plainEvents: seq<Event>)
    requires h.Honest() && Sendable(log) && env.tls == h.ServerEnd() && Speaks(env.site)
    requires Regular(env.site, RequestStream(log))
    requires var t := Run(env, Accepted(true), tlsEvents);
      && t.wireIn <= ClientStream(h, log) && t.output == [] && t.loop == Running && Fits(t.replies)
      && Heard(env.site, t.wireIn, ClientStream(h, log), t.appended)
    requires var p := Run(env, Accepted(false), plainEvents);
      && p.wireIn <= RequestStream(log) && p.output == [] && p.loop == Running
      && Heard(env.site, p.wireIn, RequestStream(log), p.wireIn)
    ensures var t := Run(env, Accepted(true), tlsEvents);
      var p := Run(env, Accepted(false), plainEvents);
      var whole := Serve(env.site, RequestStream(log));
      var seen := Decrypts(h, t.sent).core.plaintext;
      && Flatten(whole.replies) <= seen && Flatten(whole.replies) <= p.sent
      && (whole.ending == Waiting ==> seen == p.sent == Flatten(whole.replies))
  {
    TlsHeard(env, h, log, tlsEvents);
    PlainHeard(env, RequestStream(log), plainEvents);
  }

  lemma {:induction false} TlsHeard(env: Setting, h: Setup, log: seq<Sent>, events: seq<Event>)
    requires h.Honest() && Sendable(log) && env.tls == h.ServerEnd() && Speaks(env.site)
    requires Regular(env.site, RequestStream(log))
    requires var t := Run(env, Accepted(true), events);
      && t.wireIn <= ClientStream(h, log) && t.output == [] && t.loop == Running && Fits(t.replies)
      && Heard(env.site, t.wireIn, ClientStream(h, log), t.appended)
    ensures var t := Run(env, Accepted(true), events);
      var whole := Serve(env.site, RequestStream(log));
      var seen := Decrypts(h, t.sent).core.plaintext;
      && seen == Flatten(t.replies) && Flatten(whole.replies) <= seen
      && (whole.ending == Waiting ==> seen == Flatten(whole.replies))
  {
    var t := Run(env, Accepted(true), events);
    TlsSide(env, h, log, events);
    HeardAll(env, t, RequestStream(log));
    assert t.replies[..|t.replies|] == t.replies;
  }

  lemma {:induction false} PlainHeard(env: Setting, stream: Bytes, events: seq<Event>)
    requires Speaks(env.site) && Regular(env.site, stream)
    requires var p := Run(env, Accepted(false), events);
      p.wireIn <= stream && p.output == [] && p.loop == Running && Heard(env.site, p.wireIn, stream, p.wireIn)
    ensures var p := Run(env, Accepted(false), events);
      var whole := Serve(env.site, stream);
      && p.sent == Flatten(p.replies) && Flatten(whole.replies) <= p.sent
      && (whole.ending == Waiting ==> p.sent == Flatten(whole.replies))
  {
    var p := Run(env, Accepted(false), events);
    PlainSide(env, events);
    HeardAll(env, p, stream);
    EmptyAfter(p.sent);
  }

  lemma {:induction false} HeardAll(env: Setting, c: Conn, stream: Bytes)
    requires Answering(env, c) && c.appended <= stream && Regular(env.site, stream)
    requires c.appended == stream || Serve(env.site, c.appended).ending == Closing
    ensures var whole := Serve(env.site, stream);
      && whole.replies <= c.replies && Flatten(whole.replies) <= Flatten(c.replies)
      && (whole.ending == Waiting ==> c.replies == whole.replies)
  {
    var more := stream[|c.appended|..];
    assert stream == c.appended + more;
    RepliesAgree(env, c, stream);
    RegularPrefix(env.site, c.appended, more);
    ServeAppend(env.site, c.appended, more);
    FlattenPrefix(Serve(env.site, stream).replies, c.replies);
  }

  /** All that has been queued decrypts to all responses made. */
  lemma {:induction false} QueuedDecrypts(env: Setting, h: Setup, log: seq<Sent>, events: seq<Event>)
    requires h.Honest() && Sendable(log) && env.tls == h.ServerEnd() && Speaks(env.site)
    requires var c := Run(env, Accepted(true), events); c.wireIn <= ClientStream(h, log) && Fits(c.replies)
    ensures var c := Run(env, Accepted(true), events);
      Decrypts(h, c.sent + c.output).core.plaintext == Flatten(c.replies)
  {
    var c := Run(env, Accepted(true), events);
    AcceptedInv(env, true);
    RunKeeps(env, Accepted(true), events);
    PlaintextArrives(env, h, log, events);
    if c.queued != [] || c.replies != [] {
      var all := c.(sent := c.sent + c.output, output := []);
      EmptyAfter(c.sent + c.output);
      StreamDecrypts(env, h, all);
      assert c.replies[..|c.replies|] == c.replies;
    }
  }

  lemma {:induction false} TlsSide(env: Setting, h: Setup, log: seq<Sent>, events: seq<Event>)
    requires h.Honest() && Sendable(log) && env.tls == h.ServerEnd() && Speaks(env.site)
    requires var t := Run(env, Accepted(true), events);
      t.wireIn <= ClientStream(h, log) && t.loop == Running && Fits(t.replies)
    ensures var t := Run(env, Accepted(true), events);
      var seen := Decrypts(h, t.sent);
      && t.link != Closed(TlsError) && Answering(env, t) && t.appended <= RequestStream(log)
      && (t.wireIn == ClientStream(h, log) ==> t.appended == RequestStream(log))
      && seen.error.None? && seen.core.recvSeq <= |t.replies|
      && seen.core.plaintext == Flatten(t.replies[..seen.core.recvSeq])
      && (t.output == [] ==> seen.core.recvSeq == |t.replies|)
  {
    AcceptedInv(env, true);
    RunKeeps(env, Accepted(true), events);
    PlaintextArrives(env, h, log, events);
    ResponsesDecrypt(env, h, log, events);
  }

  lemma {:induction false} PlainSide(env: Setting, events: seq<Event>)
    requires Speaks(env.site)
    requires Run(env, Accepted(false), events).loop == Running
    ensures var p := Run(env, Accepted(false), events);
      && Answering(env, p) && p.appended == p.wireIn
      && p.sent + p.output == Flatten(p.replies)
  {
    AcceptedInv(env, false);
    RunKeeps(env, Accepted(false), events);
    NeverTlsError(env, Accepted(false), events);
  }

  /** A plain connection never closes for a TLS error. */
  lemma {:induction false} NeverTlsError(env: Setting, c: Conn, events: seq<Event>)
    requires Speaks(env.site) && Inv(env, c) && c.tls.None? && c.link != Closed(TlsError)
    ensures Run(env, c, events).link != Closed(TlsError)
    decreases |events|
  {
    if events != [] {
      var e := events[0];
      ServiceKeeps(env, c, e);
      if Reported(c, e) && e.read.Some? && e.read.value.Data? && e.read.value.bytes != [] {
        AppendKeeps(env, c.(wireIn := c.wireIn + e.read.value.bytes), e.read.value.bytes);
      }
      NeverTlsError(env, Service(env, c, e), events[1..]);
    }
  }
}
