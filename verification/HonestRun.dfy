/** A client and a server joined by two byte channels that deliver in order but
    cut the stream anywhere: no step of any run raises, and nothing is lost. */
module HonestRun {
  import opened Wire
  import opened Framing
  import opened RecordProtection
  import opened Connection
  import opened Session

  /** Both endpoints, the bytes in flight, and the history of what the two
      applications protected and read. `raised` records any exception at all. */
  datatype System = System(
    client: ClientCore, clientBuffer: Bytes,
    server: ServerCore, serverBuffer: Bytes,
    toServer: Bytes, toClient: Bytes,
    clientLog: seq<Sent>, serverLog: seq<Sent>,
    clientRead: Bytes, serverRead: Bytes,
    raised: bool)

  datatype Action =
    | FlushClient                 // the client's caller sends pop_pending_wire_data()
    | FlushServer
    | DeliverToServer(n: nat)     // the server's caller receives n bytes and feeds them
    | DeliverToClient(n: nat)
    | ClientSends(message: Sent)  // the client's caller sends protect_application_data(...)
    | ServerSends(message: Sent)
    | ClientReads                 // read_plaintext()
    | ServerReads

  function Start(h: Setup): System {
    System(FreshClient(h.ClientEnd()), [], FRESH_SERVER, [], [], [], [], [], [], [], false)
  }

  /** An application sends within the size bound, before the counter runs out, once
      its end is established; the server's caller has by then sent what was pending,
      as _read_from_connection does before any response; module EarlyRecords drops that. */
  predicate Enabled(s: System, a: Action) {
    match a
    case DeliverToServer(n) => n <= |s.toServer|
    case DeliverToClient(n) => n <= |s.toClient|
    case ClientSends(m) => s.client.phase == ClientEstablished && |m.plaintext| <= MAX_PLAINTEXT
        && s.client.sendSeq < LIMIT_64
    case ServerSends(m) => MaySend(s, m) && s.server.pendingWire == []
    case _ => true
  }

  predicate MaySend(s: System, m: Sent) {
    s.server.phase == ServerEstablished && |m.plaintext| <= MAX_PLAINTEXT && s.server.sendSeq < LIMIT_64
  }

  /** The server's caller protects a text and sends the bytes at once. */
  function ServerSent(h: Setup, s: System, m: Sent): System {
    var (core, wire) := ServerProtect(h.ServerEnd(), s.server, m.plaintext, m.nonce);
    if wire.Err? then s.(server := core, raised := true)
    else s.(server := core, toClient := s.toClient + wire.value, serverLog := s.serverLog + [m])
  }

  function Next(h: Setup, s: System, a: Action): System {
    if !Enabled(s, a) then s else
    match a
    case FlushClient =>
      s.(toServer := s.toServer + s.client.pendingWire, client := s.client.(pendingWire := []))
    case FlushServer =>
      s.(toClient := s.toClient + s.server.pendingWire, server := s.server.(pendingWire := []))
    case DeliverToServer(n) =>
      var fed := Feed(ServerHandler(h.ServerEnd()), s.server, s.serverBuffer, s.toServer[..n]);
      s.(server := fed.core, serverBuffer := fed.buffer, toServer := s.toServer[n..],
         raised := s.raised || fed.error.Some?)
    case DeliverToClient(n) =>
      var fed := Feed(ClientHandler(h.ClientEnd()), s.client, s.clientBuffer, s.toClient[..n]);
      s.(client := fed.core, clientBuffer := fed.buffer, toClient := s.toClient[n..],
         raised := s.raised || fed.error.Some?)
    case ClientSends(m) =>
      var (core, wire) := ClientProtect(h.ClientEnd(), s.client, m.plaintext, m.nonce);
      if wire.Err? then s.(client := core, raised := true)
      else s.(client := core, toServer := s.toServer + wire.value, clientLog := s.clientLog + [m])
    case ServerSends(m) => ServerSent(h, s, m)
    case ClientReads =>
      s.(clientRead := s.clientRead + s.client.plaintext, client := s.client.(plaintext := []))
    case ServerReads =>
      s.(serverRead := s.serverRead + s.server.plaintext, server := s.server.(plaintext := []))
  }

  function Run(h: Setup, s: System, actions: seq<Action>): System
    decreases |actions|
  {
    if actions == [] then s else Run(h, Next(h, s, actions[0]), actions[1..])
  }

  // ---- the invariant ----

  /** The plaintext the server's application has been or can be given. */
  function ServerDelivered(s: System): Bytes {
    s.serverRead + s.server.plaintext
  }

  function ClientDelivered(s: System): Bytes {
    s.clientRead + s.client.plaintext
  }

  /** One direction of the session: buffered, in-flight and pending bytes are exactly
      the awaited payloads in frames, the receive buffer holds no complete frame, and
      what the application was given is exactly the first `taken` texts. */
  ghost predicate Flowing(buffer: Bytes, channel: Bytes, pending: Bytes, awaited: seq<Bytes>,
                          read: Bytes, plaintext: Bytes, texts: seq<Bytes>, taken: nat) {
    && taken <= |texts|
    && buffer + (channel + pending) == FrameAll(awaited)
    && PopFrom(buffer).NeedMore?
    && read + plaintext == Flatten(texts[..taken])
  }

  ghost predicate TowardsServer(h: Setup, s: System)
    requires h.Honest()
  {
    && s.server.recvSeq <= |s.clientLog|
    && Flowing(s.serverBuffer, s.toServer, s.client.pendingWire, AwaitedByServer(h, s.server, s.clientLog),
               s.serverRead, s.server.plaintext, Texts(s.clientLog), s.server.recvSeq)
  }

  /** Nothing travels to the client before the server has answered its hello. */
  ghost function Downstream(h: Setup, s: System): seq<Bytes>
    requires h.Honest() && s.client.recvSeq <= |s.serverLog|
  {
    if s.server.phase == WaitClientHello then [] else AwaitedByClient(h, s.client, s.serverLog)
  }

  ghost predicate TowardsClient(h: Setup, s: System)
    requires h.Honest()
  {
    && s.client.recvSeq <= |s.serverLog|
    && Flowing(s.clientBuffer, s.toClient, s.server.pendingWire, Downstream(h, s),
               s.clientRead, s.client.plaintext, Texts(s.serverLog), s.client.recvSeq)
  }

  /** How far the two ends can be apart. */
  ghost predicate InStep(h: Setup, s: System)
    requires h.Honest()
  {
    && !s.raised
    && ServerInSession(h, s.server) && ClientInSession(h, s.client)
    && Sendable(s.clientLog) && Sendable(s.serverLog)
    && s.client.sendSeq == |s.clientLog| && s.server.sendSeq == |s.serverLog|
    && (s.server.phase == WaitClientHello ==>
          s.client.phase == WaitServerHello && s.serverLog == [] && s.serverRead == [])
    && (s.server.phase == ServerEstablished ==> s.client.pendingWire == [])
    && (s.client.phase != ClientEstablished ==> s.clientLog == [] && s.clientRead == [])
    && (s.server.pendingWire != [] ==> s.serverLog == [])
  }

  ghost predicate Inv(h: Setup, s: System)
    requires h.Honest()
  {
    InStep(h, s) && TowardsServer(h, s) && TowardsClient(h, s)
  }

  lemma StartInv(h: Setup)
    requires h.Honest()
    ensures Inv(h, Start(h))
  {
    var s := Start(h);
    assert AwaitedByServer(h, s.server, []) == [h.ClientHello()];
    FrameAllSnoc([], h.ClientHello());
    assert [] + [h.ClientHello()] == [h.ClientHello()];
    assert Texts([])[..0] == [];
  }

  // ---- what each kind of step does to one direction ----

  lemma FlowFlushes(buffer: Bytes, channel: Bytes, pending: Bytes, awaited: seq<Bytes>,
                    read: Bytes, plaintext: Bytes, texts: seq<Bytes>, taken: nat)
    requires Flowing(buffer, channel, pending, awaited, read, plaintext, texts, taken)
    ensures Flowing(buffer, channel + pending, [], awaited, read, plaintext, texts, taken)
    ensures Flowing(buffer, channel, pending, awaited, read + plaintext, [], texts, taken)
  {
    assert (channel + pending) + [] == channel + pending;
    assert (read + plaintext) + [] == read + plaintext;
  }

  lemma FlowSends(buffer: Bytes, channel: Bytes, awaited: seq<Bytes>, record: Bytes,
                  read: Bytes, plaintext: Bytes, texts: seq<Bytes>, text: Bytes, taken: nat)
    requires Flowing(buffer, channel, [], awaited, read, plaintext, texts, taken)
    ensures Flowing(buffer, channel + Frame(record), [], awaited + [record], read, plaintext, texts + [text], taken)
  {
    FrameAllSnoc(awaited, record);
    assert channel + [] == channel && (channel + Frame(record)) + [] == channel + Frame(record);
    ConcatAssoc(buffer, channel, Frame(record));
    SliceSnoc(texts, text, taken);
  }

  lemma SliceSnoc(parts: seq<Bytes>, last: Bytes, i: nat)
    requires i <= |parts|
    ensures (parts + [last])[i..] == parts[i..] + [last]
    ensures (parts + [last])[..i] == parts[..i]
  {
  }

  lemma {:induction false} FlowDelivers(buffer: Bytes, channel: Bytes, pending: Bytes, awaited: seq<Bytes>,
                     read: Bytes, plaintext: Bytes, texts: seq<Bytes>, taken: nat, now: nat)
    requires taken <= now <= |texts|
    requires buffer + (channel + pending) == FrameAll(awaited) && PopFrom(buffer).NeedMore?
    requires read + plaintext == Flatten(texts[..taken])
    ensures Flowing(buffer, channel, pending, awaited, read, plaintext + Flatten(texts[taken..now]), texts, now)
  {
    assert texts[..taken] + texts[taken..now] == texts[..now];
    FlattenAppend(texts[..taken], texts[taken..now]);
    ConcatAssoc(read, plaintext, Flatten(texts[taken..now]));
  }

  /** Feeding a quiet buffer is draining it with the chunk at its end. */
  lemma {:induction false} FeedIsDrain<S>(handle: Handler<S>, core: S, buffer: Bytes, data: Bytes)
    requires PopFrom(buffer).NeedMore?
    ensures Feed(handle, core, buffer, data) == Drain(handle, core, buffer + data)
    ensures Feed(handle, core, buffer, data).error.None? ==> PopFrom(Feed(handle, core, buffer, data).buffer).NeedMore?
  {
    if data == [] {
      assert buffer + [] == buffer;
    }
    DrainQuiet(handle, core, buffer + data);
  }

  lemma SplitChannel(buffer: Bytes, channel: Bytes, pending: Bytes, n: nat)
    requires n <= |channel|
    ensures (buffer + channel[..n]) + (channel[n..] + pending) == buffer + (channel + pending)
  {
    assert channel[..n] + channel[n..] == channel;
  }

  // ---- every action keeps the invariant ----

  lemma FlushKeepsInv(h: Setup, s: System, a: Action)
    requires h.Honest() && Inv(h, s)
    requires a == FlushClient || a == FlushServer
    ensures Inv(h, Next(h, s, a))
  {
    var t := Next(h, s, a);
    FlowFlushes(s.serverBuffer, s.toServer, s.client.pendingWire, AwaitedByServer(h, s.server, s.clientLog),
                s.serverRead, s.server.plaintext, Texts(s.clientLog), s.server.recvSeq);
    FlowFlushes(s.clientBuffer, s.toClient, s.server.pendingWire, Downstream(h, s),
                s.clientRead, s.client.plaintext, Texts(s.serverLog), s.client.recvSeq);
  }

  lemma ReadKeepsInv(h: Setup, s: System, a: Action)
    requires h.Honest() && Inv(h, s)
    requires a == ClientReads || a == ServerReads
    ensures Inv(h, Next(h, s, a))
  {
    FlowFlushes(s.serverBuffer, s.toServer, s.client.pendingWire, AwaitedByServer(h, s.server, s.clientLog),
                s.serverRead, s.server.plaintext, Texts(s.clientLog), s.server.recvSeq);
    FlowFlushes(s.clientBuffer, s.toClient, s.server.pendingWire, Downstream(h, s),
                s.clientRead, s.client.plaintext, Texts(s.serverLog), s.client.recvSeq);
  }

  lemma NothingLeft(a: Bytes, b: Bytes, c: Bytes)
    requires a + (b + c) == []
    ensures a == [] && b == [] && c == []
  {
    assert |a + (b + c)| == |a| + |b| + |c|;
  }

  /** The flight enters an empty downstream. */
  lemma FlightEnters(h: Setup, s: System, t: System)
    requires h.Honest() && InStep(h, s) && TowardsClient(h, s) && s.server.phase == WaitClientHello
    requires t.server.phase == ServerEstablished
    requires t.server.pendingWire == s.server.pendingWire + FrameAll(h.Flight())
    requires t.client == s.client && t.clientBuffer == s.clientBuffer && t.toClient == s.toClient
    requires t.clientRead == s.clientRead && t.serverLog == s.serverLog
    ensures TowardsClient(h, t)
  {
    NothingLeft(s.clientBuffer, s.toClient, s.server.pendingWire);
    assert AwaitedByClient(h, t.client, []) == h.Flight();
    assert [] + ([] + ([] + FrameAll(h.Flight()))) == FrameAll(h.Flight());
  }

  lemma DeliverToServerKeepsInv(h: Setup, s: System, n: nat)
    requires h.Honest() && Inv(h, s) && n <= |s.toServer|
    ensures Inv(h, Next(h, s, DeliverToServer(n)))
  {
    var chunk := s.toServer[..n];
    var t := Next(h, s, DeliverToServer(n));
    FeedIsDrain(ServerHandler(h.ServerEnd()), s.server, s.serverBuffer, chunk);
    SplitChannel(s.serverBuffer, s.toServer, s.client.pendingWire, n);
    ServerDrains(h, s.server, s.serverBuffer + chunk, s.toServer[n..] + s.client.pendingWire, s.clientLog);
    FlowDelivers(t.serverBuffer, t.toServer, t.client.pendingWire, AwaitedByServer(h, t.server, t.clientLog),
                 s.serverRead, s.server.plaintext, Texts(s.clientLog), s.server.recvSeq, t.server.recvSeq);
    if s.server.phase == WaitClientHello && t.server.phase == ServerEstablished {
      NothingLeft(t.serverBuffer, t.toServer, t.client.pendingWire);
      FlightEnters(h, s, t);
    } else {
      assert s.server.pendingWire + [] == s.server.pendingWire;
    }
  }

  lemma DeliverToClientKeepsInv(h: Setup, s: System, n: nat)
    requires h.Honest() && Inv(h, s) && n <= |s.toClient|
    ensures Inv(h, Next(h, s, DeliverToClient(n)))
    ensures Next(h, s, DeliverToClient(n)).client.pendingWire == s.client.pendingWire
    ensures Next(h, s, DeliverToClient(n)).toClient == s.toClient[n..]
  {
    var chunk := s.toClient[..n];
    var t := Next(h, s, DeliverToClient(n));
    FeedIsDrain(ClientHandler(h.ClientEnd()), s.client, s.clientBuffer, chunk);
    SplitChannel(s.clientBuffer, s.toClient, s.server.pendingWire, n);
    if s.server.phase == ServerEstablished {
      ClientDrains(h, s.client, s.clientBuffer + chunk, s.toClient[n..] + s.server.pendingWire, s.serverLog);
      FlowDelivers(t.clientBuffer, t.toClient, t.server.pendingWire, Downstream(h, t),
                   s.clientRead, s.client.plaintext, Texts(s.serverLog), s.client.recvSeq, t.client.recvSeq);
    } else {
      NothingLeft(s.clientBuffer, s.toClient, s.server.pendingWire);
    }
  }

  lemma ClientSendsKeepsInv(h: Setup, s: System, m: Sent)
    requires h.Honest() && Inv(h, s) && Enabled(s, ClientSends(m))
    ensures Inv(h, Next(h, s, ClientSends(m)))
  {
    var key := h.Keys().clientWrite;
    var record := Record(h.suite, key, s.client.sendSeq, m.nonce, m.plaintext);
    UnprotectProtected(h.suite, key, s.client.sendSeq, m.nonce, m.plaintext, s.client.sendSeq);
    RecordsSnoc(h.suite, key, s.clientLog, m);
    SliceSnoc(Records(h.suite, key, s.clientLog), record, s.server.recvSeq);
    FlowSends(s.serverBuffer, s.toServer, AwaitedByServer(h, s.server, s.clientLog), record,
              s.serverRead, s.server.plaintext, Texts(s.clientLog), m.plaintext, s.server.recvSeq);
  }

  lemma ServerSendsKeepsInv(h: Setup, s: System, m: Sent)
    requires h.Honest() && Inv(h, s) && Enabled(s, ServerSends(m))
    ensures Inv(h, Next(h, s, ServerSends(m)))
  {
    var key := h.Keys().serverWrite;
    var record := Record(h.suite, key, s.server.sendSeq, m.nonce, m.plaintext);
    UnprotectProtected(h.suite, key, s.server.sendSeq, m.nonce, m.plaintext, s.server.sendSeq);
    RecordsSnoc(h.suite, key, s.serverLog, m);
    AwaitedGrows(h, s.client, s.serverLog, m, record);
    FlowSends(s.clientBuffer, s.toClient, Downstream(h, s), record,
              s.clientRead, s.client.plaintext, Texts(s.serverLog), m.plaintext, s.client.recvSeq);
  }

  lemma AwaitedGrows(h: Setup, c: ClientCore, log: seq<Sent>, m: Sent, record: Bytes)
    requires h.Honest() && c.recvSeq <= |log|
    requires record == Record(h.suite, h.Keys().serverWrite, |log|, m.nonce, m.plaintext)
    ensures AwaitedByClient(h, c, log + [m]) == AwaitedByClient(h, c, log) + [record]
  {
    var records := Records(h.suite, h.Keys().serverWrite, log);
    RecordsSnoc(h.suite, h.Keys().serverWrite, log, m);
    SliceSnoc(records, record, c.recvSeq);
    ConcatAssoc(h.Flight(), records, [record]);
    ConcatAssoc([h.Flight()[1]], records, [record]);
  }

  lemma {:induction false} NextKeepsInv(h: Setup, s: System, a: Action)
    requires h.Honest() && Inv(h, s)
    ensures Inv(h, Next(h, s, a))
  {
    if Enabled(s, a) {
      match a
      case DeliverToServer(n) => DeliverToServerKeepsInv(h, s, n);
      case DeliverToClient(n) => DeliverToClientKeepsInv(h, s, n);
      case ClientSends(m) => ClientSendsKeepsInv(h, s, m);
      case ServerSends(m) => ServerSendsKeepsInv(h, s, m);
      case FlushClient => FlushKeepsInv(h, s, a);
      case FlushServer => FlushKeepsInv(h, s, a);
      case _ => ReadKeepsInv(h, s, a);
    }
  }

  lemma {:induction false} RunKeepsInv(h: Setup, s: System, actions: seq<Action>)
    requires h.Honest() && Inv(h, s)
    ensures Inv(h, Run(h, s, actions))
    decreases |actions|
  {
    if actions != [] {
      NextKeepsInv(h, s, actions[0]);
      RunKeepsInv(h, Next(h, s, actions[0]), actions[1..]);
    }
  }

  // ---- the theorems ----

  /** Honest-run safety: after any interleaving, nothing has raised, and in each
      direction the plaintext delivered is a prefix of the plaintext sent. */
  lemma {:induction false} HonestRunSafe(h: Setup, actions: seq<Action>)
    requires h.Honest()
    ensures var s := Run(h, Start(h), actions);
      && !s.raised
      && ServerDelivered(s) <= Flatten(Texts(s.clientLog))
      && ClientDelivered(s) <= Flatten(Texts(s.serverLog))
  {
    StartInv(h);
    RunKeepsInv(h, Start(h), actions);
    var s := Run(h, Start(h), actions);
    FlattenPrefix(Texts(s.clientLog)[..s.server.recvSeq], Texts(s.clientLog));
    FlattenPrefix(Texts(s.serverLog)[..s.client.recvSeq], Texts(s.serverLog));
  }

  /** In every reachable state, buffered plus in-flight bytes decompose into exactly
      the frames the receiver has not taken yet, and the receiver's counter says how
      many messages it has delivered. */
  lemma {:induction false} InFlightDecomposes(h: Setup, actions: seq<Action>)
    requires h.Honest()
    ensures var s := Run(h, Start(h), actions);
      && s.server.recvSeq <= |s.clientLog| == s.client.sendSeq
      && s.client.recvSeq <= |s.serverLog| == s.server.sendSeq
      && s.serverBuffer + s.toServer + s.client.pendingWire == FrameAll(AwaitedByServer(h, s.server, s.clientLog))
      && (s.server.phase == ServerEstablished ==>
            s.clientBuffer + s.toClient + s.server.pendingWire == FrameAll(AwaitedByClient(h, s.client, s.serverLog)))
      && ServerDelivered(s) == Flatten(Texts(s.clientLog)[..s.server.recvSeq])
      && ClientDelivered(s) == Flatten(Texts(s.serverLog)[..s.client.recvSeq])
  {
    StartInv(h);
    RunKeepsInv(h, Start(h), actions);
    var s := Run(h, Start(h), actions);
    ConcatAssoc(s.serverBuffer, s.toServer, s.client.pendingWire);
    ConcatAssoc(s.clientBuffer, s.toClient, s.server.pendingWire);
  }

  /** No byte is waiting to be sent or delivered. */
  predicate Quiescent(s: System) {
    s.toServer == [] && s.toClient == [] && s.client.pendingWire == [] && s.server.pendingWire == []
  }

  /** Both ends agree on everything and everything sent has been delivered. */
  ghost predicate Complete(s: System) {
    && s.client.phase == ClientEstablished && s.server.phase == ServerEstablished
    && s.client.clientWriteKey == s.server.clientWriteKey && s.client.clientWriteKey.Some?
    && s.client.serverWriteKey == s.server.serverWriteKey && s.client.serverWriteKey.Some?
    && s.clientBuffer == [] && s.serverBuffer == []
    && s.server.recvSeq == s.client.sendSeq && s.client.recvSeq == s.server.sendSeq
    && ServerDelivered(s) == Flatten(Texts(s.clientLog))
    && ClientDelivered(s) == Flatten(Texts(s.serverLog))
  }

  /** A buffer that needs more and is a whole number of acceptable frames is empty. */
  lemma {:induction false} QuietFramesEmpty(buffer: Bytes, awaited: seq<Bytes>)
    requires Acceptable(awaited) && buffer == FrameAll(awaited) && PopFrom(buffer).NeedMore?
    ensures awaited == [] && buffer == []
  {
    assert buffer + [] == buffer;
    PopOfFrames(buffer, [], awaited);
  }

  lemma QuiescentComplete(h: Setup, s: System)
    requires h.Honest() && Inv(h, s) && Quiescent(s)
    ensures Complete(s)
  {
    assert s.serverBuffer + ([] + []) == s.serverBuffer && s.clientBuffer + ([] + []) == s.clientBuffer;
    AwaitedByServerAcceptable(h, s.server, s.clientLog);
    AwaitedByClientAcceptable(h, s.client, s.serverLog);
    QuietFramesEmpty(s.serverBuffer, AwaitedByServer(h, s.server, s.clientLog));
    QuietFramesEmpty(s.clientBuffer, AwaitedByClient(h, s.client, s.serverLog));
    assert Texts(s.clientLog)[..|s.clientLog|] == Texts(s.clientLog);
    assert Texts(s.serverLog)[..|s.serverLog|] == Texts(s.serverLog);
  }

  /** Delivery at quiescence: whenever a run has nothing pending and nothing in
      flight, both ends are established with equal keys, no receive buffer holds a
      byte, and everything sent in either direction has been delivered. */
  lemma {:induction false} DeliveryAtQuiescence(h: Setup, actions: seq<Action>)
    requires h.Honest() && Quiescent(Run(h, Start(h), actions))
    ensures Complete(Run(h, Start(h), actions))
  {
    StartInv(h);
    RunKeepsInv(h, Start(h), actions);
    QuiescentComplete(h, Run(h, Start(h), actions));
  }

  /** Flushing the client and delivering everything empties the way up. */
  lemma UpstreamEmpties(h: Setup, s: System) returns (t: System, all: Action)
    requires h.Honest() && Inv(h, s)
    ensures t == Next(h, Next(h, s, FlushClient), all) && Inv(h, t)
    ensures t.toServer == [] && t.client.pendingWire == []
  {
    var flushed := Next(h, s, FlushClient);
    FlushKeepsInv(h, s, FlushClient);
    all := DeliverToServer(|flushed.toServer|);
    t := Next(h, flushed, all);
    DeliverToServerKeepsInv(h, flushed, |flushed.toServer|);
  }

  lemma FlushedServer(h: Setup, s: System)
    ensures var t := Next(h, s, FlushServer);
      t.toServer == s.toServer && t.client == s.client && t.server.pendingWire == []
  {
  }

  /** Then flushing the server and delivering everything empties the way down. */
  lemma DownstreamEmpties(h: Setup, s: System) returns (t: System, all: Action)
    requires h.Honest() && Inv(h, s) && s.toServer == [] && s.client.pendingWire == []
    ensures t == Next(h, Next(h, s, FlushServer), all) && Inv(h, t) && Quiescent(t)
  {
    var flushed := Next(h, s, FlushServer);
    FlushKeepsInv(h, s, FlushServer);
    FlushedServer(h, s);
    t, all := DownstreamDelivered(h, flushed);
  }

  lemma DownstreamDelivered(h: Setup, s: System) returns (t: System, all: Action)
    requires h.Honest() && Inv(h, s) && s.toServer == [] && s.client.pendingWire == [] && s.server.pendingWire == []
    ensures t == Next(h, s, all) && Inv(h, t) && Quiescent(t)
  {
    all := DeliverToClient(|s.toClient|);
    t := Next(h, s, all);
    DeliverToClientKeepsInv(h, s, |s.toClient|);
  }

  /** From every reachable state, flushing and delivering once each way completes the session. */
  lemma {:induction false} AlwaysCompletable(h: Setup, actions: seq<Action>) returns (more: seq<Action>)
    requires h.Honest()
    ensures |more| == 4 && Complete(Run(h, Run(h, Start(h), actions), more))
  {
    var s := Run(h, Start(h), actions);
    assert Inv(h, s) by {
      StartInv(h);
      RunKeepsInv(h, Start(h), actions);
    }
    var up, a := UpstreamEmpties(h, s);
    var down, b := DownstreamEmpties(h, up);
    QuiescentComplete(h, down);
    more := [FlushClient, a, FlushServer, b];
    RunFour(h, s, FlushClient, a, FlushServer, b);
  }

  lemma {:induction false} RunFour(h: Setup, s: System, a: Action, b: Action, c: Action, d: Action)
    ensures Run(h, s, [a, b, c, d]) == Next(h, Next(h, Next(h, Next(h, s, a), b), c), d)
  {
    var s1 := Next(h, s, a);
    var s2 := Next(h, s1, b);
    var s3 := Next(h, s2, c);
    assert [a, b, c, d][1..] == [b, c, d] && [b, c, d][1..] == [c, d] && [c, d][1..] == [d];
    assert Run(h, s3, [d]) == Run(h, Next(h, s3, d), []);
    assert Run(h, s2, [c, d]) == Run(h, s3, [d]);
    assert Run(h, s1, [b, c, d]) == Run(h, s2, [c, d]);
  }
}
