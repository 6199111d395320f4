/** What the record layer delivers over a network that may drop, repeat, reorder
    or invent bytes, when the AEAD has ideal integrity. */
module ArbitraryNetwork {
  import opened Wire
  import opened Framing
  import opened Crypto
  import opened RecordProtection
  import opened Connection
  import opened Session

  /** Two established ends, and the log of every seal operation so far. Between them
      there is no channel: the network feeds each end whatever it likes. */
  datatype World = World(
    client: ClientCore, clientBuffer: Bytes,
    server: ServerCore, serverBuffer: Bytes,
    clientLog: seq<Sent>, serverLog: seq<Sent>,
    clientRead: Bytes, serverRead: Bytes)

  datatype Event =
    | ClientProtects(message: Sent)
    | ServerProtects(message: Sent)
    | FeedServer(data: Bytes)
    | FeedClient(data: Bytes)
    | ClientReads
    | ServerReads

  /** Some seal operation of this session accounts for this opening. */
  predicate Logged(keys: SessionKeys, w: World, key: Bytes, nonce: Bytes, text: Bytes, ad: Bytes) {
    || (key == keys.clientWrite && Sealed(w.clientLog, nonce, text, ad))
    || (key == keys.serverWrite && Sealed(w.serverLog, nonce, text, ad))
  }

  /** The suite with ideal integrity (RFC 5116, section 2.2): opening also fails
      whenever no seal operation made so far, by either end, accounts for it. */
  function Ideal(s: Suite, keys: SessionKeys, w: World): Suite {
    s.(open := (key: Bytes, nonce: Nonce, sealed: Bytes, ad: Bytes) =>
         match s.open(key, nonce, sealed, ad)
         case None => None
         case Some(text) => if Logged(keys, w, key, nonce, text, ad) then Some(text) else None)
  }

  /** The environments of the two ends, with the suite they had before idealising. */
  datatype Ends = Ends(client: ClientEnv, server: ServerEnv, keys: SessionKeys)

  function IdealClient(e: Ends, w: World): ClientEnv {
    e.client.(suite := Ideal(e.client.suite, e.keys, w))
  }

  function IdealServer(e: Ends, w: World): ServerEnv {
    e.server.(suite := Ideal(e.server.suite, e.keys, w))
  }

  /** One event. Exceptions are dropped: the caller just goes on. A seal operation is
      logged when the counter moved, even if framing the record then failed. */
  function Next(e: Ends, w: World, event: Event): World {
    match event
    case ClientProtects(m) =>
      var core := ClientProtect(e.client, w.client, m.plaintext, m.nonce).0;
      w.(client := core, clientLog := if core.sendSeq > w.client.sendSeq then w.clientLog + [m] else w.clientLog)
    case ServerProtects(m) =>
      var core := ServerProtect(e.server, w.server, m.plaintext, m.nonce).0;
      w.(server := core, serverLog := if core.sendSeq > w.server.sendSeq then w.serverLog + [m] else w.serverLog)
    case FeedServer(data) =>
      var fed := Feed(ServerHandler(IdealServer(e, w)), w.server, w.serverBuffer, data);
      w.(server := fed.core, serverBuffer := fed.buffer)
    case FeedClient(data) =>
      var fed := Feed(ClientHandler(IdealClient(e, w)), w.client, w.clientBuffer, data);
      w.(client := fed.core, clientBuffer := fed.buffer)
    case ClientReads => w.(clientRead := w.clientRead + w.client.plaintext, client := w.client.(plaintext := []))
    case ServerReads => w.(serverRead := w.serverRead + w.server.plaintext, server := w.server.(plaintext := []))
  }

  function Run(e: Ends, w: World, events: seq<Event>): World
    decreases |events|
  {
    if events == [] then w else Run(e, Next(e, w, events[0]), events[1..])
  }

  /** Both ends are established with the same two keys, which differ. */
  predicate KeysAgreed(e: Ends, w: World) {
    && e.keys.clientWrite != e.keys.serverWrite
    && w.client.phase == ClientEstablished && w.server.phase == ServerEstablished
    && w.client.clientWriteKey == w.server.clientWriteKey == Some(e.keys.clientWrite)
    && w.client.serverWriteKey == w.server.serverWriteKey == Some(e.keys.serverWrite)
  }

  /** The counters count the seal operations. */
  predicate Counted(w: World) {
    |w.clientLog| == w.client.sendSeq <= LIMIT_64 && |w.serverLog| == w.server.sendSeq <= LIMIT_64
  }

  predicate Delivered(w: World) {
    && Prefixed(w.clientLog, w.server.recvSeq, w.serverRead, w.server.plaintext)
    && Prefixed(w.serverLog, w.client.recvSeq, w.clientRead, w.client.plaintext)
  }

  predicate Inv(e: Ends, w: World) {
    KeysAgreed(e, w) && Counted(w) && Delivered(w)
  }

  // ---- one record ----

  /** Under ideal integrity only the next record of the peer is ever accepted. */
  lemma {:induction false} OnlyTheNextRecord(s: Suite, keys: SessionKeys, w: World, log: seq<Sent>, key: Bytes, n: nat,
                                             payload: Bytes)
    requires keys.clientWrite != keys.serverWrite && |log| <= LIMIT_64
    requires (key == keys.clientWrite && log == w.clientLog) || (key == keys.serverWrite && log == w.serverLog)
    requires UnprotectRecord(Ideal(s, keys, w), key, n, payload).Ok?
    ensures n < |log| && UnprotectRecord(Ideal(s, keys, w), key, n, payload).value == log[n].plaintext
  {
    var ideal := Ideal(s, keys, w);
    var text := UnprotectRecord(ideal, key, n, payload).value;
    var nonce := payload[SEQ_LEN..SEQ_LEN + NONCE_LEN];
    AcceptedRecord(ideal, key, n, payload);
    assert Logged(keys, w, key, nonce, text, Pack(n, SEQ_LEN));
    SealedNumber(log, nonce, text, n);
  }

  /** Whatever is fed, an end takes the next so-many records of its peer's log and nothing else changes. */
  ghost predicate ServerAdvanced(s: ServerCore, t: ServerCore, log: seq<Sent>) {
    && s.recvSeq <= t.recvSeq <= |log|
    && t == s.(recvSeq := t.recvSeq, plaintext := s.plaintext + Flatten(Texts(log)[s.recvSeq..t.recvSeq]))
  }

  lemma ServerStepAdvances(e: Ends, w: World, s: ServerCore, record: Bytes)
    requires e.keys.clientWrite != e.keys.serverWrite && |w.clientLog| <= LIMIT_64
    requires s.phase == ServerEstablished && s.clientWriteKey == Some(e.keys.clientWrite)
    requires s.recvSeq <= |w.clientLog|
    ensures ServerAdvanced(s, ServerHandler(IdealServer(e, w))(s, record).core, w.clientLog)
  {
    var texts := Texts(w.clientLog);
    assert texts[s.recvSeq..s.recvSeq] == [] && s.plaintext + [] == s.plaintext;
    if UnprotectRecord(IdealServer(e, w).suite, e.keys.clientWrite, s.recvSeq, record).Ok? {
      OnlyTheNextRecord(e.server.suite, e.keys, w, w.clientLog, e.keys.clientWrite, s.recvSeq, record);
      FlattenSlice(texts, s.recvSeq, s.recvSeq + 1);
    }
  }

  lemma {:induction false} ServerDrainAdvances(e: Ends, w: World, s: ServerCore, buffer: Bytes)
    requires e.keys.clientWrite != e.keys.serverWrite && |w.clientLog| <= LIMIT_64
    requires s.phase == ServerEstablished && s.clientWriteKey == Some(e.keys.clientWrite)
    requires s.recvSeq <= |w.clientLog|
    ensures ServerAdvanced(s, Drain(ServerHandler(IdealServer(e, w)), s, buffer).core, w.clientLog)
    decreases |buffer|
  {
    var handle := ServerHandler(IdealServer(e, w));
    var pop := PopFrom(buffer);
    if pop.Popped? {
      var step := handle(s, pop.payload);
      ServerStepAdvances(e, w, s, pop.payload);
      if step.error.None? {
        ServerDrainAdvances(e, w, step.core, pop.rest);
        SliceJoin(s.plaintext, Texts(w.clientLog), s.recvSeq, step.core.recvSeq,
                  Drain(handle, step.core, pop.rest).core.recvSeq);
      }
    } else {
      assert Texts(w.clientLog)[s.recvSeq..s.recvSeq] == [] && s.plaintext + [] == s.plaintext;
    }
  }

  ghost predicate ClientAdvanced(c: ClientCore, d: ClientCore, log: seq<Sent>) {
    && c.recvSeq <= d.recvSeq <= |log|
    && d == c.(recvSeq := d.recvSeq, plaintext := c.plaintext + Flatten(Texts(log)[c.recvSeq..d.recvSeq]))
  }

  lemma ClientStepAdvances(e: Ends, w: World, c: ClientCore, record: Bytes)
    requires e.keys.clientWrite != e.keys.serverWrite && |w.serverLog| <= LIMIT_64
    requires c.phase == ClientEstablished && c.serverWriteKey == Some(e.keys.serverWrite)
    requires c.recvSeq <= |w.serverLog|
    ensures ClientAdvanced(c, ClientHandler(IdealClient(e, w))(c, record).core, w.serverLog)
  {
    var texts := Texts(w.serverLog);
    assert texts[c.recvSeq..c.recvSeq] == [] && c.plaintext + [] == c.plaintext;
    if UnprotectRecord(IdealClient(e, w).suite, e.keys.serverWrite, c.recvSeq, record).Ok? {
      OnlyTheNextRecord(e.client.suite, e.keys, w, w.serverLog, e.keys.serverWrite, c.recvSeq, record);
      FlattenSlice(texts, c.recvSeq, c.recvSeq + 1);
    }
  }

  lemma {:induction false} ClientDrainAdvances(e: Ends, w: World, c: ClientCore, buffer: Bytes)
    requires e.keys.clientWrite != e.keys.serverWrite && |w.serverLog| <= LIMIT_64
    requires c.phase == ClientEstablished && c.serverWriteKey == Some(e.keys.serverWrite)
    requires c.recvSeq <= |w.serverLog|
    ensures ClientAdvanced(c, Drain(ClientHandler(IdealClient(e, w)), c, buffer).core, w.serverLog)
    decreases |buffer|
  {
    var handle := ClientHandler(IdealClient(e, w));
    var pop := PopFrom(buffer);
    if pop.Popped? {
      var step := handle(c, pop.payload);
      ClientStepAdvances(e, w, c, pop.payload);
      if step.error.None? {
        ClientDrainAdvances(e, w, step.core, pop.rest);
        SliceJoin(c.plaintext, Texts(w.serverLog), c.recvSeq, step.core.recvSeq,
                  Drain(handle, step.core, pop.rest).core.recvSeq);
      }
    } else {
      assert Texts(w.serverLog)[c.recvSeq..c.recvSeq] == [] && c.plaintext + [] == c.plaintext;
    }
  }

  // ---- whole runs ----

  lemma FeedServerKeepsInv(e: Ends, w: World, data: Bytes)
    requires Inv(e, w)
    ensures Inv(e, Next(e, w, FeedServer(data)))
  {
    ServerDrainAdvances(e, w, w.server, w.serverBuffer + data);
    PrefixGrows(w.clientLog, w.server.recvSeq, Next(e, w, FeedServer(data)).server.recvSeq, w.serverRead,
                w.server.plaintext);
  }

  lemma FeedClientKeepsInv(e: Ends, w: World, data: Bytes)
    requires Inv(e, w)
    ensures Inv(e, Next(e, w, FeedClient(data)))
  {
    ClientDrainAdvances(e, w, w.client, w.clientBuffer + data);
    PrefixGrows(w.serverLog, w.client.recvSeq, Next(e, w, FeedClient(data)).client.recvSeq, w.clientRead,
                w.client.plaintext);
  }

  lemma NextKeepsInv(e: Ends, w: World, event: Event)
    requires Inv(e, w)
    ensures Inv(e, Next(e, w, event))
  {
    match event
    case ClientProtects(m) =>
      PrefixLogs(w.clientLog, m, w.server.recvSeq, w.serverRead, w.server.plaintext);
    case ServerProtects(m) =>
      PrefixLogs(w.serverLog, m, w.client.recvSeq, w.clientRead, w.client.plaintext);
    case FeedServer(data) => FeedServerKeepsInv(e, w, data);
    case FeedClient(data) => FeedClientKeepsInv(e, w, data);
    case ClientReads => PrefixReads(w.serverLog, w.client.recvSeq, w.clientRead, w.client.plaintext);
    case ServerReads => PrefixReads(w.clientLog, w.server.recvSeq, w.serverRead, w.server.plaintext);
  }

  lemma {:induction false} RunKeepsInv(e: Ends, w: World, events: seq<Event>)
    requires Inv(e, w)
    ensures Inv(e, Run(e, w, events))
    decreases |events|
  {
    if events != [] {
      NextKeepsInv(e, w, events[0]);
      RunKeepsInv(e, Next(e, w, events[0]), events[1..]);
    }
  }

  /** Prefix delivery: from any state in which two ends share their keys and nothing
      has been received yet, and for any bytes at all fed to either end, exceptions or
      not, each end has accepted exactly the first `recvSeq` plaintexts of its peer. */
  lemma {:induction false} PrefixDelivery(e: Ends, w: World, events: seq<Event>)
    requires KeysAgreed(e, w) && Counted(w)
    requires w.client.recvSeq == w.server.recvSeq == 0
    requires w.clientRead == w.serverRead == w.client.plaintext == w.server.plaintext == []
    ensures var t := Run(e, w, events);
      && t.server.recvSeq <= |t.clientLog| && t.client.recvSeq <= |t.serverLog|
      && t.serverRead + t.server.plaintext == Flatten(Texts(t.clientLog)[..t.server.recvSeq])
      && t.clientRead + t.client.plaintext == Flatten(Texts(t.serverLog)[..t.client.recvSeq])
  {
    assert Texts(w.clientLog)[..0] == [] && Texts(w.serverLog)[..0] == [];
    RunKeepsInv(e, w, events);
  }
}
