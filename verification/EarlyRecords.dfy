/** What happens when the server's caller sends application data before the handshake
    bytes that are still pending: exactly then a completed run has raised. */
module EarlyRecords {
  import opened Wire
  import opened Framing
  import opened Messages
  import opened RecordProtection
  import opened Connection
  import opened Session
  import opened HonestRun

  // ---- lists of payloads on which a handler raises ----

  predicate Raises<S>(handle: Handler<S>, core: S, payloads: seq<Bytes>)
    decreases |payloads|
  {
    payloads != [] &&
    var step := handle(core, payloads[0]);
    step.error.Some? || Raises(handle, step.core, payloads[1..])
  }

  lemma {:induction false} RaisesMore<S>(handle: Handler<S>, core: S, payloads: seq<Bytes>, more: seq<Bytes>)
    requires Raises(handle, core, payloads)
    ensures Raises(handle, core, payloads + more)
    decreases |payloads|
  {
    var step := handle(core, payloads[0]);
    assert (payloads + more)[0] == payloads[0] && (payloads + more)[1..] == payloads[1..] + more;
    if step.error.None? {
      RaisesMore(handle, step.core, payloads[1..], more);
    }
  }

  lemma {:induction false} RaisesSome<S>(handle: Handler<S>, core: S, payloads: seq<Bytes>, more: seq<Bytes>)
    requires Raises(handle, core, payloads + more)
    ensures payloads != [] || more != []
  {
  }

  /** Whatever part of such a list has arrived, the record loop has raised or is to raise
      on what is left of it. */
  lemma {:induction false} DrainRaises<S>(handle: Handler<S>, core: S, buffer: Bytes, later: Bytes,
                                          payloads: seq<Bytes>, more: seq<Bytes>)
    returns (left: seq<Bytes>)
    requires Acceptable(payloads) && buffer + later == FrameAll(payloads) && Raises(handle, core, payloads + more)
    ensures var fed := Drain(handle, core, buffer);
      fed.error.None? ==>
        && Acceptable(left) && fed.buffer + later == FrameAll(left) && PopFrom(fed.buffer).NeedMore?
        && Raises(handle, fed.core, left + more)
    decreases |buffer|
  {
    PopOfFrames(buffer, later, payloads);
    left := payloads;
    var pop := PopFrom(buffer);
    if pop.Popped? {
      assert (payloads + more)[0] == payloads[0] && (payloads + more)[1..] == payloads[1..] + more;
      var step := handle(core, pop.payload);
      if step.error.None? {
        left := DrainRaises(handle, step.core, pop.rest, later, payloads[1..], more);
      }
    }
  }

  // ---- the client and a flight that comes late ----

  lemma {:induction false} UnpackSplit(a: Bytes, b: Bytes)
    ensures Unpack(a + b) == Unpack(a) * Capacity(|b|) + Unpack(b)
    ensures Unpack(b) < Capacity(|b|)
  {
    if b == [] {
      assert a + b == a;
    } else {
      var front, last := b[..|b| - 1], b[|b| - 1];
      UnpackSplit(a, front);
      assert (a + b)[..|a + b| - 1] == a + front;
      TimesCapacity(Unpack(a), |b|);
    }
  }

  lemma TimesCapacity(n: nat, width: nat)
    requires width > 0
    ensures n * Capacity(width) == 256 * (n * Capacity(width - 1))
  {
  }

  /** A message whose first tag is `tag`, read as a record, carries a number between
      tag * 2^48 and (tag + 1) * 2^48. */
  lemma {:induction false} LeadingTag(message: Bytes, tag: nat)
    requires tag < LIMIT_16 && |message| >= SEQ_LEN && message[..2] == Pack(tag, 2)
    ensures tag * 0x1_0000_0000_0000 <= Unpack(message[..SEQ_LEN]) < (tag + 1) * 0x1_0000_0000_0000
  {
    var rest := message[2..SEQ_LEN];
    assert message[..SEQ_LEN] == message[..2] + rest;
    UnpackSplit(message[..2], rest);
    Capacities();
    UnpackPack(tag, 2);
    assert Capacity(6) == 256 * Capacity(5) && Capacity(5) == 256 * Capacity(4);
  }

  lemma FlightTags(h: Setup)
    ensures |h.Flight()[0]| >= SEQ_LEN && h.Flight()[0][..2] == Pack(TAG_X25519_PUBLIC, 2)
    ensures |h.Flight()[1]| >= SEQ_LEN && h.Flight()[1][..2] == Pack(TAG_CERTIFICATE, 2)
  {
    HelloFits(h.ServerShare());
    var share := Field(TAG_X25519_PUBLIC, h.ServerShare());
    assert Encode([share]) == EncodeField(share) + Encode([]);
    var leaf := Field(TAG_CERTIFICATE, h.identity.certificate);
    var fields := h.AuthList();
    assert fields[0] == leaf;
    assert |fields| >= 2;
    assert Encode(fields) == EncodeField(leaf) + Encode(fields[1..]);
    assert Encode(fields[1..]) == EncodeField(fields[1]) + Encode(fields[2..]);
  }

  /** A client that is past the ServerHello raises on the flight: as a ServerAuth the hello
      has no certificate, and as two records the messages do not carry successive numbers. */
  lemma {:induction false} FlightRaises(h: Setup, c: ClientCore)
    requires h.Honest() && c.phase != WaitServerHello
    ensures Raises(ClientHandler(h.ClientEnd()), c, h.Flight())
  {
    var handle := ClientHandler(h.ClientEnd());
    var hello, auth := h.Flight()[0], h.Flight()[1];
    assert h.Flight()[1..] == [auth] && [auth][0] == auth;
    if c.phase == WaitServerAuth {
      HelloNoAuth(h, c);
    } else {
      var step := handle(c, hello);
      if step.error.None? {
        FlightTags(h);
        LeadingTag(hello, TAG_X25519_PUBLIC);
        LeadingTag(auth, TAG_CERTIFICATE);
        assert step.core.phase == ClientEstablished && step.core.recvSeq == Unpack(hello[..SEQ_LEN]) + 1;
        assert handle(step.core, auth).error.Some?;
      }
      assert Raises(handle, step.core, [auth]) || step.error.Some?;
    }
  }

  lemma HelloNoAuth(h: Setup, c: ClientCore)
    requires h.Honest() && c.phase == WaitServerAuth
    ensures ClientHandler(h.ClientEnd())(c, h.Flight()[0]).error.Some?
  {
    HelloDecodes(h.ServerShare());
    var fields := [Field(TAG_X25519_PUBLIC, h.ServerShare())];
    assert fields[1..] == [];
    assert Select(fields, TAG_CERTIFICATE) == [];
  }

  /** Anything at all in front of the flight makes the client raise, by its end at the latest. */
  lemma {:induction false} EarlyRaises(h: Setup, c: ClientCore, early: seq<Bytes>)
    requires h.Honest() && (early != [] || c.phase != WaitServerHello)
    ensures Raises(ClientHandler(h.ClientEnd()), c, early + h.Flight())
    decreases |early|
  {
    var all := early + h.Flight();
    if early == [] {
      assert all == h.Flight();
      FlightRaises(h, c);
    } else {
      var step := ClientHandler(h.ClientEnd())(c, early[0]);
      assert all[0] == early[0] && all[1..] == early[1..] + h.Flight();
      if step.error.None? {
        EarlyRaises(h, step.core, early[1..]);
      }
    }
  }

  /** In every honest setup: a record that reaches the client ahead of the flight makes it
      raise, whatever the record says and whatever comes behind the flight. */
  lemma {:induction false} EarlyRecordRaises(h: Setup, m: Sent, tail: Bytes)
    requires h.Honest() && |m.plaintext| <= MAX_PLAINTEXT
    ensures var record := Record(h.suite, h.Keys().serverWrite, 0, m.nonce, m.plaintext);
      Drain(ClientHandler(h.ClientEnd()), FreshClient(h.ClientEnd()),
            Frame(record) + (FrameAll(h.Flight()) + tail)).error.Some?
  {
    var handle, c := ClientHandler(h.ClientEnd()), FreshClient(h.ClientEnd());
    var record := Record(h.suite, h.Keys().serverWrite, 0, m.nonce, m.plaintext);
    UnprotectProtected(h.suite, h.Keys().serverWrite, 0, m.nonce, m.plaintext, 0);
    FlightFrames(h);
    EarlyRaises(h, c, [record]);
    var payloads := [record] + h.Flight();
    var wire := Frame(record) + FrameAll(h.Flight());
    FrameAllCons(record, h.Flight());
    NothingAdded(wire);
    assert payloads + [] == payloads;
    var left := DrainRaises(handle, c, wire, [], payloads, []);
    var fed := Drain(handle, c, wire);
    if fed.error.None? {
      NothingAdded(fed.buffer);
      RaisesSome(handle, fed.core, left, []);
      QuietFramesEmpty(fed.buffer, left);
    }
    DrainAppend(handle, c, wire, tail);
    ConcatAssoc(Frame(record), FrameAll(h.Flight()), tail);
  }

  // ---- runs in which the server's caller may send at any time ----

  function FreeNext(h: Setup, s: System, a: Action): System {
    match a
    case ServerSends(m) => if MaySend(s, m) then ServerSent(h, s, m) else s
    case _ => Next(h, s, a)
  }

  function FreeRun(h: Setup, s: System, actions: seq<Action>): System
    decreases |actions|
  {
    if actions == [] then s else FreeRun(h, FreeNext(h, s, actions[0]), actions[1..])
  }

  /** A send while the server's own handshake bytes are pending. */
  predicate TooEarly(s: System, a: Action) {
    a.ServerSends? && MaySend(s, a.message) && s.server.pendingWire != []
  }

  /** The run holds such a send. */
  predicate SentEarly(h: Setup, s: System, actions: seq<Action>)
    decreases |actions|
  {
    actions != [] && (TooEarly(s, actions[0]) || SentEarly(h, FreeNext(h, s, actions[0]), actions[1..]))
  }

  /** Without one, the run is one of HonestRun. */
  lemma {:induction false} NotEarly(h: Setup, s: System, actions: seq<Action>)
    requires !SentEarly(h, s, actions)
    ensures FreeRun(h, s, actions) == Run(h, s, actions)
    decreases |actions|
  {
    if actions != [] {
      NotEarly(h, FreeNext(h, s, actions[0]), actions[1..]);
    }
  }

  lemma {:induction false} RaisedStays(h: Setup, s: System, actions: seq<Action>)
    requires s.raised
    ensures FreeRun(h, s, actions).raised
    decreases |actions|
  {
    if actions != [] {
      RaisedStays(h, FreeNext(h, s, actions[0]), actions[1..]);
    }
  }

  // ---- from an early send on ----

  /** Of what is on its way to the client, `ahead` is in front of the pending bytes `more`,
      and the client is to raise on all of it. */
  ghost predicate Doomed(h: Setup, s: System, ahead: seq<Bytes>, more: seq<Bytes>)
    requires h.Honest()
  {
    && (more == [] || more == h.Flight()) && s.server.pendingWire == FrameAll(more)
    && s.server.phase == ServerEstablished
    && Acceptable(ahead) && s.clientBuffer + s.toClient == FrameAll(ahead) && PopFrom(s.clientBuffer).NeedMore?
    && Raises(ClientHandler(h.ClientEnd()), s.client, ahead + more)
  }

  /** What a client has pending, decrypted or sent has no part in what it raises on. */
  predicate SameClient(c: ClientCore, d: ClientCore) {
    d == c.(pendingWire := d.pendingWire, plaintext := d.plaintext, sendSeq := d.sendSeq)
  }

  lemma {:induction false} RaisesSame(env: ClientEnv, c: ClientCore, d: ClientCore, payloads: seq<Bytes>)
    requires SameClient(c, d) && Raises(ClientHandler(env), c, payloads)
    ensures Raises(ClientHandler(env), d, payloads)
    decreases |payloads|
  {
    var a, b := ClientHandler(env)(c, payloads[0]), ClientHandler(env)(d, payloads[0]);
    assert a.error == b.error && SameClient(a.core, b.core);
    if a.error.None? {
      RaisesSame(env, a.core, b.core, payloads[1..]);
    }
  }

  lemma {:induction false} EstablishedOnlyReceives(env: ServerEnv, s: ServerCore, buffer: Bytes)
    requires s.phase == ServerEstablished
    ensures var t := Drain(ServerHandler(env), s, buffer).core;
      t.phase == ServerEstablished && t.pendingWire == s.pendingWire
    decreases |buffer|
  {
    var pop := PopFrom(buffer);
    if pop.Popped? {
      var step := ServerHandler(env)(s, pop.payload);
      if step.error.None? {
        EstablishedOnlyReceives(env, step.core, pop.rest);
      }
    }
  }

  lemma DoomedFlush(h: Setup, s: System, ahead: seq<Bytes>, more: seq<Bytes>)
    requires h.Honest() && Doomed(h, s, ahead, more)
    ensures Doomed(h, FreeNext(h, s, FlushServer), ahead + more, [])
  {
    FlightFrames(h);
    FrameAllAppend(ahead, more);
    ConcatAssoc(s.clientBuffer, s.toClient, FrameAll(more));
    assert (ahead + more) + [] == ahead + more;
  }

  lemma DoomedDelivery(h: Setup, s: System, n: nat, ahead: seq<Bytes>, more: seq<Bytes>) returns (left: seq<Bytes>)
    requires h.Honest() && Doomed(h, s, ahead, more) && n <= |s.toClient|
    ensures var t := FreeNext(h, s, DeliverToClient(n)); t.raised || Doomed(h, t, left, more)
  {
    var handle := ClientHandler(h.ClientEnd());
    var chunk, later := s.toClient[..n], s.toClient[n..];
    FeedIsDrain(handle, s.client, s.clientBuffer, chunk);
    assert chunk + later == s.toClient;
    ConcatAssoc(s.clientBuffer, chunk, later);
    left := DrainRaises(handle, s.client, s.clientBuffer + chunk, later, ahead, more);
  }

  /** One more record behind what is ahead. */
  lemma {:induction false} AheadGrows(h: Setup, c: ClientCore, ahead: seq<Bytes>, more: seq<Bytes>, record: Bytes)
    requires h.Honest() && (more == [] || more == h.Flight())
    requires Raises(ClientHandler(h.ClientEnd()), c, ahead + more)
    ensures Raises(ClientHandler(h.ClientEnd()), c, (ahead + [record]) + more)
  {
    if more == [] {
      assert ahead + more == ahead && (ahead + [record]) + more == ahead + [record];
      RaisesMore(ClientHandler(h.ClientEnd()), c, ahead, [record]);
    } else {
      EarlyRaises(h, c, ahead + [record]);
    }
  }

  lemma DoomedSend(h: Setup, s: System, m: Sent, ahead: seq<Bytes>, more: seq<Bytes>) returns (longer: seq<Bytes>)
    requires h.Honest() && Doomed(h, s, ahead, more) && MaySend(s, m)
    ensures var t := ServerSent(h, s, m); t.raised || Doomed(h, t, longer, more)
  {
    longer := ahead;
    if s.server.serverWriteKey.Some? {
      var key := s.server.serverWriteKey.value;
      var record := Record(h.suite, key, s.server.sendSeq, m.nonce, m.plaintext);
      UnprotectProtected(h.suite, key, s.server.sendSeq, m.nonce, m.plaintext, s.server.sendSeq);
      longer := ahead + [record];
      FrameAllSnoc(ahead, record);
      ConcatAssoc(s.clientBuffer, s.toClient, Frame(record));
      AheadGrows(h, s.client, ahead, more, record);
    }
  }

  lemma DoomedServer(h: Setup, s: System, n: nat, ahead: seq<Bytes>, more: seq<Bytes>)
    requires h.Honest() && Doomed(h, s, ahead, more) && n <= |s.toServer|
    ensures Doomed(h, FreeNext(h, s, DeliverToServer(n)), ahead, more)
  {
    EstablishedOnlyReceives(h.ServerEnd(), s.server, s.serverBuffer + s.toServer[..n]);
  }

  lemma DoomedClient(h: Setup, s: System, a: Action, ahead: seq<Bytes>, more: seq<Bytes>)
    requires h.Honest() && Doomed(h, s, ahead, more)
    requires a == FlushClient || a == ClientReads || a.ClientSends? || a == ServerReads
    ensures Doomed(h, FreeNext(h, s, a), ahead, more)
  {
    var t := FreeNext(h, s, a);
    assert SameClient(s.client, t.client);
    RaisesSame(h.ClientEnd(), s.client, t.client, ahead + more);
  }

  lemma DoomedNext(h: Setup, s: System, a: Action, ahead: seq<Bytes>, more: seq<Bytes>)
    returns (ahead': seq<Bytes>, more': seq<Bytes>)
    requires h.Honest() && Doomed(h, s, ahead, more)
    ensures var t := FreeNext(h, s, a); t.raised || Doomed(h, t, ahead', more')
  {
    ahead', more' := ahead, more;
    match a
    case FlushServer =>
      DoomedFlush(h, s, ahead, more);
      ahead', more' := ahead + more, [];
    case DeliverToClient(n) =>
      if n <= |s.toClient| {
        ahead' := DoomedDelivery(h, s, n, ahead, more);
      }
    case ServerSends(m) =>
      if MaySend(s, m) {
        ahead' := DoomedSend(h, s, m, ahead, more);
      }
    case DeliverToServer(n) =>
      if n <= |s.toServer| {
        DoomedServer(h, s, n, ahead, more);
      }
    case _ => DoomedClient(h, s, a, ahead, more);
  }

  lemma DoomedNotQuiet(h: Setup, s: System, ahead: seq<Bytes>, more: seq<Bytes>)
    requires h.Honest() && Doomed(h, s, ahead, more)
    ensures !Quiescent(s)
  {
    RaisesSome(ClientHandler(h.ClientEnd()), s.client, ahead, more);
    FlightNotEmpty(h);
    NothingAdded(s.clientBuffer);
    if Quiescent(s) {
      QuietFramesEmpty(s.clientBuffer, ahead);
    }
  }

  lemma FlightNotEmpty(h: Setup)
    ensures FrameAll(h.Flight()) != []
  {
  }

  lemma {:induction false} DoomedRun(h: Setup, s: System, actions: seq<Action>, ahead: seq<Bytes>, more: seq<Bytes>)
    requires h.Honest() && Doomed(h, s, ahead, more) && Quiescent(FreeRun(h, s, actions))
    ensures FreeRun(h, s, actions).raised
    decreases |actions|
  {
    if actions == [] {
      DoomedNotQuiet(h, s, ahead, more);
    } else {
      var t := FreeNext(h, s, actions[0]);
      var ahead', more' := DoomedNext(h, s, actions[0], ahead, more);
      if t.raised {
        RaisedStays(h, t, actions[1..]);
      } else {
        DoomedRun(h, t, actions[1..], ahead', more');
      }
    }
  }

  // ---- up to the early send ----

  /** The server's pending bytes are nothing, or its whole flight. */
  predicate PendingWhole(h: Setup, s: System) {
    s.server.pendingWire == [] || s.server.pendingWire == FrameAll(h.Flight())
  }

  lemma DeliveredPending(h: Setup, s: System, n: nat)
    requires h.Honest() && Inv(h, s) && n <= |s.toServer|
    ensures var t := Next(h, s, DeliverToServer(n)).server;
      || t.pendingWire == s.server.pendingWire
      || (s.server.phase == WaitClientHello && t.pendingWire == s.server.pendingWire + FrameAll(h.Flight()))
  {
    var chunk := s.toServer[..n];
    FeedIsDrain(ServerHandler(h.ServerEnd()), s.server, s.serverBuffer, chunk);
    SplitChannel(s.serverBuffer, s.toServer, s.client.pendingWire, n);
    ServerDrains(h, s.server, s.serverBuffer + chunk, s.toServer[n..] + s.client.pendingWire, s.clientLog);
    NothingAdded(s.server.pendingWire);
  }

  lemma NothingPending(h: Setup, s: System)
    requires h.Honest() && Inv(h, s) && s.server.phase == WaitClientHello
    ensures s.server.pendingWire == []
  {
    NothingLeft(s.clientBuffer, s.toClient, s.server.pendingWire);
  }

  /** Only a flush and a delivery touch the server's pending bytes. */
  lemma OthersKeepPending(h: Setup, s: System, a: Action)
    requires PendingWhole(h, s) && !a.DeliverToServer?
    ensures PendingWhole(h, Next(h, s, a))
  {
  }

  lemma DeliveryKeepsPending(h: Setup, s: System, n: nat)
    requires h.Honest() && Inv(h, s) && PendingWhole(h, s) && n <= |s.toServer|
    ensures PendingWhole(h, Next(h, s, DeliverToServer(n)))
  {
    DeliveredPending(h, s, n);
    if s.server.phase == WaitClientHello {
      NothingPending(h, s);
      assert [] + FrameAll(h.Flight()) == FrameAll(h.Flight());
    }
  }

  lemma PendingStaysWhole(h: Setup, s: System, a: Action)
    requires h.Honest() && Inv(h, s) && PendingWhole(h, s)
    ensures PendingWhole(h, Next(h, s, a))
  {
    if !a.DeliverToServer? {
      OthersKeepPending(h, s, a);
    } else if a.n <= |s.toServer| {
      DeliveryKeepsPending(h, s, a.n);
    }
  }

  /** While the flight is pending nothing else is on its way to the client. */
  lemma NothingAhead(h: Setup, s: System)
    requires h.Honest() && Inv(h, s) && PendingWhole(h, s) && s.server.pendingWire != []
    ensures s.clientBuffer == [] && s.toClient == [] && s.server.phase == ServerEstablished
  {
    var total := s.clientBuffer + (s.toClient + s.server.pendingWire);
    assert |total| == |s.clientBuffer| + |s.toClient| + |s.server.pendingWire|;
    if s.server.phase == WaitClientHello {
      NothingLeft(s.clientBuffer, s.toClient, s.server.pendingWire);
    } else {
      AwaitedAtMost(h, s.client);
    }
  }

  /** Before any application record the client awaits no more than the flight. */
  lemma AwaitedAtMost(h: Setup, c: ClientCore)
    requires h.Honest() && c.recvSeq == 0
    ensures |FrameAll(AwaitedByClient(h, c, []))| <= |FrameAll(h.Flight())|
  {
    FlightFrames(h);
    var hello, auth := h.Flight()[0], h.Flight()[1];
    assert Records(h.suite, h.Keys().serverWrite, []) == [];
    assert h.Flight() + [] == h.Flight() && [auth] + [] == [auth];
    FrameAllCons(auth, []);
  }

  lemma EarlySend(h: Setup, s: System, m: Sent) returns (ahead: seq<Bytes>)
    requires h.Honest() && Inv(h, s) && PendingWhole(h, s) && TooEarly(s, ServerSends(m))
    ensures var t := ServerSent(h, s, m); t.raised || Doomed(h, t, ahead, h.Flight())
  {
    NothingAhead(h, s);
    var key := h.Keys().serverWrite;
    var record := Record(h.suite, key, s.server.sendSeq, m.nonce, m.plaintext);
    UnprotectProtected(h.suite, key, s.server.sendSeq, m.nonce, m.plaintext, s.server.sendSeq);
    ahead := [record];
    FrameAllCons(record, []);
    NothingAdded(Frame(record));
    assert [] + ([] + Frame(record)) == Frame(record);
    assert [record] + [] == [record];
    EarlyRaises(h, s.client, [record]);
  }

  lemma {:induction false} EarlyRunRaises(h: Setup, s: System, actions: seq<Action>)
    requires h.Honest() && Inv(h, s) && PendingWhole(h, s)
    requires SentEarly(h, s, actions) && Quiescent(FreeRun(h, s, actions))
    ensures FreeRun(h, s, actions).raised
    decreases |actions|
  {
    var a := actions[0];
    var t := FreeNext(h, s, a);
    if TooEarly(s, a) {
      var ahead := EarlySend(h, s, a.message);
      if t.raised {
        RaisedStays(h, t, actions[1..]);
      } else {
        DoomedRun(h, t, actions[1..], ahead, h.Flight());
      }
    } else {
      NextKeepsInv(h, s, a);
      PendingStaysWhole(h, s, a);
      EarlyRunRaises(h, t, actions[1..]);
    }
  }

  /** Of all runs in which the server's caller sends whenever it may: one without an early
      send never raises, and one that has come to rest has raised if and only if some
      application data was sent while handshake bytes were pending. */
  lemma {:induction false} RaisesIffEarly(h: Setup, actions: seq<Action>)
    requires h.Honest()
    ensures var s := FreeRun(h, Start(h), actions);
      && (!SentEarly(h, Start(h), actions) ==> !s.raised)
      && (Quiescent(s) ==> (s.raised <==> SentEarly(h, Start(h), actions)))
  {
    if SentEarly(h, Start(h), actions) {
      if Quiescent(FreeRun(h, Start(h), actions)) {
        StartInv(h);
        EarlyRunRaises(h, Start(h), actions);
      }
    } else {
      NotEarly(h, Start(h), actions);
      HonestRunSafe(h, actions);
    }
  }
}
