/** What every run of a connection keeps: output is conserved and never stuck, the
    TLS layer hands up plaintext only when established, the wire carries the two
    handshake messages and then numbered records, and HTTP answers the plaintext stream. */
module ConnectionRuns {
  import opened Wire
  import opened Framing
  import opened Messages
  import opened Crypto
  import opened RecordProtection
  import opened Connection
  import opened Session
  import opened Http
  import opened Pipeline
  import opened Server

  // ---- the invariant ----

  /** Bytes sent, then bytes waiting, are the bytes queued. An open connection with
      output asks for write events; one marked closing has output; and the server
      itself closes a connection only when nothing is waiting. */
  predicate OutputOk(c: Conn) {
    && c.sent + c.output == c.queued
    && (c.link.Open? && c.output != [] ==> c.writeInterest)
    && (c.link.Open? && c.closing ==> c.output != [])
    && (c.link == Closed(ResponsesSent) || c.link == Closed(PeerFinished) ==> c.output == [])
  }

  /** The keys exist exactly when established; before that nothing has been sent,
      received or decrypted. */
  predicate Layered(s: ServerCore) {
    match s.phase
    case WaitClientHello =>
      s.clientWriteKey.None? && s.serverWriteKey.None? && s.plaintext == [] && s.sendSeq == 0 && s.recvSeq == 0
    case ServerEstablished => s.clientWriteKey.Some? && s.serverWriteKey.Some?
  }

  /** ServerHello and ServerAuth of one signature. */
  function FlightFor(env: ServerEnv, signing: Signing): seq<Bytes> {
    var share := env.suite.publicKey(signing.ephemeral.privateKey);
    [HelloMessage(share),
     Encode(AuthFields(env.identity,
         env.suite.sign(env.identity.privateKey, SignedMessage(signing.clientPublic, share), signing.ephemeral.salt)))]
  }

  /** The responses with the nonces their records drew. */
  function Numbered(env: Setting, replies: seq<Bytes>): seq<Sent> {
    seq(|replies|, i requires 0 <= i < |replies| => Sent(replies[i], env.nonce(i)))
  }

  /** Everything an established connection has queued: its flight, then record 0, 1, 2, ... */
  function ServerStream(env: Setting, s: ServerCore, replies: seq<Bytes>): Bytes
    requires s.serverWriteKey.Some? && s.signings != []
  {
    FrameAll(FlightFor(env.tls, s.signings[0]))
        + FrameAll(Records(env.tls.suite, s.serverWriteKey.value, Numbered(env, replies)))
  }

  /** What has been queued, on either path: the responses as they are, or nothing
      yet, or the flight and the numbered records of the responses. */
  predicate Shaped(env: Setting, c: Conn) {
    match c.tls
    case None => c.queued == Flatten(c.replies)
    case Some(end) =>
      || (c.queued == [] && c.replies == [])
      || (&& end.core.serverWriteKey.Some? && end.core.signings != []
          && |c.replies| <= LIMIT_64 && c.queued == ServerStream(env, end.core, c.replies))
  }

  /** The connection can take a response: on TLS, the handshake is done and its flight queued. */
  predicate Sending(env: Setting, c: Conn) {
    match c.tls
    case None => c.queued == Flatten(c.replies)
    case Some(end) =>
      && Layered(end.core) && end.core.phase == ServerEstablished && end.core.signings != []
      && end.core.sendSeq == |c.replies| <= LIMIT_64
      && c.queued == ServerStream(env, end.core, c.replies)
  }

  /** Between events: nothing is pending inside the TLS object, and before the
      handshake nothing has been queued or answered. */
  predicate TlsIdle(env: Setting, c: Conn) {
    c.tls.Some? ==>
      var s := c.tls.value.core;
      && Layered(s) && s.pendingWire == [] && s.plaintext == []
      && (s.phase == WaitClientHello ==> s.signings == [] && c.queued == [] && c.replies == [] && c.appended == [])
  }

  /** The responses made are those of the plaintext received: all of them while no
      response has closed, and at least those up to the first closing one after that. */
  predicate Answering(env: Setting, c: Conn) {
    Regular(env.site, c.appended) ==>
      var served := Serve(env.site, c.appended);
      if served.ending == Waiting then c.replies == served.replies && c.httpInput == served.rest
      else served.replies <= c.replies && c.closing
  }

  /** What holds of a connection that is open and whose event loop is running. */
  predicate Healthy(env: Setting, c: Conn) {
    && TlsIdle(env, c)
    && (c.tls.None? || c.tls.value.core.phase == ServerEstablished ==> Sending(env, c))
    && Answering(env, c)
    && (c.tls.None? ==> c.appended == c.wireIn)
  }

  predicate Inv(env: Setting, c: Conn) {
    && OutputOk(c) && Shaped(env, c)
    && c.link != Closed(SendRefused)
    && (c.loop == Running && c.link != Closed(TlsError) ==> Healthy(env, c))
    && (c.loop == Spins ==> MaySpin(env, c))
  }

  /** The request loop can fail to return only on a negative length, or behind a response that closes. */
  predicate MaySpin(env: Setting, c: Conn) {
    Regular(env.site, c.appended) ==> Serve(env.site, c.appended).ending == Closing
  }

  // ---- one response ----

  lemma NumberedSnoc(env: Setting, replies: seq<Bytes>, text: Bytes)
    ensures Numbered(env, replies + [text]) == Numbered(env, replies) + [Sent(text, env.nonce(|replies|))]
  {
  }

  lemma StreamSnoc(env: Setting, s: ServerCore, replies: seq<Bytes>, text: Bytes)
    requires s.serverWriteKey.Some? && s.signings != []
    ensures ServerStream(env, s, replies + [text]) == ServerStream(env, s, replies)
      + Frame(Record(env.tls.suite, s.serverWriteKey.value, |replies|, env.nonce(|replies|), text))
  {
    var log := Numbered(env, replies);
    var key := s.serverWriteKey.value;
    NumberedSnoc(env, replies, text);
    RecordsSnoc(env.tls.suite, key, log, Sent(text, env.nonce(|replies|)));
    FrameAllSnoc(Records(env.tls.suite, key, log), Record(env.tls.suite, key, |replies|, env.nonce(|replies|), text));
  }

  lemma QueueOk(c: Conn, data: Bytes)
    requires OutputOk(c) && c.link.Open?
    ensures OutputOk(Queue(c, data)) && Queue(c, data).queued == c.queued + data
    ensures data != [] ==> Queue(c, data).output != []
  {
    ConcatAssoc(c.sent, c.output, data);
    assert c.queued + [] == c.queued;
  }

  /** Sending moves nothing of the TLS end but its send counter. */
  predicate TlsUnmoved(c: Conn, d: Conn) {
    && d.tls.Some? == c.tls.Some?
    && (c.tls.Some? ==>
          d.tls.value == TlsEnd(c.tls.value.core.(sendSeq := d.tls.value.core.sendSeq), c.tls.value.buffer))
  }

  /** From `c` to `d` these responses were made and queued, in order, unless an
      exception escaped on the way; nothing else happened to the stream. */
  predicate Made(env: Setting, c: Conn, d: Conn, replies: seq<Bytes>) {
    && OutputOk(d) && Shaped(env, d) && d.link.Open? && TlsUnmoved(c, d)
    && d.appended == c.appended && d.wireIn == c.wireIn
    && (d.loop == Running ==> Sending(env, d) && d.replies == c.replies + replies)
  }

  lemma SendPlain(env: Setting, c: Conn, text: Bytes)
    requires c.link.Open? && c.loop == Running && OutputOk(c) && Sending(env, c) && text != [] && c.tls.None?
    ensures var d := SendApplication(env, c, text);
      Made(env, c, d, [text]) && d.output != [] && d.httpInput == c.httpInput && d.closing == c.closing
          && d.loop == Running
  {
    FlattenSnoc(c.replies, text);
    QueueOk(c.(replies := c.replies + [text]), text);
  }

  /** protect_application_data on an established end: a framed record, or an exception
      that is not a ToyTLSProtocolError. */
  lemma Protects(env: ServerEnv, s: ServerCore, text: Bytes, nonce: Nonce)
    requires Layered(s) && s.phase == ServerEstablished
    ensures var (core, wire) := ServerProtect(env, s, text, nonce);
      && core == s.(sendSeq := core.sendSeq)
      && (wire.Ok? ==>
            && s.sendSeq < LIMIT_64 && core.sendSeq == s.sendSeq + 1
            && wire.value == Frame(Record(env.suite, s.serverWriteKey.value, s.sendSeq, nonce, text))
                 && wire.value != [])
      && (wire.Err? ==> wire.error != ProtocolError)
  {
  }

  lemma SendRecord(env: Setting, c: Conn, text: Bytes)
    requires c.link.Open? && c.loop == Running && OutputOk(c) && Sending(env, c) && c.tls.Some?
    ensures var d := SendApplication(env, c, text);
      Made(env, c, d, [text]) && d.httpInput == c.httpInput && d.closing == c.closing
      && (d.loop == Running ==> d.output != []) && d.loop != Spins
  {
    var end := c.tls.value;
    var (core, wire) := ServerProtect(env.tls, end.core, text, env.nonce(end.core.sendSeq));
    Protects(env.tls, end.core, text, env.nonce(end.core.sendSeq));
    if wire.Ok? {
      StreamSnoc(env, end.core, c.replies, text);
      QueueOk(c.(replies := c.replies + [text], tls := Some(TlsEnd(core, end.buffer))), wire.value);
    }
  }

  /** A response on a connection that can send is queued, in the form of its path, and
      never refused: either it goes out or the exception escapes. */
  lemma SendKeeps(env: Setting, c: Conn, text: Bytes)
    requires c.link.Open? && c.loop == Running && OutputOk(c) && Sending(env, c) && text != []
    ensures var d := SendApplication(env, c, text);
      Made(env, c, d, [text]) && d.httpInput == c.httpInput && d.closing == c.closing
      && (d.loop == Running ==> d.output != []) && d.loop != Spins
  {
    if c.tls.None? {
      SendPlain(env, c, text);
    } else {
      SendRecord(env, c, text);
    }
  }

  // ---- the request loop ----

  /** What the request loop leaves is what the pipeline says. */
  predicate Handled(env: Setting, c: Conn, d: Conn, served: Served) {
    && Made(env, c, d, served.replies)
    && (d.loop == Spins ==> served.ending == Spinning)
    && (d.loop == Running ==> served.ending != Spinning)
    && (d.loop == Running ==> d.httpInput == served.rest && d.closing == (c.closing || served.ending == Closing))
  }

  lemma MadeTwice(env: Setting, c: Conn, m: Conn, d: Conn, reply: Bytes, more: seq<Bytes>)
    requires m.loop == Running && Made(env, c, m, [reply]) && Made(env, m, d, more)
    ensures Made(env, c, d, [reply] + more)
  {
    ConcatAssoc(c.replies, [reply], more);
  }

  lemma {:induction false} HandleWaits(env: Setting, c: Conn)
    requires c.link.Open? && c.loop == Running && OutputOk(c) && Sending(env, c)
    requires Parse(c.httpInput).Nothing? || Parse(c.httpInput).Incomplete?
    ensures Handled(env, c, HandleHttp(env, c), Serve(env.site, c.httpInput))
  {
    assert c.replies + [] == c.replies;
  }

  lemma {:induction false} HandleRejects(env: Setting, c: Conn)
    requires Speaks(env.site)
    requires c.link.Open? && c.loop == Running && OutputOk(c) && Sending(env, c)
    requires Parse(c.httpInput).Invalid?
    ensures Handled(env, c, HandleHttp(env, c), Serve(env.site, c.httpInput))
  {
    SendKeeps(env, c, env.site.reject(Parse(c.httpInput).reason));
  }

  /** The turn that answers the first request, and is the last one. */
  lemma {:induction false} HandleEnds(env: Setting, c: Conn, message: HTTPMessage, consumed: int)
    requires Speaks(env.site)
    requires c.link.Open? && c.loop == Running && OutputOk(c) && Sending(env, c)
    requires Parse(c.httpInput) == Parsed(message, consumed)
    requires env.site.respond(message).close || |DropPy(c.httpInput, consumed)| >= |c.httpInput|
    ensures Handled(env, c, HandleHttp(env, c), Serve(env.site, c.httpInput))
  {
    AnswerKeeps(env, c, message, consumed);
  }

  /** The turn behind which the loop goes on. */
  lemma {:induction false} HandleGoesOn(env: Setting, c: Conn, message: HTTPMessage, consumed: int)
    requires Speaks(env.site)
    requires c.link.Open? && c.loop == Running && OutputOk(c) && Sending(env, c)
    requires Parse(c.httpInput) == Parsed(message, consumed)
    requires !env.site.respond(message).close && |DropPy(c.httpInput, consumed)| < |c.httpInput|
    requires var d := AnswerRequest(env, c, message, consumed);
      d.loop == Running ==> Handled(env, d, HandleHttp(env, d), Serve(env.site, d.httpInput))
    ensures Handled(env, c, HandleHttp(env, c), Serve(env.site, c.httpInput))
  {
    var d := AnswerRequest(env, c, message, consumed);
    AnswerKeeps(env, c, message, consumed);
    if d.loop == Running {
      var reply := env.site.respond(message).bytes;
      var served := Serve(env.site, d.httpInput);
      MadeTwice(env, c, d, HandleHttp(env, d), reply, served.replies);
      assert Serve(env.site, c.httpInput) == Pipeline.Prefixed(reply, Removed(c.httpInput, consumed), served);
    }
  }

  /** The request loop makes exactly the responses of its buffer, in order, and leaves
      what the pipeline leaves, unless an exception escapes or it never returns. */
  lemma {:induction false} HandleKeeps(env: Setting, c: Conn)
    requires Speaks(env.site)
    requires c.link.Open? && c.loop == Running && OutputOk(c) && Sending(env, c)
    ensures Handled(env, c, HandleHttp(env, c), Serve(env.site, c.httpInput))
    decreases |c.httpInput|
  {
    match Parse(c.httpInput)
    case Nothing => HandleWaits(env, c);
    case Incomplete => HandleWaits(env, c);
    case Invalid(reason) => HandleRejects(env, c);
    case Parsed(message, consumed) =>
      if env.site.respond(message).close || |DropPy(c.httpInput, consumed)| >= |c.httpInput| {
        HandleEnds(env, c, message, consumed);
      } else {
        AnswerKeeps(env, c, message, consumed);
        var d := AnswerRequest(env, c, message, consumed);
        if d.loop == Running {
          HandleKeeps(env, d);
        }
        HandleGoesOn(env, c, message, consumed);
      }
  }

  lemma AnswerKeeps(env: Setting, c: Conn, message: HTTPMessage, consumed: int)
    requires Speaks(env.site)
    requires c.link.Open? && c.loop == Running && OutputOk(c) && Sending(env, c)
    ensures var d := AnswerRequest(env, c, message, consumed);
      && Made(env, c, d, [env.site.respond(message).bytes])
      && d.httpInput == DropPy(c.httpInput, consumed) && |d.httpInput| <= |c.httpInput| && d.loop != Spins
      && (d.loop == Running ==> d.closing == (c.closing || env.site.respond(message).close))
  {
    SendKeeps(env, c.(httpInput := DropPy(c.httpInput, consumed)), env.site.respond(message).bytes);
    AnswerShrinks(env, c, message, consumed);
  }

  /** New plaintext keeps a healthy connection healthy. */
  lemma AppendKeeps(env: Setting, c: Conn, text: Bytes)
    requires Speaks(env.site) && c.link.Open? && c.loop == Running && OutputOk(c)
    requires Sending(env, c) && TlsIdle(env, c) && Answering(env, c)
    ensures var d := Append(env, c, text);
      && OutputOk(d) && Shaped(env, d) && d.link.Open? && TlsUnmoved(c, d)
      && d.appended == c.appended + text && d.wireIn == c.wireIn
      && (d.loop == Running ==> Sending(env, d) && TlsIdle(env, d) && Answering(env, d))
      && (d.loop == Spins ==> MaySpin(env, d))
  {
    var fed := c.(httpInput := c.httpInput + text, appended := c.appended + text);
    HandleKeeps(env, fed);
    if Regular(env.site, fed.appended) {
      RegularPrefix(env.site, c.appended, text);
      ServeAppend(env.site, c.appended, text);
      var served := Serve(env.site, c.appended);
      if served.ending == Waiting {
        ServeConserves(env.site, served.rest + text);
      } else {
        ServeConserves(env.site, c.appended);
      }
    }
  }

  // ---- reading from the TLS end ----

  /** What any bytes at all do to the server end. An established end changes only what
      it has received. A waiting end that does not raise either stays as it was or is
      established by its first signature, with that signature's flight pending. */
  ghost predicate Moved(env: ServerEnv, s: ServerCore, t: ServerCore, raised: bool) {
    && (s.phase == ServerEstablished ==> t == s.(recvSeq := t.recvSeq, plaintext := t.plaintext))
    && (s.phase == WaitClientHello && !raised ==>
          t == s || (t.phase == ServerEstablished && Layered(t) && |t.signings| == 1 && t.sendSeq == 0
                     && t.pendingWire == s.pendingWire + FrameAll(FlightFor(env, t.signings[0]))))
  }

  lemma HelloMoves(env: ServerEnv, s: ServerCore, record: Bytes)
    requires Layered(s) && s.phase == WaitClientHello && s.signings == []
    ensures var step := ServerHandler(env)(s, record);
      step.error.None? ==> Moved(env, s, step.core, false) && step.core.phase == ServerEstablished
  {
    var step := HandleClientHello(env, s, record);
    if step.error.None? {
      var flight := FlightFor(env, step.core.signings[0]);
      HelloFits(env.suite.publicKey(step.core.signings[0].ephemeral.privateKey));
      FrameAllSnoc([flight[0]], flight[1]);
      assert [flight[0]] + [flight[1]] == flight;
      assert FrameAll([flight[0]]) == Frame(flight[0]) + FrameAll([]);
      ConcatAssoc(s.pendingWire, Frame(flight[0]), Frame(flight[1]));
    }
  }

  lemma {:induction false} DrainMoves(env: ServerEnv, s: ServerCore, buffer: Bytes)
    requires Layered(s) && (s.phase == WaitClientHello ==> s.signings == [])
    ensures var fed := Drain(ServerHandler(env), s, buffer);
      Moved(env, s, fed.core, fed.error.Some?)
    decreases |buffer|
  {
    var pop := PopFrom(buffer);
    if pop.Popped? {
      var step := ServerHandler(env)(s, pop.payload);
      if s.phase == WaitClientHello {
        HelloMoves(env, s, pop.payload);
      }
      if step.error.None? {
        DrainMoves(env, step.core, pop.rest);
      }
    }
  }

  /** Keys, once set, and the signature behind them never change. */
  predicate Forward(c: Conn, d: Conn) {
    && c.tls.Some? == d.tls.Some?
    && (c.tls.Some? && c.tls.value.core.phase == ServerEstablished ==>
          && d.tls.value.core.phase == ServerEstablished
          && d.tls.value.core.clientWriteKey == c.tls.value.core.clientWriteKey
          && d.tls.value.core.serverWriteKey == c.tls.value.core.serverWriteKey
          && d.tls.value.core.signings == c.tls.value.core.signings)
  }

  /** After the handshake the flight is the whole stream. */
  lemma FlightStarts(env: Setting, s: ServerCore)
    requires s.serverWriteKey.Some? && |s.signings| == 1
    ensures ServerStream(env, s, []) == FrameAll(FlightFor(env.tls, s.signings[0]))
  {
    assert Numbered(env, []) == [];
    assert Records(env.tls.suite, s.serverWriteKey.value, []) == [];
  }

  /** The state between feed_wire_data and http_input.append. */
  lemma QueuedFlight(env: Setting, c: Conn, fed: Fed<ServerCore>)
    requires Inv(env, c) && c.link.Open? && c.loop == Running && c.tls.Some?
    requires fed.error.None? && Moved(env.tls, c.tls.value.core, fed.core, false)
    ensures var e := Emptied(c, fed);
      && OutputOk(e) && Shaped(env, e) && Healthy(env, e) && Forward(c, e) && e.link.Open? && e.loop == Running
      && (fed.core.plaintext != [] ==> Sending(env, e))
  {
    var s := c.tls.value.core;
    var core := fed.core.(pendingWire := [], plaintext := []);
    QueueOk(c.(tls := Some(TlsEnd(core, fed.buffer))), fed.core.pendingWire);
    if s.phase == WaitClientHello && fed.core != s {
      FlightStarts(env, core);
      assert [] + FrameAll(FlightFor(env.tls, core.signings[0])) == FrameAll(FlightFor(env.tls, core.signings[0]));
    }
  }

  lemma ReadTlsKeeps(env: Setting, c: Conn, bytes: Bytes)
    requires Speaks(env.site) && Inv(env, c) && c.link.Open? && c.loop == Running && c.tls.Some? && bytes != []
    ensures Inv(env, Read(env, c, Data(bytes))) && Forward(c, Read(env, c, Data(bytes)))
  {
    var end := c.tls.value;
    var fed := Feed(ServerHandler(env.tls), end.core, end.buffer, bytes);
    var took := c.(wireIn := c.wireIn + bytes);
    DrainMoves(env.tls, end.core, end.buffer + bytes);
    DecryptedKeeps(env, took, fed);
  }

  lemma DecryptedKeeps(env: Setting, c: Conn, fed: Fed<ServerCore>)
    requires Speaks(env.site) && Inv(env, c) && c.link.Open? && c.loop == Running && c.tls.Some?
    requires Moved(env.tls, c.tls.value.core, fed.core, fed.error.Some?)
    ensures Inv(env, Decrypted(env, c, fed)) && Forward(c, Decrypted(env, c, fed))
  {
    if fed.error.Some? {
      FailedFeedKeeps(env, c, fed);
    } else {
      QueuedFlight(env, c, fed);
      if fed.core.plaintext != [] {
        PlaintextKeeps(env, Emptied(c, fed), fed.core.plaintext);
      }
    }
  }

  /** The stream of a connection depends on its key and its signature alone. */
  lemma SameStream(env: Setting, s: ServerCore, t: ServerCore, replies: seq<Bytes>)
    requires s.serverWriteKey.Some? && s.signings != []
    requires t.serverWriteKey == s.serverWriteKey && t.signings == s.signings
    ensures ServerStream(env, t, replies) == ServerStream(env, s, replies)
  {
  }

  lemma FailedFeedShaped(env: Setting, c: Conn, fed: Fed<ServerCore>)
    requires Shaped(env, c) && TlsIdle(env, c) && c.tls.Some?
    requires Moved(env.tls, c.tls.value.core, fed.core, true)
    ensures Shaped(env, c.(tls := Some(TlsEnd(fed.core, fed.buffer))))
  {
    if c.queued != [] || c.replies != [] {
      SameStream(env, c.tls.value.core, fed.core, c.replies);
    }
  }

  lemma FailedFeedKeeps(env: Setting, c: Conn, fed: Fed<ServerCore>)
    requires Inv(env, c) && c.link.Open? && c.loop == Running && c.tls.Some? && fed.error.Some?
    requires Moved(env.tls, c.tls.value.core, fed.core, true)
    ensures Inv(env, Decrypted(env, c, fed)) && Forward(c, Decrypted(env, c, fed))
  {
    FailedFeedShaped(env, c, fed);
    var d := c.(tls := Some(TlsEnd(fed.core, fed.buffer)));
    var last := Decrypted(env, c, fed);
    assert last == d.(link := last.link, writeInterest := last.writeInterest, loop := last.loop);
  }

  lemma PlaintextKeeps(env: Setting, c: Conn, text: Bytes)
    requires Speaks(env.site) && Inv(env, c) && c.link.Open? && c.loop == Running && c.tls.Some? && Sending(env, c)
    ensures Inv(env, Append(env, c, text)) && Forward(c, Append(env, c, text))
  {
    AppendKeeps(env, c, text);
  }

  lemma ReadPlainKeeps(env: Setting, c: Conn, bytes: Bytes)
    requires Speaks(env.site) && Inv(env, c) && c.link.Open? && c.loop == Running && c.tls.None? && bytes != []
    ensures Inv(env, Read(env, c, Data(bytes))) && Forward(c, Read(env, c, Data(bytes)))
  {
    AppendKeeps(env, c.(wireIn := c.wireIn + bytes), bytes);
  }

  /** What happens at the socket alone leaves the streams as they are. */
  lemma SocketKeeps(env: Setting, c: Conn, d: Conn)
    requires Inv(env, c) && c.link.Open? && c.loop == Running
    requires d == c.(link := d.link, writeInterest := d.writeInterest, output := d.output, sent := d.sent,
                     closing := d.closing)
    requires OutputOk(d) && d.link != Closed(SendRefused) && (c.closing ==> d.closing)
    ensures Inv(env, d) && Forward(c, d)
  {
  }

  lemma ReadKeeps(env: Setting, c: Conn, r: Recv)
    requires Speaks(env.site) && Inv(env, c) && c.link.Open? && c.loop == Running
    ensures Inv(env, Read(env, c, r)) && Forward(c, Read(env, c, r))
  {
    if r.Data? && r.bytes != [] {
      if c.tls.Some? {
        ReadTlsKeeps(env, c, r.bytes);
      } else {
        ReadPlainKeeps(env, c, r.bytes);
      }
    } else {
      SocketKeeps(env, c, Read(env, c, r));
    }
  }

  lemma FlushOutputOk(c: Conn, r: SendResult)
    requires OutputOk(c) && c.link.Open?
    ensures OutputOk(Flush(c, r))
  {
    if r.Took? {
      var k := if r.n <= |c.output| then r.n else |c.output|;
      assert (c.sent + c.output[..k]) + c.output[k..] == c.sent + c.output;
    }
  }

  lemma FlushKeeps(env: Setting, c: Conn, r: SendResult)
    requires Inv(env, c) && c.link.Open? && c.loop == Running
    ensures Inv(env, Flush(c, r)) && Forward(c, Flush(c, r))
  {
    FlushOutputOk(c, r);
    SocketKeeps(env, c, Flush(c, r));
  }

  lemma {:induction false} ServiceKeeps(env: Setting, c: Conn, e: Event)
    requires Speaks(env.site) && Inv(env, c)
    ensures Inv(env, Service(env, c, e)) && Forward(c, Service(env, c, e))
  {
    if Reported(c, e) {
      var d := c;
      if e.read.Some? {
        ReadKeeps(env, c, e.read.value);
        d := Read(env, c, e.read.value);
      }
      if d.loop == Running && d.link.Open? && e.write.Some? {
        FlushKeeps(env, d, e.write.value);
      }
    }
  }

  lemma {:induction false} RunKeeps(env: Setting, c: Conn, events: seq<Event>)
    requires Speaks(env.site) && Inv(env, c)
    ensures Inv(env, Run(env, c, events)) && Forward(c, Run(env, c, events))
    decreases |events|
  {
    if events != [] {
      ServiceKeeps(env, c, events[0]);
      RunKeeps(env, Service(env, c, events[0]), events[1..]);
    }
  }

  lemma AcceptedInv(env: Setting, ssl: bool)
    ensures Inv(env, Accepted(ssl))
  {
  }

  // ---- the theorems ----

  /** Output conservation and no stuck connection, in every state between events. */
  lemma {:induction false} OutputConserved(env: Setting, ssl: bool, events: seq<Event>)
    requires Speaks(env.site)
    ensures var c := Run(env, Accepted(ssl), events);
      && c.sent + c.output == c.queued
      && (c.link.Open? && c.output != [] ==> c.writeInterest)
      && (c.link.Open? && c.closing ==> c.output != [] && c.writeInterest)
      && (c.link.Closed? && c.link.reason != SocketError && c.link.reason != TlsError ==> c.output == [])
  {
    AcceptedInv(env, ssl);
    RunKeeps(env, Accepted(ssl), events);
  }

  /** Server wire shape: everything a TLS connection has ever queued is nothing, or its
      ServerHello, its ServerAuth and then the records of its responses numbered from
      zero; what has been sent is a prefix of that. */
  lemma {:induction false} ServerWireShape(env: Setting, events: seq<Event>)
    requires Speaks(env.site)
    ensures var c := Run(env, Accepted(true), events);
      && c.tls.Some? && c.sent <= c.queued
      && ((c.queued == [] && c.replies == [])
          || (var s := c.tls.value.core;
              && s.serverWriteKey.Some? && s.signings != [] && |c.replies| <= LIMIT_64
              && c.queued == FrameAll(FlightFor(env.tls, s.signings[0])
                                        + Records(env.tls.suite, s.serverWriteKey.value, Numbered(env, c.replies)))))
  {
    AcceptedInv(env, true);
    RunKeeps(env, Accepted(true), events);
    var c := Run(env, Accepted(true), events);
    if c.tls.value.core.serverWriteKey.Some? && c.tls.value.core.signings != [] {
      FrameAllAppend(FlightFor(env.tls, c.tls.value.core.signings[0]),
                     Records(env.tls.suite, c.tls.value.core.serverWriteKey.value, Numbered(env, c.replies)));
    }
  }

  lemma {:induction false} RecordNumber(s: Suite, key: Bytes, log: seq<Sent>, i: nat)
    requires i < |log|
    ensures Records(s, key, log)[i][..SEQ_LEN] == Pack(i, SEQ_LEN)
  {
  }

  /** A list of payloads numbered from zero, as far as the counter goes. */
  predicate NumberedApart(records: seq<Bytes>) {
    && (forall i :: 0 <= i < |records| ==> |records[i]| >= SEQ_LEN && records[i][..SEQ_LEN] == Pack(i, SEQ_LEN))
    && (forall i, j :: 0 <= i < j < |records| ==> records[i][..SEQ_LEN] != records[j][..SEQ_LEN])
  }

  lemma RecordsApart(s: Suite, key: Bytes, log: seq<Sent>)
    requires |log| <= LIMIT_64
    ensures NumberedApart(Records(s, key, log))
  {
    var records := Records(s, key, log);
    forall i | 0 <= i < |records|
      ensures |records[i]| >= SEQ_LEN && records[i][..SEQ_LEN] == Pack(i, SEQ_LEN)
    {
      RecordNumber(s, key, log, i);
    }
    forall i, j | 0 <= i < j < |records|
      ensures records[i][..SEQ_LEN] != records[j][..SEQ_LEN]
    {
      Capacities();
      if Pack(i, SEQ_LEN) == Pack(j, SEQ_LEN) {
        PackInjective(i, j, SEQ_LEN);
      }
    }
  }

  /** No sequence number is used twice: whatever a TLS connection has queued in any run is
      nothing, or the frames of two handshake messages and then of one payload for each
      response, all sealed under the one key of the connection and no two with one number. */
  lemma {:induction false} RecordsNeverRepeat(env: Setting, events: seq<Event>)
    requires Speaks(env.site)
    ensures var c := Run(env, Accepted(true), events);
      c.queued != [] ==>
        exists hello, auth, records ::
          && c.queued == FrameAll([hello, auth] + records)
          && NumberedApart(records)
          && |records| == |c.replies|
          && c.tls.Some? && c.tls.value.core.serverWriteKey.Some?
          && records == Records(env.tls.suite, c.tls.value.core.serverWriteKey.value, Numbered(env, c.replies))
  {
    ServerWireShape(env, events);
    var c := Run(env, Accepted(true), events);
    if c.queued != [] {
      var s := c.tls.value.core;
      var flight := FlightFor(env.tls, s.signings[0]);
      var records := Records(env.tls.suite, s.serverWriteKey.value, Numbered(env, c.replies));
      RecordsApart(env.tls.suite, s.serverWriteKey.value, Numbered(env, c.replies));
      assert flight == [flight[0], flight[1]];
      assert c.queued == FrameAll([flight[0], flight[1]] + records);
    }
  }
}
