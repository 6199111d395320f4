/** The socket side of a connection (tls_web_server/server.py): when the selector is asked
    for write events, what one event sends, when a connection is marked closing and when
    it is closed, and that no peer can make the event loop raise. */
module LinkRuns {
  import opened Wire
  import opened Framing
  import opened Messages
  import opened Crypto
  import opened Connection
  import opened Http
  import opened Pipeline
  import opened Server
  import opened ConnectionRuns
  import opened ReplyRule
  import opened Transparency
  import opened SteadyRuns

  // ---- write interest ----

  /** The selector is asked for write events exactly while there is something to send. */
  predicate Registered(c: Conn) {
    c.writeInterest <==> c.link.Open? && c.output != []
  }

  lemma SendRegistered(env: Setting, c: Conn, text: Bytes)
    requires Registered(c)
    ensures Registered(SendApplication(env, c, text))
  {
  }

  lemma AnswerRegistered(env: Setting, c: Conn, message: HTTPMessage, consumed: int)
    requires Registered(c)
    ensures Registered(AnswerRequest(env, c, message, consumed))
  {
    SendRegistered(env, c.(httpInput := DropPy(c.httpInput, consumed)), env.site.respond(message).bytes);
  }

  lemma {:induction false} HandleRegistered(env: Setting, c: Conn)
    requires Registered(c)
    ensures Registered(HandleHttp(env, c))
    decreases |c.httpInput|
  {
    if c.link.Open? {
      match Parse(c.httpInput)
      case Invalid(reason) => SendRegistered(env, c, env.site.reject(reason));
      case Parsed(message, consumed) =>
        var d := AnswerRequest(env, c, message, consumed);
        AnswerRegistered(env, c, message, consumed);
        if |d.httpInput| < |c.httpInput| {
          HandleRegistered(env, d);
        }
      case _ =>
    }
  }

  lemma AppendRegistered(env: Setting, c: Conn, text: Bytes)
    requires Registered(c)
    ensures Registered(Append(env, c, text))
  {
    HandleRegistered(env, c.(httpInput := c.httpInput + text, appended := c.appended + text));
  }

  lemma DecryptedRegistered(env: Setting, c: Conn, fed: Fed<ServerCore>)
    requires Registered(c) && c.tls.Some?
    ensures Registered(Decrypted(env, c, fed))
  {
    if fed.error.None? && fed.core.plaintext != [] {
      AppendRegistered(env, Emptied(c, fed), fed.core.plaintext);
    }
  }

  lemma ReadRegistered(env: Setting, c: Conn, r: Recv)
    requires Registered(c)
    ensures Registered(Read(env, c, r))
  {
    if r.Data? && r.bytes != [] {
      var took := c.(wireIn := c.wireIn + r.bytes);
      if c.tls.None? {
        AppendRegistered(env, took, r.bytes);
      } else {
        DecryptedRegistered(env, took, Feed(ServerHandler(env.tls), c.tls.value.core, c.tls.value.buffer, r.bytes));
      }
    }
  }

  lemma FlushRegistered(c: Conn, r: SendResult)
    requires Registered(c) && c.link.Open?
    ensures Registered(Flush(c, r))
  {
  }

  lemma {:induction false} RunRegistered(env: Setting, c: Conn, events: seq<Event>)
    requires Registered(c)
    ensures Registered(Run(env, c, events))
    decreases |events|
  {
    if events != [] {
      var e := events[0];
      if Reported(c, e) {
        var d := if e.read.Some? then Read(env, c, e.read.value) else c;
        if e.read.Some? {
          ReadRegistered(env, c, e.read.value);
        }
        if d.loop == Running && d.link.Open? && e.write.Some? {
          FlushRegistered(d, e.write.value);
        }
      }
      RunRegistered(env, Service(env, c, e), events[1..]);
    }
  }

  /** In every state of every run, for every site and whatever the peer sends: the selector
      is asked for write events if and only if the connection is open and has output waiting. */
  lemma {:induction false} WriteInterestIff(env: Setting, ssl: bool, events: seq<Event>)
    ensures var c := Run(env, Accepted(ssl), events);
      c.writeInterest <==> c.link.Open? && c.output != []
  {
    RunRegistered(env, Accepted(ssl), events);
  }

  // ---- sending ----

  /** send took n bytes: exactly those move from the front of the output to what was sent. */
  lemma {:induction false} SendMoves(env: Setting, c: Conn, n: nat)
    requires c.link.Open? && c.loop == Running && c.writeInterest && n <= |c.output|
    ensures var d := Service(env, c, Event(None, Some(Took(n))));
      && |d.sent| == |c.sent| + n && d.sent + d.output == c.sent + c.output
      && (n < |c.output| ==> d == c.(sent := d.sent, output := d.output))
  {
    assert (c.sent + c.output[..n]) + c.output[n..] == c.sent + c.output;
  }

  // ---- closing and closed ----

  predicate EndOfStream(e: Event) {
    e.read == Some(Data([]))
  }

  /** The bytes that one event brings, and how the TLS end takes them. */
  predicate FeedRaises(env: Setting, c: Conn, e: Event, error: Error) {
    Brings(c, e) && c.tls.Some?
    && Drain(ServerHandler(env.tls), c.tls.value.core, c.tls.value.buffer + e.read.value.bytes).error == Some(error)
  }

  /** What closes a connection before anything is written: a socket error, the end of the
      stream with nothing waiting, or one of the three exceptions that are caught. */
  predicate ReadCloses(env: Setting, c: Conn, e: Event) {
    || e.read == Some(RecvError)
    || (EndOfStream(e) && c.output == [])
    || FeedRaises(env, c, e, ProtocolError) || FeedRaises(env, c, e, ValueError) || FeedRaises(env, c, e, InvalidTag)
  }

  lemma DecryptedStays(env: Setting, c: Conn, fed: Fed<ServerCore>)
    requires Speaks(env.site) && Inv(env, c) && c.link.Open? && c.loop == Running && c.tls.Some?
    requires Moved(env.tls, c.tls.value.core, fed.core, false) && fed.error.None?
    ensures Decrypted(env, c, fed).link.Open?
  {
    QueuedFlight(env, c, fed);
    if fed.core.plaintext != [] {
      AppendKeeps(env, Emptied(c, fed), fed.core.plaintext);
    }
  }

  lemma DecryptedCloses(env: Setting, c: Conn, fed: Fed<ServerCore>)
    requires Speaks(env.site) && Inv(env, c) && c.link.Open? && c.loop == Running && c.tls.Some?
    requires Moved(env.tls, c.tls.value.core, fed.core, fed.error.Some?)
    ensures Decrypted(env, c, fed).link.Closed? <==>
      fed.error == Some(ProtocolError) || fed.error == Some(ValueError) || fed.error == Some(InvalidTag)
  {
    if fed.error.None? {
      DecryptedStays(env, c, fed);
    }
  }

  lemma TlsBringsCloses(env: Setting, c: Conn, e: Event)
    requires Speaks(env.site) && Inv(env, c) && Brings(c, e) && c.tls.Some?
    ensures Read(env, c, e.read.value).link.Closed? <==> ReadCloses(env, c, e)
  {
    var bytes := e.read.value.bytes;
    ReadIsDrain(env, c, bytes);
    DrainMoves(env.tls, c.tls.value.core, c.tls.value.buffer + bytes);
    DecryptedCloses(env, c.(wireIn := c.wireIn + bytes),
                    Drain(ServerHandler(env.tls), c.tls.value.core, c.tls.value.buffer + bytes));
  }

  lemma PlainBringsStays(env: Setting, c: Conn, bytes: Bytes)
    requires Speaks(env.site) && Inv(env, c) && c.link.Open? && c.loop == Running && c.tls.None? && bytes != []
    ensures Read(env, c, Data(bytes)).link.Open?
  {
    AppendKeeps(env, c.(wireIn := c.wireIn + bytes), bytes);
  }

  lemma NothingBrought(env: Setting, c: Conn, e: Event)
    requires Reported(c, e) && e.read.Some? && !Brings(c, e)
    ensures Read(env, c, e.read.value).link.Closed? <==> ReadCloses(env, c, e)
  {
  }

  lemma ReadClosesIff(env: Setting, c: Conn, e: Event)
    requires Speaks(env.site) && Inv(env, c) && Reported(c, e) && e.read.Some?
    ensures Read(env, c, e.read.value).link.Closed? <==> ReadCloses(env, c, e)
  {
    if !Brings(c, e) {
      NothingBrought(env, c, e);
    } else if c.tls.Some? {
      TlsBringsCloses(env, c, e);
    } else {
      PlainBringsStays(env, c, e.read.value.bytes);
    }
  }

  lemma FlushCloses(c: Conn, r: SendResult)
    requires c.link.Open?
    ensures var d := Flush(c, r);
      d.link.Closed? <==> (d.output == [] && d.closing) || (d.output != [] && r == SendError)
  {
  }

  lemma ServiceCloses(env: Setting, c: Conn, e: Event, m: Conn)
    requires Reported(c, e) && m == if e.read.Some? then Read(env, c, e.read.value) else c
    requires m.link.Closed? <==> ReadCloses(env, c, e)
    ensures var d := Service(env, c, e);
      d.link.Closed? <==>
        || ReadCloses(env, c, e)
        || (e.write.Some? && d.loop == Running
            && ((d.output == [] && d.closing) || (d.output != [] && e.write == Some(SendError))))
  {
    if m.link.Open? && e.write.Some? {
      FlushCloses(m, e.write.value);
      FlushFull(env, m, e.write.value);
    }
  }

  /** One event closes a connection exactly if reading closes it, or if what was waiting is
      all sent and the connection is marked closing, or if sending fails. */
  lemma {:induction false} ClosedIff(env: Setting, c: Conn, e: Event)
    requires Speaks(env.site) && Inv(env, c) && Reported(c, e)
    ensures var d := Service(env, c, e);
      d.link.Closed? <==>
        || ReadCloses(env, c, e)
        || (e.write.Some? && d.loop == Running
            && ((d.output == [] && d.closing) || (d.output != [] && e.write == Some(SendError))))
  {
    if e.read.Some? {
      ReadClosesIff(env, c, e);
      ServiceCloses(env, c, e, Read(env, c, e.read.value));
    } else {
      ServiceCloses(env, c, e, c);
    }
  }

  /** The request loop makes a closing response to what this event hands up. */
  predicate Answers(env: Setting, c: Conn, e: Event) {
    ChunkOf(env, c, e) != [] && Serve(env.site, c.httpInput + ChunkOf(env, c, e)[0]).ending == Closing
  }

  lemma {:induction false} AppendClosing(env: Setting, c: Conn, text: Bytes)
    requires Speaks(env.site) && c.link.Open? && c.loop == Running && OutputOk(c) && Sending(env, c)
    ensures var d := Append(env, c, text);
      d.loop == Running ==> (d.closing <==> c.closing || Serve(env.site, c.httpInput + text).ending == Closing)
  {
    HandleKeeps(env, c.(httpInput := c.httpInput + text, appended := c.appended + text));
  }

  lemma DecryptedClosing(env: Setting, c: Conn, fed: Fed<ServerCore>)
    requires Speaks(env.site) && Inv(env, c) && c.link.Open? && c.loop == Running && c.tls.Some?
    requires Moved(env.tls, c.tls.value.core, fed.core, fed.error.Some?)
    ensures var d := Decrypted(env, c, fed);
      d.loop == Running ==>
        (d.closing <==>
          c.closing || (Handed(fed) != [] && Serve(env.site, c.httpInput + Handed(fed)[0]).ending == Closing))
  {
    if Handed(fed) != [] {
      QueuedFlight(env, c, fed);
      AppendClosing(env, Emptied(c, fed), fed.core.plaintext);
    }
  }

  lemma BringsClosing(env: Setting, c: Conn, e: Event)
    requires Speaks(env.site) && Inv(env, c) && Brings(c, e)
    ensures var m := Read(env, c, e.read.value);
      m.loop == Running ==> (m.closing <==> c.closing || Answers(env, c, e))
  {
    var bytes := e.read.value.bytes;
    var chunk := ChunkRead(env, c, e);
    if c.tls.None? {
      AppendClosing(env, c.(wireIn := c.wireIn + bytes), bytes);
    } else {
      ReadIsDrain(env, c, bytes);
      DrainMoves(env.tls, c.tls.value.core, c.tls.value.buffer + bytes);
      DecryptedClosing(env, c.(wireIn := c.wireIn + bytes),
                       Drain(ServerHandler(env.tls), c.tls.value.core, c.tls.value.buffer + bytes));
    }
  }

  lemma NothingMarks(env: Setting, c: Conn, e: Event)
    requires Reported(c, e) && e.read.Some? && !Brings(c, e)
    ensures Read(env, c, e.read.value).closing <==> c.closing || (EndOfStream(e) && c.output != [])
  {
  }

  lemma ReadMarks(env: Setting, c: Conn, e: Event, m: Conn)
    requires Speaks(env.site) && Inv(env, c) && Reported(c, e)
    requires m == if e.read.Some? then Read(env, c, e.read.value) else c
    ensures m.loop == Running ==>
      (m.closing <==> c.closing || Answers(env, c, e) || (EndOfStream(e) && c.output != []))
  {
    if Brings(c, e) {
      BringsClosing(env, c, e);
    } else if e.read.Some? {
      NothingMarks(env, c, e);
    }
  }

  /** Writing does not change the mark. */
  lemma FlushMarks(c: Conn, r: SendResult)
    ensures Flush(c, r).closing == c.closing && Flush(c, r).loop == c.loop
  {
  }

  lemma ServiceMarks(env: Setting, c: Conn, e: Event, m: Conn)
    requires Reported(c, e) && m == if e.read.Some? then Read(env, c, e.read.value) else c
    ensures Service(env, c, e).closing == m.closing && Service(env, c, e).loop == m.loop
  {
    if e.write.Some? {
      FlushMarks(m, e.write.value);
    }
  }

  /** One event marks a connection closing exactly if it makes a closing response, or is the
      end of the stream while output waits; and the mark stays. */
  lemma {:induction false} ClosingIff(env: Setting, c: Conn, e: Event)
    requires Speaks(env.site) && Inv(env, c) && Reported(c, e)
    ensures var d := Service(env, c, e);
      d.loop == Running ==>
        (d.closing <==> c.closing || Answers(env, c, e) || (EndOfStream(e) && c.output != []))
  {
    var m := if e.read.Some? then Read(env, c, e.read.value) else c;
    ReadMarks(env, c, e, m);
    ServiceMarks(env, c, e, m);
  }

  /** A peer that has finished is let go: the connection is closed at once, or as soon as
      everything queued before has been sent. */
  lemma {:induction false} FinishedPeerIsLetGo(env: Setting, ssl: bool, events: seq<Event>)
    requires Speaks(env.site)
    requires var c := Run(env, Accepted(ssl), events); c.link.Open? && c.loop == Running
    ensures var c := Run(env, Accepted(ssl), events);
      var d := Service(env, c, Event(Some(Data([])), None));
      && (c.output == [] ==> d.link == Closed(PeerFinished))
      && (c.output != [] ==>
            var last := Service(env, d, Event(None, Some(Took(|c.output|))));
            d.link.Open? && d.closing && last.link == Closed(ResponsesSent) && last.sent == c.queued)
  {
    AcceptedInv(env, ssl);
    RunKeeps(env, Accepted(ssl), events);
    RunRegistered(env, Accepted(ssl), events);
    var c := Run(env, Accepted(ssl), events);
    assert c.output[..|c.output|] == c.output;
  }

  /** A response on a TLS end that is not established would be refused and close the connection
      with nothing queued; that no run comes to it is LayerRuns.LayerSafety. */
  lemma {:induction false} RefusedSendCloses(env: Setting, c: Conn, text: Bytes)
    requires c.link.Open? && c.tls.Some? && c.tls.value.core.phase != ServerEstablished
    ensures var d := SendApplication(env, c, text);
      d == c.(link := Closed(SendRefused), writeInterest := false)
  {
  }

  // ---- no peer can make the event loop raise ----

  /** The ServerAuth of every handshake can be encoded and framed. */
  ghost predicate CertificatesFit(env: ServerEnv) {
    forall message, salt ::
      FramedMessage(AuthFields(env.identity, env.suite.sign(env.identity.privateKey, message, salt))).Some?
  }

  /** The exceptions of the TLS end that the server catches. */
  predicate Expected(error: Option<Error>) {
    error in {None, Some(ProtocolError), Some(ValueError), Some(InvalidTag)}
  }

  lemma HelloExpected(env: ServerEnv, s: ServerCore, record: Bytes)
    requires CertificatesFit(env)
    ensures Expected(HandleClientHello(env, s, record).error)
  {
    HelloFits(env.suite.publicKey(env.ephemeral(s.draws).privateKey));
  }

  lemma {:induction false} DrainExpected(env: ServerEnv, s: ServerCore, buffer: Bytes)
    requires CertificatesFit(env)
    ensures Expected(Drain(ServerHandler(env), s, buffer).error)
    decreases |buffer|
  {
    var pop := PopFrom(buffer);
    if pop.Popped? {
      HelloExpected(env, s, pop.payload);
      var step := ServerHandler(env)(s, pop.payload);
      if step.error.None? {
        DrainExpected(env, step.core, pop.rest);
      }
    }
  }

  lemma CaughtCloses(env: Setting, c: Conn, fed: Fed<ServerCore>)
    requires c.loop == Running && fed.error.Some? && Expected(fed.error)
    ensures Decrypted(env, c, fed).loop == Running && Handed(fed) == []
  {
  }

  lemma {:induction false} AnyReadFull(env: Setting, c: Conn, bytes: Bytes)
    requires Speaks(env.site) && SealOpens(env.tls.suite) && CertificatesFit(env.tls)
    requires Inv(env, c) && c.link.Open? && c.loop == Running && c.tls.Some? && bytes != []
    ensures var fed := Drain(ServerHandler(env.tls), c.tls.value.core, c.tls.value.buffer + bytes);
      FullAfter(env, c, Read(env, c, Data(bytes)), Handed(fed))
  {
    var fed := Drain(ServerHandler(env.tls), c.tls.value.core, c.tls.value.buffer + bytes);
    var took := c.(wireIn := c.wireIn + bytes);
    ReadIsDrain(env, c, bytes);
    DrainMoves(env.tls, c.tls.value.core, c.tls.value.buffer + bytes);
    DrainExpected(env.tls, c.tls.value.core, c.tls.value.buffer + bytes);
    if fed.error.Some? {
      CaughtCloses(env, took, fed);
    } else {
      DecryptedFull(env, took, fed);
    }
  }

  lemma AnyServiceFull(env: Setting, c: Conn, e: Event)
    requires Speaks(env.site) && SealOpens(env.tls.suite) && CertificatesFit(env.tls)
    requires Inv(env, c) && c.tls.Some? && c.loop == Running
    ensures FullAfter(env, c, Service(env, c, e), ChunkOf(env, c, e))
  {
    if !Brings(c, e) {
      QuietService(env, c, e);
    } else {
      AnyReadFull(env, c, e.read.value.bytes);
      var chunk := ChunkRead(env, c, e);
      ServiceFull(env, c, e, chunk);
    }
  }

  lemma {:induction false} AnyRunFull(env: Setting, c: Conn, events: seq<Event>)
    requires Speaks(env.site) && SealOpens(env.tls.suite) && CertificatesFit(env.tls)
    requires Inv(env, c) && c.tls.Some? && c.loop == Running
    ensures FullAfter(env, c, Run(env, c, events), Chunks(env, c, events))
    decreases |events|
  {
    if events != [] {
      var d := Service(env, c, events[0]);
      var first := ChunkOf(env, c, events[0]);
      ServiceKeeps(env, c, events[0]);
      ServicePasses(env, c, events[0]);
      if d.loop == Running {
        AnyRunFull(env, d, events[1..]);
        FullTwice(env, c, d, Run(env, c, events), first, Chunks(env, d, events[1..]));
      } else {
        StoppedStays(env, d, events[1..]);
        AnyServiceFull(env, c, events[0]);
        assert first + [] == first;
      }
    }
  }

  /** The event loop over a TLS connection, for every peer and any bytes at all: if the
      certificates fit, it goes on if and only if every pass of the request loop returns and
      every response that they make has its record; so what a peer does to the handshake or
      to the records never ends it. */
  lemma {:induction false} AnyPeerLoopExact(env: Setting, events: seq<Event>)
    requires Speaks(env.site) && SealOpens(env.tls.suite) && CertificatesFit(env.tls)
    ensures var loop := Run(env, Accepted(true), events).loop;
      var chunks := Chunks(env, Accepted(true), events);
      var recorded := Recordable(Refold(env.site, [], chunks).replies);
      && (loop == Running <==> PassesEnd(env.site, [], chunks) && recorded)
      && (recorded && loop != Running ==> loop == Spins)
  {
    AcceptedInv(env, true);
    RunKeeps(env, Accepted(true), events);
    RunFramed(env, Accepted(true), events);
    AnyRunFull(env, Accepted(true), events);
    RepliesExact(env, true, events);
  }
}
