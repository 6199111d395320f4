/** Layer safety of the server's connections, for every site and every run, also of
    runs that a TLS error, an escaped exception or an endless request loop has ended. */
module LayerRuns {
  import opened Wire
  import opened Framing
  import opened Connection
  import opened Http
  import opened Server
  import opened ConnectionRuns

  // ---- the TLS end ----

  /** Keys and signatures of an established end stay, and what it had pending. */
  predicate Onward(s: ServerCore, t: ServerCore) {
    s.phase == ServerEstablished ==>
      && t.phase == ServerEstablished
      && t.clientWriteKey == s.clientWriteKey && t.serverWriteKey == s.serverWriteKey
      && t.signings == s.signings && t.pendingWire == s.pendingWire
  }

  /** Whatever bytes arrive, and whatever they raise. */
  lemma {:induction false} DrainLayered(env: ServerEnv, s: ServerCore, buffer: Bytes)
    requires Layered(s)
    ensures var fed := Drain(ServerHandler(env), s, buffer);
      && Layered(fed.core) && Onward(s, fed.core)
      && (fed.error.None? && fed.core.phase == WaitClientHello ==> fed.core == s)
    decreases |buffer|
  {
    var pop := PopFrom(buffer);
    if pop.Popped? {
      var step := ServerHandler(env)(s, pop.payload);
      if step.error.None? {
        DrainLayered(env, step.core, pop.rest);
      }
    }
  }

  // ---- responses ----

  predicate Established(c: Conn) {
    c.tls.Some? && c.tls.value.core.phase == ServerEstablished && Layered(c.tls.value.core)
  }

  /** Only the send counter of the TLS end has moved, and nobody has closed. */
  predicate OnlySent(c: Conn, d: Conn) {
    TlsUnmoved(c, d) && d.link == c.link
  }

  lemma SendLayered(env: Setting, c: Conn, text: Bytes)
    requires Established(c)
    ensures OnlySent(c, SendApplication(env, c, text)) && Established(SendApplication(env, c, text))
  {
  }

  lemma AnswerLayered(env: Setting, c: Conn, message: HTTPMessage, consumed: int)
    requires Established(c)
    ensures OnlySent(c, AnswerRequest(env, c, message, consumed))
        && Established(AnswerRequest(env, c, message, consumed))
  {
    SendLayered(env, c.(httpInput := DropPy(c.httpInput, consumed)), env.site.respond(message).bytes);
  }

  lemma {:induction false} HandleLayered(env: Setting, c: Conn)
    requires Established(c)
    ensures OnlySent(c, HandleHttp(env, c)) && Established(HandleHttp(env, c))
    decreases |c.httpInput|
  {
    if c.link.Open? {
      match Parse(c.httpInput)
      case Nothing =>
      case Incomplete =>
      case Invalid(reason) => SendLayered(env, c, env.site.reject(reason));
      case Parsed(message, consumed) =>
        AnswerLayered(env, c, message, consumed);
        var d := AnswerRequest(env, c, message, consumed);
        if |d.httpInput| < |c.httpInput| {
          HandleLayered(env, d);
        }
    }
  }

  // ---- events ----

  /** The keys exist exactly when established; before that nothing has been received,
      decrypted, answered or queued; and no response has been refused. */
  predicate LayerOk(c: Conn) {
    && c.tls.Some? && Layered(c.tls.value.core)
    && c.link != Closed(SendRefused)
    && (c.tls.value.core.phase == WaitClientHello ==> c.replies == [] && c.queued == [] && c.appended == [])
    && (c.link.Open? && c.loop == Running ==> c.tls.value.core.pendingWire == [])
  }

  lemma DecryptedLayered(env: Setting, c: Conn, fed: Fed<ServerCore>)
    requires LayerOk(c) && c.link.Open? && c.loop == Running
    requires Layered(fed.core) && Onward(c.tls.value.core, fed.core)
    requires fed.error.None? && fed.core.phase == WaitClientHello ==> fed.core == c.tls.value.core
    ensures LayerOk(Decrypted(env, c, fed)) && Forward(c, Decrypted(env, c, fed))
  {
    if fed.error.None? && fed.core.plaintext != [] {
      var e := Emptied(c, fed);
      HandleLayered(env, e.(httpInput := e.httpInput + fed.core.plaintext,
                            appended := e.appended + fed.core.plaintext));
    }
  }

  lemma ReadLayered(env: Setting, c: Conn, r: Recv)
    requires LayerOk(c) && c.link.Open? && c.loop == Running
    ensures LayerOk(Read(env, c, r)) && Forward(c, Read(env, c, r))
  {
    if r.Data? && r.bytes != [] {
      var end := c.tls.value;
      DrainLayered(env.tls, end.core, end.buffer + r.bytes);
      DecryptedLayered(env, c.(wireIn := c.wireIn + r.bytes),
                       Feed(ServerHandler(env.tls), end.core, end.buffer, r.bytes));
    }
  }

  lemma ServiceLayered(env: Setting, c: Conn, e: Event)
    requires LayerOk(c)
    ensures LayerOk(Service(env, c, e)) && Forward(c, Service(env, c, e))
  {
    if Reported(c, e) && e.read.Some? {
      ReadLayered(env, c, e.read.value);
    }
  }

  lemma {:induction false} RunLayered(env: Setting, c: Conn, events: seq<Event>)
    requires LayerOk(c)
    ensures LayerOk(Run(env, c, events)) && Forward(c, Run(env, c, events))
    decreases |events|
  {
    if events != [] {
      ServiceLayered(env, c, events[0]);
      RunLayered(env, Service(env, c, events[0]), events[1..]);
    }
  }

  /** Layer safety, in every state of every run, whatever the site: the branch that
      refuses to send before the handshake is never taken; the keys exist exactly when
      established; before that nothing is received, decrypted, answered or queued; and
      keys never change once set. */
  lemma {:induction false} LayerSafety(env: Setting, before: seq<Event>, after: seq<Event>)
    ensures var c := Run(env, Accepted(true), before);
      && c.tls.Some? && c.link != Closed(SendRefused)
      && Layered(c.tls.value.core)
      && (c.tls.value.core.phase == WaitClientHello ==> c.replies == [] && c.queued == [] && c.appended == [])
      && Forward(c, Run(env, c, after))
  {
    RunLayered(env, Accepted(true), before);
    RunLayered(env, Run(env, Accepted(true), before), after);
  }
}
