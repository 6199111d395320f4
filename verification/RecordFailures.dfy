/** What a record that fails costs: the plaintext that the same read had decrypted before
    it. So, behind a failure, where the stream was cut decides which requests were heard. */
module RecordFailures {
  import opened Wire
  import opened Text
  import opened Framing
  import opened Crypto
  import opened RecordProtection
  import opened Connection
  import opened Session
  import opened Http
  import opened Pipeline
  import opened Server
  import opened ConnectionRuns
  import opened ReplyRule
  import opened Transparency

  /** What the record loop makes of the next bytes. */
  function Fresh(env: Setting, c: Conn, bytes: Bytes): Fed<ServerCore>
    requires c.tls.Some?
  {
    Drain(ServerHandler(env.tls), c.tls.value.core, c.tls.value.buffer + bytes)
  }

  /** An exception that the server catches closes the connection and changes nothing that
      HTTP has seen or said, whatever was decrypted before it in the same read. */
  lemma {:induction false} FailureDrops(env: Setting, c: Conn, bytes: Bytes)
    requires c.link.Open? && c.loop == Running && c.tls.Some? && bytes != []
    requires Fresh(env, c, bytes).error.Some? && Caught(Fresh(env, c, bytes).error.value)
    ensures var d := Service(env, c, Arrives(bytes));
      && d.link == Closed(TlsError) && d.loop == Running
      && d.replies == c.replies && d.appended == c.appended && d.httpInput == c.httpInput
      && d.output == c.output && d.queued == c.queued && d.sent == c.sent
  {
  }

  /** Two cores that differ only in what they have pending and in how much they have sent. */
  predicate SameEnd(s: ServerCore, t: ServerCore) {
    t == s.(pendingWire := t.pendingWire, plaintext := t.plaintext, sendSeq := t.sendSeq)
  }

  lemma {:induction false} SameFailure(env: ServerEnv, s: ServerCore, t: ServerCore, buffer: Bytes)
    requires SameEnd(s, t)
    ensures Drain(ServerHandler(env), t, buffer).error == Drain(ServerHandler(env), s, buffer).error
    decreases |buffer|
  {
    var pop := PopFrom(buffer);
    if pop.Popped? {
      var a, b := ServerHandler(env)(s, pop.payload), ServerHandler(env)(t, pop.payload);
      SameStep(env, s, t, pop.payload);
      if a.error.None? {
        SameFailure(env, a.core, b.core, pop.rest);
      }
    }
  }

  lemma SameStep(env: ServerEnv, s: ServerCore, t: ServerCore, record: Bytes)
    requires SameEnd(s, t)
    ensures var a, b := ServerHandler(env)(s, record), ServerHandler(env)(t, record);
      a.error == b.error && SameEnd(a.core, b.core)
  {
  }

  /** Some request, good or bad, is complete. */
  predicate Responds(data: Bytes) {
    Parse(data).Parsed? || Parse(data).Invalid?
  }

  /** What a read that does not fail leaves of the TLS end, and what it answers. */
  lemma FirstRead(env: Setting, c: Conn, a: Bytes)
    requires Speaks(env.site) && Inv(env, c) && c.link.Open? && c.loop == Running && c.tls.Some? && a != []
    requires Fresh(env, c, a).error.None?
    ensures var d := Service(env, c, Arrives(a)); var first := Fresh(env, c, a);
      && d.tls.Some? && d.tls.value.buffer == first.buffer && SameEnd(first.core, d.tls.value.core)
      && (d.loop == Running ==> d.replies == c.replies + Refold(env.site, c.httpInput, Handed(first)).replies)
  {
    var first := Fresh(env, c, a);
    ReadSplits(env, c, a);
    DrainMoves(env.tls, c.tls.value.core, c.tls.value.buffer + a);
    DecryptedPasses(env, c.(wireIn := c.wireIn + a), first);
  }

  /** One chunk that is handed up is answered with one pass over it. */
  lemma {:induction false} HandedReplies(env: Setting, input: Bytes, fed: Fed<ServerCore>)
    ensures var made := Refold(env.site, input, Handed(fed)).replies;
      && (Handed(fed) != [] ==> made == Serve(env.site, input + fed.core.plaintext).replies)
      && (made != [] <==> Handed(fed) != [] && Responds(input + fed.core.plaintext))
  {
    if Handed(fed) != [] {
      RefoldOne(env.site, input, fed.core.plaintext);
    }
  }

  /** A second read that raises says nothing more. */
  lemma SecondRead(env: Setting, c: Conn, b: Bytes)
    requires c.tls.Some? && b != [] && Fresh(env, c, b).error.Some?
    ensures Service(env, c, Arrives(b)).replies == c.replies
  {
  }

  lemma {:induction false} RunTwo(env: Setting, c: Conn, a: Event, b: Event)
    ensures Run(env, c, [a, b]) == Service(env, Service(env, c, a), b)
  {
    var m := Service(env, c, a);
    assert [a, b][1..] == [b] && [b][1..] == [];
    assert Run(env, m, [b]) == Run(env, Service(env, m, b), []);
  }

  lemma {:induction false} FailureSplits(env: Setting, c: Conn, a: Bytes, b: Bytes)
    requires c.tls.Some?
    ensures Fresh(env, c, a).error.Some? ==> Fresh(env, c, a + b).error == Fresh(env, c, a).error
    ensures Fresh(env, c, a).error.None? ==>
      Fresh(env, c, a + b) == Drain(ServerHandler(env.tls), Fresh(env, c, a).core, Fresh(env, c, a).buffer + b)
  {
    DrainAppend(ServerHandler(env.tls), c.tls.value.core, c.tls.value.buffer + a, b);
    ConcatAssoc(c.tls.value.buffer, a, b);
  }

  lemma {:induction false} CutBefore(env: Setting, c: Conn, a: Bytes, b: Bytes)
    requires Speaks(env.site) && Inv(env, c) && c.link.Open? && c.loop == Running && c.tls.Some?
    requires a != [] && b != [] && Fresh(env, c, a).error.None?
    requires Fresh(env, c, a + b).error.Some? && Service(env, c, Arrives(a)).loop == Running
    ensures Run(env, c, [Arrives(a), Arrives(b)]).replies
      == c.replies + Refold(env.site, c.httpInput, Handed(Fresh(env, c, a))).replies
  {
    var first := Fresh(env, c, a);
    var m := Service(env, c, Arrives(a));
    FailureSplits(env, c, a, b);
    FirstRead(env, c, a);
    RunTwo(env, c, Arrives(a), Arrives(b));
    SameFailure(env.tls, first.core, m.tls.value.core, first.buffer + b);
    SecondRead(env, m, b);
  }

  lemma {:induction false} CutBehind(env: Setting, c: Conn, a: Bytes, b: Bytes)
    requires c.link.Open? && c.loop == Running && c.tls.Some? && a != []
    requires Fresh(env, c, a).error.Some? && Caught(Fresh(env, c, a).error.value)
    ensures Run(env, c, [Arrives(a), Arrives(b)]).replies == c.replies
  {
    RunTwo(env, c, Arrives(a), Arrives(b));
    FailureDrops(env, c, a);
  }

  /** Of bytes whose records end in a failure: read at once they are answered with nothing.
      Cut in two, they are answered with exactly what the records decrypted before the cut
      complete. So the cut matters if and only if the failure comes behind it and those
      records hand up text that completes a request. */
  lemma {:induction false} CutMatters(env: Setting, c: Conn, a: Bytes, b: Bytes)
    requires Speaks(env.site) && Inv(env, c) && c.link.Open? && c.loop == Running && c.tls.Some?
    requires a != [] && b != []
    requires Fresh(env, c, a + b).error.Some? && Caught(Fresh(env, c, a + b).error.value)
    requires Service(env, c, Arrives(a)).loop == Running
    ensures var first := Fresh(env, c, a);
      var whole := Service(env, c, Arrives(a + b));
      var parts := Run(env, c, [Arrives(a), Arrives(b)]);
      && whole.replies == c.replies
      && (parts.replies != whole.replies <==>
            first.error.None? && first.core.plaintext != [] && Responds(c.httpInput + first.core.plaintext))
      && (first.error.None? && first.core.plaintext != [] ==>
            parts.replies == c.replies + Serve(env.site, c.httpInput + first.core.plaintext).replies)
  {
    var first := Fresh(env, c, a);
    FailureDrops(env, c, a + b);
    if first.error.Some? {
      FailureSplits(env, c, a, b);
      CutBehind(env, c, a, b);
    } else {
      CutBefore(env, c, a, b);
      HandedReplies(env, c.httpInput, first);
      LongerIff(c.replies, Refold(env.site, c.httpInput, Handed(first)).replies);
    }
  }

  lemma LongerIff(front: seq<Bytes>, more: seq<Bytes>)
    ensures front + more != front <==> more != []
  {
    assert |front + more| == |front| + |more|;
  }

  // ---- a session in which it does ----

  lemma HelloDrained(h: Setup)
    requires h.Honest()
    ensures var fed := Drain(ServerHandler(h.ServerEnd()), FRESH_SERVER, Frame(h.ClientHello()));
      && fed.error.None? && fed.buffer == [] && ServerInSession(h, fed.core) && fed.core.phase == ServerEstablished
      && fed.core.recvSeq == 0 && fed.core.sendSeq == 0 && fed.core.plaintext == []
  {
    HelloFits(h.ClientShare());
    DrainLastFrame(ServerHandler(h.ServerEnd()), FRESH_SERVER, h.ClientHello());
    ServerTakesHello(h, FRESH_SERVER, []);
    assert Texts([])[0..0] == [];
  }

  lemma HelloRead(env: Setting, h: Setup)
    requires h.Honest() && env.tls == h.ServerEnd()
    ensures var c := Service(env, Accepted(true), Arrives(Frame(h.ClientHello())));
      && c.link.Open? && c.loop == Running && c.tls.Some? && c.tls.value.buffer == []
      && ServerInSession(h, c.tls.value.core) && c.tls.value.core.phase == ServerEstablished
      && c.tls.value.core.recvSeq == 0 && c.tls.value.core.sendSeq == 0 && c.tls.value.core.plaintext == []
      && c.httpInput == [] && c.replies == []
  {
    HelloDrained(h);
    EmptyBefore(Frame(h.ClientHello()));
  }

  /** The record of a text arrives whole: it is decrypted. With an empty frame behind it the
      read fails. */
  lemma RecordRead(env: Setting, h: Setup, c: Conn, m: Sent)
    requires h.Honest() && env.tls == h.ServerEnd() && |m.plaintext| <= MAX_PLAINTEXT
    requires c.tls.Some? && c.tls.value.buffer == [] && ServerInSession(h, c.tls.value.core)
    requires c.tls.value.core.phase == ServerEstablished && c.tls.value.core.recvSeq == 0
        && c.tls.value.core.plaintext == []
    ensures var record := Frame(Records(h.suite, h.Keys().clientWrite, [m])[0]);
      && Fresh(env, c, record).error.None? && Fresh(env, c, record).core.plaintext == m.plaintext
      && Fresh(env, c, record + Frame([])).error == Some(ValueError)
  {
    var handle := ServerHandler(env.tls);
    var s := c.tls.value.core;
    var payload := Records(h.suite, h.Keys().clientWrite, [m])[0];
    RecordsAcceptable(h.suite, h.Keys().clientWrite, [m]);
    RecordTaken(h, s, m);
    DrainLastFrame(handle, s, payload);
    DrainFrame(handle, s, payload, Frame([]));
    DrainLastFrame(handle, handle(s, payload).core, []);
    EmptyAfter(Frame(payload));
    EmptyBefore(Frame(payload));
    EmptyBefore(Frame(payload) + Frame([]));
  }

  lemma RecordTaken(h: Setup, s: ServerCore, m: Sent)
    requires h.Honest() && |m.plaintext| <= MAX_PLAINTEXT && ServerInSession(h, s)
    requires s.phase == ServerEstablished && s.recvSeq == 0 && s.plaintext == []
    ensures var handle := ServerHandler(h.ServerEnd());
      var step := handle(s, Records(h.suite, h.Keys().clientWrite, [m])[0]);
      && step.error.None? && step.core.plaintext == m.plaintext
      && handle(step.core, []).error == Some(ValueError)
  {
    ServerTakesRecord(h, s, [m]);
    assert Texts([m])[0..1] == [m.plaintext] && Flatten([m.plaintext]) == m.plaintext + Flatten([]);
    EmptyAfter(m.plaintext);
    EmptyBefore(m.plaintext);
  }

  /** An established connection that has sent nothing goes on after a small response. */
  lemma FirstReplySent(env: Setting, h: Setup, c: Conn, text: Bytes)
    requires h.Honest() && env.tls == h.ServerEnd() && |text| <= MAX_PLAINTEXT
    requires c.loop == Running && c.tls.Some? && ServerInSession(h, c.tls.value.core)
    requires c.tls.value.core.phase == ServerEstablished && c.tls.value.core.sendSeq == 0
    ensures SendApplication(env, c, text).loop == Running
  {
    UnprotectProtected(h.suite, h.Keys().serverWrite, 0, env.nonce(0), text, 0);
  }

  lemma FirstRejected(env: Setting, h: Setup, c: Conn, fed: Fed<ServerCore>)
    requires h.Honest() && env.tls == h.ServerEnd() && |env.site.reject(MalformedStartLine([]))| <= MAX_PLAINTEXT
    requires Inv(env, c) && c.link.Open? && c.loop == Running && c.tls.Some? && c.httpInput == []
    requires ServerInSession(h, c.tls.value.core) && c.tls.value.core.phase == ServerEstablished
        && c.tls.value.core.sendSeq == 0
    requires Moved(env.tls, c.tls.value.core, fed.core, false) && fed.error.None? && fed.core.plaintext == HEADER_END
    ensures Decrypted(env, c, fed).loop == Running
  {
    QueuedFlight(env, c, fed);
    BlankLineRefused([]);
    assert HEADER_END + [] == HEADER_END && [] + HEADER_END == HEADER_END;
    var e := Emptied(c, fed);
    var d := e.(httpInput := e.httpInput + HEADER_END, appended := e.appended + HEADER_END);
    FirstReplySent(env, h, d, env.site.reject(MalformedStartLine([])));
  }

  /** An established connection that has heard and said nothing. */
  ghost predicate Connected(env: Setting, h: Setup, c: Conn)
    requires h.Honest()
  {
    && Inv(env, c) && c.link.Open? && c.loop == Running && c.tls.Some? && c.tls.value.buffer == []
    && ServerInSession(h, c.tls.value.core) && c.tls.value.core.phase == ServerEstablished
    && c.tls.value.core.recvSeq == 0 && c.tls.value.core.sendSeq == 0 && c.tls.value.core.plaintext == []
    && c.httpInput == [] && c.replies == []
  }

  lemma {:induction false} CutHere(env: Setting, h: Setup, c: Conn, m: Sent)
    requires h.Honest() && env.tls == h.ServerEnd() && Speaks(env.site) && Connected(env, h, c)
    requires |env.site.reject(MalformedStartLine([]))| <= MAX_PLAINTEXT && m.plaintext == HEADER_END
    ensures var record := Frame(Records(h.suite, h.Keys().clientWrite, [m])[0]);
      && Service(env, c, Arrives(record + Frame([]))).replies == []
      && Run(env, c, [Arrives(record), Arrives(Frame([]))]).replies == [env.site.reject(MalformedStartLine([]))]
  {
    var record := Frame(Records(h.suite, h.Keys().clientWrite, [m])[0]);
    RecordRead(env, h, c, m);
    var fed := Fresh(env, c, record);
    DrainMoves(env.tls, c.tls.value.core, c.tls.value.buffer + record);
    FirstRejected(env, h, c.(wireIn := c.wireIn + record), fed);
    BlankLineServed(env.site);
    EmptyBefore(HEADER_END);
    CutMatters(env, c, record, Frame([]));
  }

  lemma {:induction false} BlankLineServed(site: Site)
    ensures Responds(HEADER_END) && Serve(site, HEADER_END).replies == [site.reject(MalformedStartLine([]))]
  {
    BlankLineRefused([]);
    EmptyAfter(HEADER_END);
  }

  /** One honest session, one failing frame, two ways to cut the same bytes: in every
      setting the first hears no request at all, and the second answers one. */
  lemma {:induction false} CutWitness(env: Setting, h: Setup, nonce: Nonce)
    requires h.Honest() && env.tls == h.ServerEnd() && Speaks(env.site)
    requires |env.site.reject(MalformedStartLine([]))| <= MAX_PLAINTEXT
    ensures var record := Frame(Records(h.suite, h.Keys().clientWrite, [Sent(HEADER_END, nonce)])[0]);
      var connected := Service(env, Accepted(true), Arrives(Frame(h.ClientHello())));
      && Service(env, connected, Arrives(record + Frame([]))).replies == []
      && Run(env, connected, [Arrives(record), Arrives(Frame([]))]).replies == [env.site.reject(MalformedStartLine([]))]
  {
    AcceptedInv(env, true);
    ServiceKeeps(env, Accepted(true), Arrives(Frame(h.ClientHello())));
    HelloRead(env, h);
    CutHere(env, h, Service(env, Accepted(true), Arrives(Frame(h.ClientHello()))), Sent(HEADER_END, nonce));
  }
}
