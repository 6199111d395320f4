/** On honest input the event loop goes on: no exception escapes and the request loop
    returns. With that, transparency needs no assumption on how the runs went. */
module SteadyRuns {
  import opened Wire
  import opened Text
  import opened Framing
  import opened Crypto
  import opened RecordProtection
  import opened Connection
  import opened Session
  import opened Http
  import opened Pipeline
  import opened StaticSite
  import opened Server
  import opened ConnectionRuns
  import opened ReplyRule
  import opened Transparency

  // ---- streams that nothing follows once a response has closed ----

  /** No response to this stream closes the connection. */
  predicate KeptAlive(site: Site, stream: Bytes) {
    Regular(site, stream) && Serve(site, stream).ending == Waiting
  }

  /** Then no response to a part of it does. */
  lemma {:induction false} KeptAlivePrefix(site: Site, part: Bytes, stream: Bytes)
    requires KeptAlive(site, stream) && part <= stream
    ensures KeptAlive(site, part) && Serve(site, part).replies <= Serve(site, stream).replies
  {
    var more := stream[|part|..];
    assert stream == part + more;
    RegularPrefix(site, part, more);
    ServeAppend(site, part, more);
    ServeConserves(site, part);
  }

  /** No response closes before the last byte is in. */
  predicate Settled(site: Site, stream: Bytes) {
    Regular(site, stream) && (stream != [] ==> Serve(site, stream[..|stream| - 1]).ending == Waiting)
  }

  /** So up to any earlier byte the connection is kept alive. */
  lemma {:induction false} SettledPrefix(site: Site, part: Bytes, stream: Bytes)
    requires Settled(site, stream) && part < stream
    ensures KeptAlive(site, part) && Serve(site, part).replies <= Serve(site, stream).replies
  {
    var most, last := stream[..|stream| - 1], stream[|stream| - 1..];
    assert stream == most + last;
    RegularPrefix(site, most, last);
    ServeAppend(site, most, last);
    KeptAlivePrefix(site, part, most);
  }

  lemma KeptAliveSettles(site: Site, stream: Bytes)
    requires KeptAlive(site, stream)
    ensures Settled(site, stream)
  {
    if stream != [] {
      KeptAlivePrefix(site, stream[..|stream| - 1], stream);
    }
  }

  /** A stream is settled whose closing request is its end. */
  lemma {:induction false} ClosingSettles(site: Site, stream: Bytes)
    requires Regular(site, stream) && Serve(site, stream).ending == Closing && Serve(site, stream).rest == []
    ensures Settled(site, stream)
  {
    if stream != [] {
      var most, last := stream[..|stream| - 1], stream[|stream| - 1..];
      assert stream == most + last;
      RegularPrefix(site, most, last);
      ServeAppend(site, most, last);
      ServeConserves(site, most);
      assert |Serve(site, most).rest + last| == |Serve(site, most).rest| + 1;
    }
  }

  /** All but the last keep the connection alive. */
  predicate OnlyLastCloses(site: Site, rs: seq<Request>) {
    rs != [] && NoneCloses(site, rs[..|rs| - 1])
  }

  lemma OnlyLastTail(site: Site, rs: seq<Request>)
    requires OnlyLastCloses(site, rs) && |rs| > 1
    ensures !Answer(site, rs[0]).close && OnlyLastCloses(site, rs[1..])
  {
    var front := rs[..|rs| - 1];
    assert front[0] == rs[0];
    assert rs[1..][..|rs| - 2] == front[1..];
    NoneClosesTail(site, front);
  }

  lemma {:induction false} PrintedRest(site: Site, rs: seq<Request>)
    requires forall i :: 0 <= i < |rs| ==> WellPrinted(rs[i])
    requires OnlyLastCloses(site, rs)
    ensures Serve(site, PrintAll(rs)).rest == []
    decreases |rs|
  {
    ServeFirst(site, rs[0], PrintAll(rs[1..]));
    if |rs| > 1 {
      OnlyLastTail(site, rs);
      PrintedRest(site, rs[1..]);
    } else {
      assert PrintAll(rs[1..]) == [];
    }
  }

  /** So is any pipelined run of printed requests of which only the last may close, the
      client's own single request with its `Connection: close` among them. */
  lemma {:induction false} PrintedSettles(site: Site, rs: seq<Request>)
    requires forall i :: 0 <= i < |rs| ==> WellPrinted(rs[i])
    requires OnlyLastCloses(site, rs)
    ensures Settled(site, PrintAll(rs)) && Serve(site, PrintAll(rs)).replies == Answers(site, rs)
  {
    ServePrinted(site, rs);
    PrintedRest(site, rs);
    if NoneCloses(site, rs) {
      KeptAliveSettles(site, PrintAll(rs));
    } else {
      ClosingSettles(site, PrintAll(rs));
    }
  }

  // ---- one read ----

  /** The only exception that can have escaped is that of a TLS connection at the next
      response it was to make: its sequence numbers are used up, or it cannot be framed. */
  predicate Full(c: Conn, due: seq<Bytes>) {
    c.loop.Crashed? ==>
      && c.tls.Some? && c.replies < due
      && (|c.replies| == LIMIT_64 || |due[|c.replies|]| + OVERHEAD >= LIMIT_32)
  }

  lemma FullMore(c: Conn, before: seq<Bytes>, due: seq<Bytes>, all: seq<Bytes>)
    requires Full(c, before + due) && due <= all
    ensures Full(c, before + all)
  {
  }

  /** What the TLS path asks of the library. */
  ghost predicate Sealing(env: Setting, c: Conn) {
    c.tls.Some? ==> SealOpens(env.tls.suite)
  }

  lemma SendFull(env: Setting, c: Conn, text: Bytes)
    requires Sealing(env, c) && c.link.Open? && c.loop == Running && Sending(env, c)
    ensures Full(SendApplication(env, c, text), c.replies + [text])
  {
    if c.tls.Some? && c.tls.value.core.sendSeq < LIMIT_64 {
      var s := c.tls.value.core;
      UnprotectProtected(env.tls.suite, s.serverWriteKey.value, s.sendSeq, env.nonce(s.sendSeq), text, s.sendSeq);
    }
  }

  lemma AnswerFull(env: Setting, c: Conn, message: HTTPMessage, consumed: int)
    requires Sealing(env, c) && c.link.Open? && c.loop == Running && Sending(env, c)
    ensures Full(AnswerRequest(env, c, message, consumed), c.replies + [env.site.respond(message).bytes])
  {
    SendFull(env, c.(httpInput := DropPy(c.httpInput, consumed)), env.site.respond(message).bytes);
  }

  lemma {:induction false} HandleFull(env: Setting, c: Conn)
    requires Speaks(env.site) && Sealing(env, c)
    requires c.link.Open? && c.loop == Running && OutputOk(c) && Sending(env, c)
    ensures Full(HandleHttp(env, c), c.replies + Serve(env.site, c.httpInput).replies)
    decreases |c.httpInput|
  {
    match Parse(c.httpInput)
    case Nothing =>
    case Incomplete =>
    case Invalid(reason) =>
      SendFull(env, c, env.site.reject(reason));
    case Parsed(message, consumed) =>
      AnswerFull(env, c, message, consumed);
      AnswerKeeps(env, c, message, consumed);
      var d := AnswerRequest(env, c, message, consumed);
      var reply := env.site.respond(message).bytes;
      if d.loop == Running && !env.site.respond(message).close && |d.httpInput| < |c.httpInput| {
        HandleFull(env, d);
        ConcatAssoc(c.replies, [reply], Serve(env.site, d.httpInput).replies);
      } else {
        FullMore(d, c.replies, [reply], Serve(env.site, c.httpInput).replies);
      }
  }

  /** One event makes no more than the responses due to its chunk. */
  predicate FullAfter(env: Setting, c: Conn, d: Conn, chunk: seq<Bytes>) {
    Full(d, c.replies + Refold(env.site, c.httpInput, chunk).replies)
  }

  lemma AppendFull(env: Setting, c: Conn, text: Bytes)
    requires Speaks(env.site) && Sealing(env, c)
    requires c.link.Open? && c.loop == Running && OutputOk(c) && Sending(env, c)
    ensures FullAfter(env, c, Append(env, c, text), [text])
  {
    HandleFull(env, c.(httpInput := c.httpInput + text, appended := c.appended + text));
    RefoldOne(env.site, c.httpInput, text);
  }

  lemma DecryptedFull(env: Setting, c: Conn, fed: Fed<ServerCore>)
    requires Speaks(env.site) && Sealing(env, c)
    requires Inv(env, c) && c.link.Open? && c.loop == Running && c.tls.Some? && fed.error.None?
    requires Moved(env.tls, c.tls.value.core, fed.core, false)
    ensures FullAfter(env, c, Decrypted(env, c, fed), Handed(fed))
  {
    QueuedFlight(env, c, fed);
    if fed.core.plaintext != [] {
      AppendFull(env, Emptied(c, fed), fed.core.plaintext);
    }
  }

  lemma {:induction false} ReadIsDrain(env: Setting, c: Conn, bytes: Bytes)
    requires c.tls.Some? && bytes != []
    ensures Read(env, c, Data(bytes))
      == Decrypted(env, c.(wireIn := c.wireIn + bytes),
                   Drain(ServerHandler(env.tls), c.tls.value.core, c.tls.value.buffer + bytes))
  {
  }

  lemma {:induction false} FeedMoves(env: Setting, h: Setup, log: seq<Sent>, c: Conn, bytes: Bytes)
    requires h.Honest() && Sendable(log) && env.tls == h.ServerEnd() && Speaks(env.site)
    requires Inv(env, c) && c.link.Open? && c.loop == Running && c.tls.Some? && bytes != []
    requires Tracking(h, log, c) && c.wireIn + bytes <= ClientStream(h, log)
    ensures var fed := Drain(ServerHandler(env.tls), c.tls.value.core, c.tls.value.buffer + bytes);
      fed.error.None? && Moved(env.tls, c.tls.value.core, fed.core, false)
  {
    PrefixSlice(c.wireIn, bytes, ClientStream(h, log));
    FeedFollows(h, log, c.tls.value.core, c.tls.value.buffer, |c.wireIn|, c.appended, bytes);
    DrainMoves(env.tls, c.tls.value.core, c.tls.value.buffer + bytes);
  }

  /** Reading the next part of an honest stream lets no other exception escape. */
  lemma {:induction false} ReadFull(env: Setting, h: Setup, log: seq<Sent>, c: Conn, bytes: Bytes)
    requires h.Honest() && Sendable(log) && env.tls == h.ServerEnd() && Speaks(env.site)
    requires Inv(env, c) && c.link.Open? && c.loop == Running && c.tls.Some? && bytes != []
    requires Tracking(h, log, c) && c.wireIn + bytes <= ClientStream(h, log)
    ensures var fed := Drain(ServerHandler(env.tls), c.tls.value.core, c.tls.value.buffer + bytes);
      FullAfter(env, c, Read(env, c, Data(bytes)), Handed(fed))
  {
    FeedMoves(env, h, log, c, bytes);
    ReadIsDrain(env, c, bytes);
    DecryptedFull(env, c.(wireIn := c.wireIn + bytes),
                  Drain(ServerHandler(env.tls), c.tls.value.core, c.tls.value.buffer + bytes));
  }

  lemma FlushFull(env: Setting, c: Conn, r: SendResult)
    ensures Flush(c, r).wireIn == c.wireIn && Flush(c, r).loop == c.loop && Flush(c, r).replies == c.replies
    ensures Flush(c, r).tls == c.tls
  {
  }

  /** What the two paths have in common: how much one event can have made. */
  lemma ServiceFull(env: Setting, c: Conn, e: Event, chunk: seq<Bytes>)
    requires Reported(c, e) && (e.read.Some? ==> FullAfter(env, c, Read(env, c, e.read.value), chunk))
    ensures FullAfter(env, c, Service(env, c, e), chunk)
  {
    var d := if e.read.Some? then Read(env, c, e.read.value) else c;
    if e.write.Some? {
      FlushFull(env, d, e.write.value);
    }
  }

  /** The chunk of an event is what its read handed up. */
  lemma ChunkRead(env: Setting, c: Conn, e: Event) returns (chunk: seq<Bytes>)
    requires Speaks(env.site) && Inv(env, c) && c.loop == Running && Reported(c, e) && e.read.Some?
    ensures ChunkOf(env, c, e) == chunk
    ensures e.read.value.Data? && e.read.value.bytes != [] ==>
      chunk == if c.tls.None? then [e.read.value.bytes]
               else Handed(Drain(ServerHandler(env.tls), c.tls.value.core, c.tls.value.buffer + e.read.value.bytes))
  {
    chunk := ChunkOf(env, c, e);
    var m := Read(env, c, e.read.value);
    if e.write.Some? && m.loop == Running && m.link.Open? {
      FlushPasses(m, e.write.value);
    }
    if e.read.value.Data? && e.read.value.bytes != [] {
      ReadChunk(env, c, e.read.value.bytes);
    }
  }

  lemma {:induction false} ReadChunk(env: Setting, c: Conn, bytes: Bytes)
    requires Speaks(env.site) && Inv(env, c) && c.link.Open? && c.loop == Running && bytes != []
    ensures var d := Read(env, c, Data(bytes));
      var chunk := if c.tls.None? then [bytes]
                   else Handed(Drain(ServerHandler(env.tls), c.tls.value.core, c.tls.value.buffer + bytes));
      && (|d.appended| > |c.appended| <==> chunk != [])
      && (chunk != [] ==> d.appended[|c.appended|..] == chunk[0] && chunk == [chunk[0]])
  {
    var took := c.(wireIn := c.wireIn + bytes);
    if c.tls.None? {
      AppendPasses(env, took, bytes);
      SameChunk(env, took, Read(env, c, Data(bytes)), bytes);
    } else {
      var fed := Drain(ServerHandler(env.tls), c.tls.value.core, c.tls.value.buffer + bytes);
      DrainMoves(env.tls, c.tls.value.core, c.tls.value.buffer + bytes);
      DecryptedPasses(env, took, fed);
      if Handed(fed) != [] {
        SameChunk(env, took, Read(env, c, Data(bytes)), fed.core.plaintext);
      } else {
        EmptyAfter(c.appended);
      }
    }
  }

  predicate Brings(c: Conn, e: Event) {
    Reported(c, e) && e.read.Some? && e.read.value.Data? && e.read.value.bytes != []
  }

  /** An event that brings nothing lets nothing escape. */
  lemma QuietService(env: Setting, c: Conn, e: Event)
    requires c.loop == Running && !Brings(c, e)
    ensures Service(env, c, e).loop == Running
  {
  }

  lemma BringsWires(env: Setting, c: Conn, e: Event)
    requires Brings(c, e)
    ensures Service(env, c, e).wireIn == Read(env, c, e.read.value).wireIn
  {
    if e.write.Some? {
      FlushFull(env, Read(env, c, e.read.value), e.write.value);
    }
  }

  lemma TlsService(env: Setting, h: Setup, log: seq<Sent>, c: Conn, e: Event)
    requires h.Honest() && Sendable(log) && env.tls == h.ServerEnd() && Speaks(env.site)
    requires Inv(env, c) && c.tls.Some? && c.loop == Running && Tracking(h, log, c)
    requires Service(env, c, e).wireIn <= ClientStream(h, log)
    ensures FullAfter(env, c, Service(env, c, e), ChunkOf(env, c, e))
  {
    if !Brings(c, e) {
      QuietService(env, c, e);
    } else {
      BringsWires(env, c, e);
      ReadWires(env, c, e.read.value.bytes);
      ReadFull(env, h, log, c, e.read.value.bytes);
      var chunk := ChunkRead(env, c, e);
      ServiceFull(env, c, e, chunk);
    }
  }

  lemma PlainService(env: Setting, c: Conn, e: Event)
    requires Speaks(env.site) && Inv(env, c) && c.tls.None? && c.loop == Running
    ensures FullAfter(env, c, Service(env, c, e), ChunkOf(env, c, e))
  {
    if !Brings(c, e) {
      QuietService(env, c, e);
    } else {
      AppendFull(env, c.(wireIn := c.wireIn + e.read.value.bytes), e.read.value.bytes);
      var chunk := ChunkRead(env, c, e);
      ServiceFull(env, c, e, chunk);
    }
  }

  // ---- whole runs ----

  lemma FullTwice(env: Setting, c: Conn, m: Conn, d: Conn, first: seq<Bytes>, later: seq<Bytes>)
    requires Passed(env, c, m, first) && m.loop == Running && FullAfter(env, m, d, later)
    ensures FullAfter(env, c, d, first + later)
  {
    RefoldAppend(env.site, c.httpInput, first, later);
    ConcatAssoc(c.replies, Refold(env.site, c.httpInput, first).replies,
                Refold(env.site, Refold(env.site, c.httpInput, first).rest, later).replies);
  }

  lemma {:induction false} TlsRunFull(env: Setting, h: Setup, log: seq<Sent>, c: Conn, events: seq<Event>)
    requires h.Honest() && Sendable(log) && env.tls == h.ServerEnd() && Speaks(env.site)
    requires Inv(env, c) && c.tls.Some? && c.loop == Running && Tracking(h, log, c)
    requires Run(env, c, events).wireIn <= ClientStream(h, log)
    ensures FullAfter(env, c, Run(env, c, events), Chunks(env, c, events))
    decreases |events|
  {
    if events != [] {
      var d := Service(env, c, events[0]);
      var first := ChunkOf(env, c, events[0]);
      ServiceKeeps(env, c, events[0]);
      ServiceTracks(env, h, log, c, events[0]);
      ServicePasses(env, c, events[0]);
      if d.loop == Running {
        TlsRunFull(env, h, log, d, events[1..]);
        FullTwice(env, c, d, Run(env, c, events), first, Chunks(env, d, events[1..]));
      } else {
        StoppedStays(env, d, events[1..]);
        TlsService(env, h, log, c, events[0]);
        assert first + [] == first;
      }
    }
  }

  lemma {:induction false} PlainRunFull(env: Setting, c: Conn, events: seq<Event>)
    requires Speaks(env.site) && Inv(env, c) && c.tls.None? && c.loop == Running
    ensures FullAfter(env, c, Run(env, c, events), Chunks(env, c, events)) && Run(env, c, events).tls.None?
    decreases |events|
  {
    if events != [] {
      var d := Service(env, c, events[0]);
      var first := ChunkOf(env, c, events[0]);
      ServiceKeeps(env, c, events[0]);
      ServicePasses(env, c, events[0]);
      if d.loop == Running {
        PlainRunFull(env, d, events[1..]);
        FullTwice(env, c, d, Run(env, c, events), first, Chunks(env, d, events[1..]));
      } else {
        StoppedStays(env, d, events[1..]);
        PlainService(env, c, events[0]);
        assert first + [] == first;
      }
    }
  }

  /** Responses for which there is a record each. */
  predicate Recordable(replies: seq<Bytes>) {
    |replies| <= LIMIT_64 && Framable(replies)
  }

  lemma {:induction false} RunningRecordable(env: Setting, h: Setup, log: seq<Sent>, events: seq<Event>)
    requires h.Honest() && Sendable(log) && env.tls == h.ServerEnd() && Speaks(env.site)
    requires var c := Run(env, Accepted(true), events); c.wireIn <= ClientStream(h, log) && c.loop == Running
    ensures Recordable(Run(env, Accepted(true), events).replies)
  {
    AcceptedInv(env, true);
    RunKeeps(env, Accepted(true), events);
    RunFramed(env, Accepted(true), events);
    PlaintextArrives(env, h, log, events);
  }

  /** How a TLS server stands that has read any part of an honest client's requests, in any
      pieces: it is running if and only if every pass of the request loop returns and every
      response that they make has its record; if each has one, it otherwise spins. */
  lemma {:induction false} TlsLoopExact(env: Setting, h: Setup, log: seq<Sent>, events: seq<Event>)
    requires h.Honest() && Sendable(log) && env.tls == h.ServerEnd() && Speaks(env.site)
    requires Run(env, Accepted(true), events).wireIn <= ClientStream(h, log)
    ensures var loop := Run(env, Accepted(true), events).loop;
      var chunks := Chunks(env, Accepted(true), events);
      var recorded := Recordable(Refold(env.site, [], chunks).replies);
      && (loop == Running <==> PassesEnd(env.site, [], chunks) && recorded)
      && (recorded && loop != Running ==> loop == Spins)
  {
    AcceptedInv(env, true);
    AcceptedFollows(h, log);
    TlsRunFull(env, h, log, Accepted(true), events);
    RepliesExact(env, true, events);
    if Run(env, Accepted(true), events).loop == Running {
      RunningRecordable(env, h, log, events);
    }
  }

  /** So does a plain one, for every peer and with no bound on anything. */
  lemma {:induction false} PlainLoopExact(env: Setting, events: seq<Event>)
    requires Speaks(env.site)
    ensures Run(env, Accepted(false), events).loop
      == if PassesEnd(env.site, [], Chunks(env, Accepted(false), events)) then Running else Spins
  {
    AcceptedInv(env, false);
    PlainRunFull(env, Accepted(false), events);
    RepliesExact(env, false, events);
  }

  // ---- runs in which only the last pass may close ----

  /** Up to the last chunk no response closes. */
  predicate OnceClosed(site: Site, chunks: seq<Bytes>) {
    chunks != [] ==> Serve(site, Flatten(chunks[..|chunks| - 1])).ending == Waiting
  }

  /** A buffer that holds no complete request. */
  predicate Idle(site: Site, input: Bytes) {
    Serve(site, input) == Served([], [], input, Waiting)
  }

  lemma {:induction false} RestIdle(site: Site, data: Bytes)
    requires Serve(site, data).ending == Waiting
    ensures Idle(site, Serve(site, data).rest)
    decreases |data|
  {
    if Parse(data).Parsed? {
      RestIdle(site, DropPy(data, Parse(data).consumed));
    }
  }

  lemma FlattenOne(x: Bytes)
    ensures Flatten([x]) == x
  {
    assert x + [] == x && Flatten([x]) == x + Flatten([]);
  }

  /** Then every pass returns, and together they make what one pass over everything makes,
      also if the last chunk goes on behind the request that closes. */
  lemma {:induction false} OnceClosedFrom(site: Site, input: Bytes, chunks: seq<Bytes>)
    requires Idle(site, input) && Regular(site, input + Flatten(chunks))
    requires chunks != [] ==> Serve(site, input + Flatten(chunks[..|chunks| - 1])).ending == Waiting
    ensures PassesEnd(site, input, chunks)
    ensures Refold(site, input, chunks).replies == Serve(site, input + Flatten(chunks)).replies
    decreases |chunks|
  {
    if chunks == [] {
      assert input + [] == input;
    } else if |chunks| == 1 {
      OnePass(site, input, chunks);
    } else {
      OnceClosedStep(site, input, chunks);
      OnceClosedFrom(site, Serve(site, input + chunks[0]).rest, chunks[1..]);
    }
  }

  lemma {:induction false} OnePass(site: Site, input: Bytes, chunks: seq<Bytes>)
    requires |chunks| == 1 && Regular(site, input + Flatten(chunks))
    ensures PassesEnd(site, input, chunks)
    ensures Refold(site, input, chunks).replies == Serve(site, input + Flatten(chunks)).replies
  {
    assert chunks == [chunks[0]];
    FlattenOne(chunks[0]);
    RefoldOne(site, input, chunks[0]);
    ServeConserves(site, input + chunks[0]);
  }

  lemma {:induction false} OnceClosedStep(site: Site, input: Bytes, chunks: seq<Bytes>)
    requires |chunks| > 1 && Regular(site, input + Flatten(chunks))
    requires Serve(site, input + Flatten(chunks[..|chunks| - 1])).ending == Waiting
    ensures var first := Serve(site, input + chunks[0]); var later := chunks[1..];
      && first.ending == Waiting && Idle(site, first.rest) && Regular(site, first.rest + Flatten(later))
      && Serve(site, first.rest + Flatten(later[..|later| - 1])).ending == Waiting
      && Serve(site, input + Flatten(chunks)).replies
           == first.replies + Serve(site, first.rest + Flatten(later)).replies
  {
    var data := input + chunks[0];
    var later := chunks[1..];
    var front := chunks[..|chunks| - 1];
    assert front[0] == chunks[0] && front[1..] == later[..|later| - 1];
    ConcatAssoc(input, chunks[0], Flatten(later));
    ConcatAssoc(input, chunks[0], Flatten(later[..|later| - 1]));
    FlattenPrefix(later[..|later| - 1], later);
    RegularFront(site, data, Flatten(later[..|later| - 1]), Flatten(later));
    KeptAlivePrefix(site, data, data + Flatten(later[..|later| - 1]));
    RestIdle(site, data);
    RegularPrefix(site, data, Flatten(later));
    ServeAppend(site, data, Flatten(later));
    ServeAppend(site, data, Flatten(later[..|later| - 1]));
  }

  lemma {:induction false} RegularFront(site: Site, data: Bytes, some: Bytes, all: Bytes)
    requires some <= all && Regular(site, data + all)
    ensures Regular(site, data + some)
  {
    assert data + all == (data + some) + all[|some|..];
    RegularPrefix(site, data + some, all[|some|..]);
  }

  lemma {:induction false} OnceClosedEnds(site: Site, chunks: seq<Bytes>)
    requires Regular(site, Flatten(chunks)) && OnceClosed(site, chunks)
    ensures PassesEnd(site, [], chunks)
    ensures Refold(site, [], chunks).replies == Serve(site, Flatten(chunks)).replies
  {
    assert [] + Flatten(chunks) == Flatten(chunks);
    if chunks != [] {
      assert [] + Flatten(chunks[..|chunks| - 1]) == Flatten(chunks[..|chunks| - 1]);
    }
    OnceClosedFrom(site, [], chunks);
  }

  /** A TLS server that has read any part of an honest client's requests, with no read behind
      the one that brought a closing request, is running and has made exactly their responses. */
  lemma {:induction false} TlsStaysRunning(env: Setting, h: Setup, log: seq<Sent>, events: seq<Event>)
    requires h.Honest() && Sendable(log) && env.tls == h.ServerEnd() && Speaks(env.site)
    requires var c := Run(env, Accepted(true), events);
      && c.wireIn <= ClientStream(h, log) && Regular(env.site, c.appended)
      && OnceClosed(env.site, Chunks(env, Accepted(true), events))
      && Recordable(Serve(env.site, c.appended).replies)
    ensures var c := Run(env, Accepted(true), events);
      c.loop == Running && c.replies == Serve(env.site, c.appended).replies
  {
    RepliesExact(env, true, events);
    OnceClosedEnds(env.site, Chunks(env, Accepted(true), events));
    TlsLoopExact(env, h, log, events);
  }

  lemma {:induction false} PlainStaysRunning(env: Setting, events: seq<Event>)
    requires Speaks(env.site) && OnceClosed(env.site, Chunks(env, Accepted(false), events))
    requires Regular(env.site, Run(env, Accepted(false), events).appended)
    ensures var c := Run(env, Accepted(false), events);
      c.loop == Running && c.replies == Serve(env.site, c.appended).replies
  {
    RepliesExact(env, false, events);
    OnceClosedEnds(env.site, Chunks(env, Accepted(false), events));
    PlainLoopExact(env, events);
  }

  // ---- transparency ----

  lemma {:induction false} HeardSettled(site: Site, part: Bytes, stream: Bytes)
    requires Regular(site, stream) && part <= stream
    requires part == stream || Serve(site, part).ending == Closing
    ensures Regular(site, part) && Serve(site, part).replies == Serve(site, stream).replies
  {
    var more := stream[|part|..];
    assert stream == part + more;
    RegularPrefix(site, part, more);
    ServeAppend(site, part, more);
  }

  lemma {:induction false} PlainAll(env: Setting, stream: Bytes, events: seq<Event>)
    requires Speaks(env.site) && Regular(env.site, stream)
    requires var p := Run(env, Accepted(false), events);
      && p.wireIn <= stream && p.output == [] && OnceClosed(env.site, Chunks(env, Accepted(false), events))
      && Heard(env.site, p.wireIn, stream, p.wireIn)
    ensures Run(env, Accepted(false), events).sent == Flatten(Serve(env.site, stream).replies)
  {
    var p := Run(env, Accepted(false), events);
    HeardSettled(env.site, p.wireIn, stream);
    PlainWires(env, events);
    PlainStaysRunning(env, events);
    PlainHeard(env, stream, events);
  }

  /** The plaintext of a plain connection is what it has read. */
  lemma {:induction false} PlainWiresFrom(env: Setting, c: Conn, events: seq<Event>)
    requires Speaks(env.site) && Inv(env, c) && c.tls.None? && c.appended == c.wireIn
    ensures var d := Run(env, c, events); d.appended == d.wireIn
    decreases |events|
  {
    if events != [] {
      var e := events[0];
      ServiceKeeps(env, c, e);
      if Reported(c, e) && e.read.Some? && e.read.value.Data? && e.read.value.bytes != [] {
        AppendKeeps(env, c.(wireIn := c.wireIn + e.read.value.bytes), e.read.value.bytes);
      }
      PlainWiresFrom(env, Service(env, c, e), events[1..]);
    }
  }

  lemma {:induction false} PlainWires(env: Setting, events: seq<Event>)
    requires Speaks(env.site)
    ensures var p := Run(env, Accepted(false), events); p.appended == p.wireIn
  {
    AcceptedInv(env, false);
    PlainWiresFrom(env, Accepted(false), events);
  }

  lemma {:induction false} TlsAll(env: Setting, h: Setup, log: seq<Sent>, events: seq<Event>)
    requires h.Honest() && Sendable(log) && env.tls == h.ServerEnd() && Speaks(env.site)
    requires Regular(env.site, RequestStream(log)) && Recordable(Serve(env.site, RequestStream(log)).replies)
    requires var t := Run(env, Accepted(true), events);
      && t.wireIn <= ClientStream(h, log) && t.output == [] && OnceClosed(env.site, Chunks(env, Accepted(true), events))
      && Heard(env.site, t.wireIn, ClientStream(h, log), t.appended)
    ensures var due := Serve(env.site, RequestStream(log)).replies;
      Decrypts(h, Run(env, Accepted(true), events).sent).core.plaintext == Flatten(due[..Fitting(due)])
  {
    var t := Run(env, Accepted(true), events);
    PlaintextArrives(env, h, log, events);
    HeardSettled(env.site, t.appended, RequestStream(log));
    TlsStaysRunning(env, h, log, events);
    DecryptsIffFits(env, h, log, events);
  }

  lemma {:induction false} FittingAll(due: seq<Bytes>)
    ensures Flatten(due[..Fitting(due)]) == Flatten(due) <==> Fits(due)
  {
    var k := Fitting(due);
    if k == |due| {
      assert due[..k] == due;
    } else {
      assert due == due[..k] + due[k..];
      FlattenAppend(due[..k], due[k..]);
    }
  }

  /** Transparency with no assumption on how the two runs went. Each side has heard an
      honest request stream, or some of it with a request that closes, of which nothing has
      been read since, and has flushed. Whatever the records, the chunks and the partial
      sends, the plain peer has received exactly the pipeline's responses; the honest TLS
      client has decrypted them up to the first that does not fit into a record; and the
      two hold the same bytes if and only if all fit. */
  lemma {:induction false} TransparentOnceClosed(env: Setting, h: Setup, log: seq<Sent>,
                                                 tlsEvents: seq<Event>, plainEvents: seq<Event>)
    requires h.Honest() && Sendable(log) && env.tls == h.ServerEnd() && Speaks(env.site)
    requires Regular(env.site, RequestStream(log)) && Recordable(Serve(env.site, RequestStream(log)).replies)
    requires var t := Run(env, Accepted(true), tlsEvents);
      && t.wireIn <= ClientStream(h, log) && t.output == []
      && OnceClosed(env.site, Chunks(env, Accepted(true), tlsEvents))
      && Heard(env.site, t.wireIn, ClientStream(h, log), t.appended)
    requires var p := Run(env, Accepted(false), plainEvents);
      && p.wireIn <= RequestStream(log) && p.output == []
      && OnceClosed(env.site, Chunks(env, Accepted(false), plainEvents))
      && Heard(env.site, p.wireIn, RequestStream(log), p.wireIn)
    ensures var due := Serve(env.site, RequestStream(log)).replies;
      var seen := Decrypts(h, Run(env, Accepted(true), tlsEvents).sent).core.plaintext;
      var plain := Run(env, Accepted(false), plainEvents).sent;
      plain == Flatten(due) && seen == Flatten(due[..Fitting(due)]) && (seen == plain <==> Fits(due))
  {
    TlsAll(env, h, log, tlsEvents);
    PlainAll(env, RequestStream(log), plainEvents);
    FittingAll(Serve(env.site, RequestStream(log)).replies);
  }

  // ---- such runs can always be completed ----

  lemma {:induction false} RunAppend(env: Setting, c: Conn, first: seq<Event>, later: seq<Event>)
    ensures Run(env, c, first + later) == Run(env, Run(env, c, first), later)
    decreases |first|
  {
    if first == [] {
      assert first + later == later;
    } else {
      assert (first + later)[1..] == first[1..] + later;
      RunAppend(env, Service(env, c, first[0]), first[1..], later);
    }
  }

  lemma {:induction false} RunOne(env: Setting, c: Conn, events: seq<Event>, e: Event)
    ensures Run(env, c, events + [e]) == Service(env, Run(env, c, events), e)
  {
    RunAppend(env, c, events, [e]);
    assert Run(env, Service(env, Run(env, c, events), e), []) == Service(env, Run(env, c, events), e);
  }

  lemma ReadRest(env: Setting, h: Setup, log: seq<Sent>, c: Conn, bytes: Bytes)
    requires h.Honest() && Sendable(log) && env.tls == h.ServerEnd() && Speaks(env.site)
    requires Inv(env, c) && c.link.Open? && c.loop == Running && c.tls.Some? && Tracking(h, log, c)
    requires bytes != [] && c.wireIn + bytes == ClientStream(h, log)
    ensures var d := Service(env, c, Arrives(bytes)); d.wireIn == ClientStream(h, log) && d.link.Open?
  {
    PrefixSlice(c.wireIn, bytes, ClientStream(h, log));
    FeedFollows(h, log, c.tls.value.core, c.tls.value.buffer, |c.wireIn|, c.appended, bytes);
    ReadSplits(env, c, bytes);
  }

  /** An open connection can send everything it has. */
  lemma FlushAll(env: Setting, c: Conn) returns (more: seq<Event>)
    requires OutputOk(c) && c.link.Open? && c.loop == Running
    ensures var d := Run(env, c, more); d.output == [] && d.wireIn == c.wireIn
  {
    if c.output == [] {
      more := [];
    } else {
      more := [Event(None, Some(Took(|c.output|)))];
      RunOne(env, c, [], more[0]);
      assert [] + [more[0]] == more;
    }
  }

  /** What a settled stream says of the part that has arrived. */
  lemma {:induction false} SettledPart(site: Site, part: Bytes, stream: Bytes)
    requires Settled(site, stream) && part <= stream
    ensures Regular(site, part) && Serve(site, part).replies <= Serve(site, stream).replies
  {
    if part != stream {
      SettledPrefix(site, part, stream);
    }
  }

  lemma {:induction false} FrontShorter(chunks: seq<Bytes>, front: seq<Bytes>, last: Bytes, stream: Bytes)
    requires chunks == front + [last] && last != [] && Flatten(chunks) <= stream
    ensures Flatten(front) < stream
  {
    FlattenFront(front, last, stream);
  }

  /** However it is cut, only its last chunk can close. */
  lemma {:induction false} SettledOnceClosed(site: Site, chunks: seq<Bytes>, stream: Bytes)
    requires Settled(site, stream) && Flatten(chunks) <= stream
    requires forall i :: 0 <= i < |chunks| ==> chunks[i] != []
    ensures OnceClosed(site, chunks)
  {
    if chunks != [] {
      var front, last := chunks[..|chunks| - 1], chunks[|chunks| - 1];
      LastSplit(chunks);
      FrontShorter(chunks, front, last, stream);
      SettledPrefix(site, Flatten(front), stream);
    }
  }

  lemma {:induction false} TlsRuns(env: Setting, h: Setup, log: seq<Sent>, events: seq<Event>)
    requires h.Honest() && Sendable(log) && env.tls == h.ServerEnd() && Speaks(env.site)
    requires Settled(env.site, RequestStream(log)) && Recordable(Serve(env.site, RequestStream(log)).replies)
    requires Run(env, Accepted(true), events).wireIn <= ClientStream(h, log)
    ensures var c := Run(env, Accepted(true), events);
      && Inv(env, c) && c.tls.Some? && c.loop == Running && Tracking(h, log, c) && c.appended <= RequestStream(log)
      && OnceClosed(env.site, Chunks(env, Accepted(true), events))
  {
    AcceptedInv(env, true);
    RunKeeps(env, Accepted(true), events);
    AcceptedFollows(h, log);
    RunTracks(env, h, log, Accepted(true), events);
    PlaintextArrives(env, h, log, events);
    RepliesExact(env, true, events);
    ChunksNonempty(env, Accepted(true), events);
    SettledPart(env.site, Run(env, Accepted(true), events).appended, RequestStream(log));
    SettledOnceClosed(env.site, Chunks(env, Accepted(true), events), RequestStream(log));
    TlsStaysRunning(env, h, log, events);
  }

  lemma {:induction false} TlsReadsRest(env: Setting, h: Setup, log: seq<Sent>, events: seq<Event>)
    returns (read: seq<Event>)
    requires h.Honest() && Sendable(log) && env.tls == h.ServerEnd() && Speaks(env.site)
    requires Settled(env.site, RequestStream(log)) && Recordable(Serve(env.site, RequestStream(log)).replies)
    requires var c := Run(env, Accepted(true), events); c.wireIn <= ClientStream(h, log) && c.link.Open?
    ensures var c := Run(env, Accepted(true), events + read); c.wireIn == ClientStream(h, log) && c.link.Open?
  {
    var c := Run(env, Accepted(true), events);
    var rest := ClientStream(h, log)[|c.wireIn|..];
    if rest == [] {
      read := [];
      assert events + read == events;
    } else {
      read := [Arrives(rest)];
      TlsRuns(env, h, log, events);
      ReadRest(env, h, log, c, rest);
      RunOne(env, Accepted(true), events, Arrives(rest));
    }
  }

  /** From every open state that an honest client's stream can lead to, reading the rest
      and flushing completes the run, as TransparentOnceClosed asks of it. */
  lemma {:induction false} TlsCompletable(env: Setting, h: Setup, log: seq<Sent>, events: seq<Event>)
    returns (more: seq<Event>)
    requires h.Honest() && Sendable(log) && env.tls == h.ServerEnd() && Speaks(env.site)
    requires Settled(env.site, RequestStream(log)) && Recordable(Serve(env.site, RequestStream(log)).replies)
    requires var c := Run(env, Accepted(true), events); c.wireIn <= ClientStream(h, log) && c.link.Open?
    ensures var t := Run(env, Accepted(true), events + more);
      && t.wireIn == ClientStream(h, log) && t.output == []
      && OnceClosed(env.site, Chunks(env, Accepted(true), events + more))
  {
    var read := TlsReadsRest(env, h, log, events);
    TlsRuns(env, h, log, events + read);
    var flush := FlushAll(env, Run(env, Accepted(true), events + read));
    more := read + flush;
    RunAppend(env, Accepted(true), events + read, flush);
    ConcatAssoc(events, read, flush);
    TlsRuns(env, h, log, events + more);
  }

  lemma PlainReadRest(env: Setting, c: Conn, bytes: Bytes)
    requires Speaks(env.site) && Inv(env, c) && c.link.Open? && c.loop == Running && c.tls.None? && bytes != []
    ensures var d := Service(env, c, Arrives(bytes)); d.wireIn == c.wireIn + bytes && d.link.Open?
  {
    AppendKeeps(env, c.(wireIn := c.wireIn + bytes), bytes);
  }

  lemma {:induction false} PlainRuns(env: Setting, stream: Bytes, events: seq<Event>)
    requires Speaks(env.site) && Settled(env.site, stream)
    requires Run(env, Accepted(false), events).wireIn <= stream
    ensures var c := Run(env, Accepted(false), events);
      && Inv(env, c) && c.tls.None? && c.loop == Running
      && OnceClosed(env.site, Chunks(env, Accepted(false), events))
  {
    AcceptedInv(env, false);
    RunKeeps(env, Accepted(false), events);
    PlainWires(env, events);
    RepliesExact(env, false, events);
    ChunksNonempty(env, Accepted(false), events);
    SettledPart(env.site, Run(env, Accepted(false), events).wireIn, stream);
    SettledOnceClosed(env.site, Chunks(env, Accepted(false), events), stream);
    PlainStaysRunning(env, events);
  }

  /** The same on the plain path. */
  lemma {:induction false} PlainCompletable(env: Setting, stream: Bytes, events: seq<Event>) returns (more: seq<Event>)
    requires Speaks(env.site) && Settled(env.site, stream)
    requires var c := Run(env, Accepted(false), events); c.wireIn <= stream && c.link.Open?
    ensures var p := Run(env, Accepted(false), events + more);
      p.wireIn == stream && p.output == [] && OnceClosed(env.site, Chunks(env, Accepted(false), events + more))
  {
    var c := Run(env, Accepted(false), events);
    PlainRuns(env, stream, events);
    var rest := stream[|c.wireIn|..];
    var read := if rest == [] then [] else [Arrives(rest)];
    if rest != [] {
      assert c.wireIn + rest == stream;
      PlainReadRest(env, c, rest);
      RunOne(env, Accepted(false), events, Arrives(rest));
      PlainRuns(env, stream, events + read);
    } else {
      assert events + read == events;
    }
    var flush := FlushAll(env, Run(env, Accepted(false), events + read));
    more := read + flush;
    RunAppend(env, Accepted(false), events + read, flush);
    ConcatAssoc(events, read, flush);
    PlainRuns(env, stream, events + more);
  }

  // ---- why a run may not go on reading behind a closing request ----

  lemma {:induction false} StuckHandles(env: Setting, c: Conn)
    requires c.link.Open? && c.loop == Running && c.tls.None? && Stuck(env.site, c.httpInput)
    ensures HandleHttp(env, c).loop == Spins && HandleHttp(env, c).sent == c.sent
  {
    NoProgressIff(c.httpInput);
    AnswerShrinks(env, c, Parse(c.httpInput).message, Parse(c.httpInput).consumed);
    HandleTouches(env, c);
  }

  lemma PlainStuck(env: Setting, c: Conn, bytes: Bytes)
    requires c.link.Open? && c.loop == Running && c.tls.None? && c.httpInput == [] && bytes != []
    requires Stuck(env.site, bytes)
    ensures var d := Service(env, c, Arrives(bytes)); d.loop == Spins && d.sent == c.sent
  {
    assert [] + bytes == bytes;
    StuckHandles(env, c.(wireIn := c.wireIn + bytes, httpInput := bytes, appended := c.appended + bytes));
  }

  lemma {:induction false} ClosedBuffer(env: Setting, r: Request)
    requires Speaks(env.site) && WellPrinted(r) && Answer(env.site, r).close
    ensures var c := Run(env, Accepted(false), [Arrives(PrintRequest(r))]);
      c.link.Open? && c.loop == Running && c.tls.None? && c.closing && c.httpInput == [] && c.sent == []
  {
    var text := PrintRequest(r);
    var start := Accepted(false);
    ServeFirst(env.site, r, []);
    assert text + [] == text && [] + text == text;
    PrintedNotEmpty(r);
    AcceptedInv(env, false);
    RunOne(env, start, [], Arrives(text));
    assert [] + [Arrives(text)] == [Arrives(text)];
    AppendKeeps(env, start.(wireIn := text), text);
    HandleKeeps(env, start.(wireIn := text, httpInput := text, appended := text));
    ReadTouches(env, start, Data(text));
    AppendFull(env, start.(wireIn := text), text);
    assert Run(env, start, []) == start;
  }

  lemma PrintedNotEmpty(r: Request)
    ensures PrintRequest(r) != []
  {
    assert |PrintHead(r.method_, r.url, r.version, r.fields)| >= |HEADER_END|;
  }

  lemma KeptNotEmpty(url: Bytes, n: nat)
    ensures KeptRequest(url, n) != []
  {
    assert |PrintHead(GET, url, HTTP_1_1, KeptFields(n))| >= |HEADER_END|;
  }

  /** One read that the server never comes back from: for every site of files and every file
      on it there is a request on which its request loop repeats itself. */
  lemma {:induction false} OneRequestSpins(env: Setting, files: Files, explain: InvalidReason -> Bytes, url: Bytes)
    returns (n: nat)
    requires env.site == SiteOf(files, explain) && files(url).File? && Lacks(url, SPACE) && Lacks(url, CR)
    ensures Run(env, Accepted(false), [Arrives(KeptRequest(url, n))]).loop == Spins
  {
    n := StuckRequest(files, explain, url);
    KeptNotEmpty(url, n);
    PlainStuck(env, Accepted(false), KeptRequest(url, n));
    RunOne(env, Accepted(false), [], Arrives(KeptRequest(url, n)));
    assert [] + [Arrives(KeptRequest(url, n))] == [Arrives(KeptRequest(url, n))];
    assert Run(env, Accepted(false), []) == Accepted(false);
  }

  /** And behind any request that closes, before its response has left: it never leaves. */
  lemma {:induction false} SpinsBehindClosing(env: Setting, files: Files, explain: InvalidReason -> Bytes,
                                              r: Request, url: Bytes) returns (n: nat)
    requires env.site == SiteOf(files, explain) && files(url).File? && Lacks(url, SPACE) && Lacks(url, CR)
    requires WellPrinted(r) && Answer(env.site, r).close
    ensures var stuck := KeptRequest(url, n);
      var c := Run(env, Accepted(false), [Arrives(PrintRequest(r)), Arrives(stuck)]);
      c.loop == Spins && c.sent == [] && Regular(env.site, PrintRequest(r) + stuck)
  {
    n := StuckRequest(files, explain, url);
    var stuck := KeptRequest(url, n);
    var first := [Arrives(PrintRequest(r))];
    SiteSpeaks(files, explain);
    KeptNotEmpty(url, n);
    ClosedBuffer(env, r);
    RunOne(env, Accepted(false), first, Arrives(stuck));
    assert first + [Arrives(stuck)] == [Arrives(PrintRequest(r)), Arrives(stuck)];
    PlainStuck(env, Run(env, Accepted(false), first), stuck);
    ServeFirst(env.site, r, stuck);
  }
}
