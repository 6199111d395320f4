/** The whole client against the whole server: request_http_over_self_written_tls
    (client_side.py) joined to one connection of the event loop (tls_web_server/server.py)
    by two byte channels that deliver in order but cut the streams anywhere. */
module EndToEnd {
  import opened Wire
  import opened Text
  import opened Framing
  import opened Crypto
  import opened RecordProtection
  import opened Connection
  import opened Session
  import opened Http
  import opened Pipeline
  import opened StaticSite
  import opened Server
  import opened ConnectionRuns
  import opened Transparency
  import opened SteadyRuns
  import opened ClientLoop
  import opened HttpTexts

  // ---- the request and its response ----

  const HOST_FIELD := FieldText(Latin("Host"), Latin(" localhost"))
  const CLOSE_FIELD := FieldText(Latin("Connection"), Latin(" close"))

  /** HTTP_REQUEST: GET / with Host: localhost and Connection: close. */
  const ASKED := Request(GET, Latin("/"), HTTP_1_1, [HOST_FIELD, CLOSE_FIELD], [])

  const HTTP_REQUEST: Bytes := PrintRequest(ASKED)

  /** Status, body and kind of a response that is not to a HEAD. */
  datatype Sheet = Sheet(status: nat, body: Bytes, kind: Bytes)

  /** What the files hold for "/". */
  function SheetOf(files: Files): Sheet {
    match files(Latin("/"))
    case Outside => Sheet(403, Latin("403 Forbidden"), Latin("text/plain"))
    case Missing => Sheet(404, Latin("404 Not Found"), Latin("text/plain"))
    case File(body, html) => Sheet(200, body, Latin(if html then "text/html" else "text/plain"))
  }

  function Response(files: Files): Bytes {
    HttpResponse(SheetOf(files).status, SheetOf(files).body, SheetOf(files).kind, true, None)
  }

  lemma AskedValues()
    ensures Strip(Latin1, Latin(" localhost")) == Latin("localhost") && Strip(Latin1, Latin(" close")) == Latin("close")
  {
    StripExactly(Latin1, [SPACE], Latin("localhost"), []);
    StripExactly(Latin1, [SPACE], Latin("close"), []);
    assert [SPACE] + (Latin("localhost") + []) == Latin(" localhost");
    assert [SPACE] + (Latin("close") + []) == Latin(" close");
  }

  lemma AskedNamesDiffer()
    ensures Latin("host") != Latin("connection") && |Latin("close")| == 5 && |KEEP_ALIVE| == 10
    ensures CONTENT_LENGTH != Latin("host") && CONTENT_LENGTH != Latin("connection")
  {
    assert |Latin("host")| == 4 && |Latin("connection")| == 10;
  }

  /** The two headers of the request, as they are stored. */
  lemma {:induction false} AskedHeaders()
    ensures FieldMap(ASKED.fields, map[])
      == map[Latin("host") := Latin("localhost"), Latin("connection") := Latin("close")]
    ensures CONTENT_LENGTH !in FieldMap(ASKED.fields, map[])
  {
    UsualNames();
    AskedValues();
    AskedNamesDiffer();
    FieldMapTwo(HOST_FIELD, CLOSE_FIELD);
  }

  lemma FieldMapTwo(f: FieldText, g: FieldText)
    ensures FieldMap([f, g], map[])
      == map[FieldName(f.name) := Strip(Latin1, f.value)][FieldName(g.name) := Strip(Latin1, g.value)]
  {
    assert [f, g][1..] == [g] && [g][1..] == [];
    var first := map[FieldName(f.name) := Strip(Latin1, f.value)];
    assert FieldMap([f, g], map[]) == FieldMap([g], first);
    assert FieldMap([g], first) == first[FieldName(g.name) := Strip(Latin1, g.value)];
  }

  lemma HostPrintable()
    ensures FieldPrintable(HOST_FIELD)
  {
    assert CleanText("Host") && CleanText(" localhost");
    LatinLacksCR("Host");
    LatinLacksCR(" localhost");
  }

  lemma ClosePrintable()
    ensures FieldPrintable(CLOSE_FIELD)
  {
    assert CleanText("Connection") && CleanText(" close");
    LatinLacksCR("Connection");
    LatinLacksCR(" close");
  }

  lemma JoinThree(a: Bytes, b: Bytes, c: Bytes)
    ensures Join([a, b, c], CRLF) == a + CRLF + (b + CRLF + c)
  {
    assert [a, b, c][1..] == [b, c] && [b, c][1..] == [c];
    assert Join([b, c], CRLF) == b + CRLF + Join([c], CRLF);
  }

  lemma StartLineText()
    ensures RequestLine(GET, Latin("/"), HTTP_1_1) == Latin("GET / HTTP/1.1")
  {
  }

  lemma FieldLinesText()
    ensures FieldLine(HOST_FIELD) == Latin("Host: localhost")
    ensures FieldLine(CLOSE_FIELD) == Latin("Connection: close")
  {
  }

  /** These are the bytes of HTTP_REQUEST, line by line. */
  lemma {:induction false} AskedText()
    ensures HTTP_REQUEST
      == Latin("GET / HTTP/1.1") + CRLF + (Latin("Host: localhost") + CRLF + Latin("Connection: close")) + HEADER_END
    ensures |HTTP_REQUEST| <= MAX_PLAINTEXT
  {
    StartLineText();
    FieldLinesText();
    JoinThree(Latin("GET / HTTP/1.1"), Latin("Host: localhost"), Latin("Connection: close"));
    LinesText(ASKED.fields, Latin("GET / HTTP/1.1"));
    EmptyAfter(PrintHead(GET, Latin("/"), HTTP_1_1, ASKED.fields));
  }

  lemma LinesText(fields: seq<FieldText>, start: Bytes)
    requires |fields| == 2
    ensures [start] + FieldLines(fields) == [start, FieldLine(fields[0]), FieldLine(fields[1])]
  {
  }

  lemma TargetPrintable()
    ensures Lacks(Latin("/"), SPACE) && Lacks(Latin("/"), CR)
  {
  }

  lemma PrintableTwo(target: Bytes, f: FieldText, g: FieldText)
    requires Lacks(target, SPACE) && Lacks(target, CR) && FieldPrintable(f) && FieldPrintable(g)
    ensures Printable(GET, target, HTTP_1_1, [f, g])
  {
  }

  lemma AskedPrintable()
    ensures WellPrinted(ASKED)
  {
    AskedHeaders();
    HostPrintable();
    ClosePrintable();
    TargetPrintable();
    PrintableTwo(Latin("/"), HOST_FIELD, CLOSE_FIELD);
  }

  function AskedMessage(): HTTPMessage {
    HTTPMessage(ASKED.method_, ASKED.url, ASKED.version, FieldMap(ASKED.fields, map[]), ASKED.body)
  }

  lemma IsGet(m: HTTPMessage)
    requires m.method_ == GET
    ensures IsMethod(m, "get") && !IsMethod(m, "head")
  {
    assert |Lower(Ascii, GET)| == 3 && |Latin("head")| == 4;
    assert Lower(Ascii, GET) == Latin("get");
  }

  lemma ShortValueCloses(m: HTTPMessage)
    requires CONNECTION in m.headers ==> |m.headers[CONNECTION]| < |KEEP_ALIVE|
    ensures !AsksToStay(m)
  {
  }

  lemma AskedIsGet()
    ensures IsMethod(AskedMessage(), "get") && !IsMethod(AskedMessage(), "head") && !AsksToStay(AskedMessage())
  {
    AskedHeaders();
    AskedNamesDiffer();
    StoredNames();
    IsGet(AskedMessage());
    ShortValueCloses(AskedMessage());
  }

  /** The response, as the bytes it is. */
  lemma ResponseWords(files: Files)
    ensures Response(files) ==
      match files(Latin("/"))
      case Outside => ResponseText(403, 13, Latin("text/plain"), true, Latin("403 Forbidden"))
      case Missing => ResponseText(404, 13, Latin("text/plain"), true, Latin("404 Not Found"))
      case File(body, html) =>
        ResponseText(200, |body|, if html then Latin("text/html") else Latin("text/plain"), true, body)
  {
    var sheet := SheetOf(files);
    RefusalLengths();
    HttpResponseText(sheet.status, sheet.body, sheet.kind, true, None);
  }

  /** The request is answered with what the files hold for "/", and the connection closes. */
  lemma {:induction false} AskedAnswer(files: Files, explain: InvalidReason -> Bytes)
    ensures Answer(SiteOf(files, explain), ASKED) == Reply(Response(files), true)
    ensures Response(files) ==
      match files(Latin("/"))
      case Outside => ResponseText(403, 13, Latin("text/plain"), true, Latin("403 Forbidden"))
      case Missing => ResponseText(404, 13, Latin("text/plain"), true, Latin("404 Not Found"))
      case File(body, html) =>
        ResponseText(200, |body|, if html then Latin("text/html") else Latin("text/plain"), true, body)
  {
    AskedIsGet();
    ResponseWords(files);
    assert Answer(SiteOf(files, explain), ASKED) == Respond(files, AskedMessage());
  }

  lemma SheetKindClean(files: Files)
    ensures Lacks(SheetOf(files).kind, CR)
  {
    assert CleanText("text/html") && CleanText("text/plain");
    LatinLacksCR("text/html");
    LatinLacksCR("text/plain");
  }

  /** The request stream is settled, and one pass over it makes the one response. */
  lemma AskedServed(files: Files, explain: InvalidReason -> Bytes)
    ensures var site := SiteOf(files, explain);
      Settled(site, HTTP_REQUEST) && Serve(site, HTTP_REQUEST).replies == [Response(files)]
  {
    AskedPrintable();
    AskedAnswer(files, explain);
    var rs := [ASKED];
    assert rs[..0] == [] && rs[1..] == [];
    assert PrintAll(rs) == HTTP_REQUEST + PrintAll([]);
    EmptyAfter(HTTP_REQUEST);
    PrintedSettles(SiteOf(files, explain), rs);
  }

  // ---- the joined system ----

  /** What the client's function is doing, or how it has ended. */
  datatype Stage = Connecting | Reading | Finished(bytes: Bytes) | Failed

  /** Both ends and the bytes in flight; `events` and `received` are history. */
  datatype Talk = Talk(
    events: seq<Event>, conn: Conn,
    core: ClientCore, buffer: Bytes, stage: Stage, plaintext: Bytes,
    toServer: Bytes, toClient: Bytes, received: Bytes)

  datatype Move =
    | ServerTurn(n: nat, write: Option<SendResult>) // one selector event: n bytes to read, and how much send takes
    | ClientTurn(n: nat)                            // recv gives the client n bytes
    | ClientEof                                     // or the end of the stream

  /** Who is joined: the two honest ends, the server's setting and the nonce of the request.
      The response has to fit into one record (Transparency.DecryptsIffFits). */
  datatype Ends = Ends(h: Setup, env: Setting, files: Files, explain: InvalidReason -> Bytes, nonce: Nonce)
  {
    ghost predicate Fine() {
      && h.Honest() && env.tls == h.ServerEnd() && env.site == SiteOf(files, explain)
      && |Response(files)| <= MAX_PLAINTEXT
    }

    function Log(): seq<Sent> {
      [Sent(HTTP_REQUEST, nonce)]
    }

    function ServerLog(): seq<Sent> {
      Numbered(env, [Response(files)])
    }
  }

  lemma JoinSize(a: Bytes, b: Bytes, c: Bytes, d: Bytes)
    ensures |Join([a, b, c, d], CRLF)| == |a| + |b| + |c| + |d| + 6
  {
    assert [a, b, c, d][1..] == [b, c, d];
    JoinThree(b, c, d);
  }

  lemma NotFoundFits(files: Files)
    requires files(Latin("/")) == Missing
    ensures |Response(files)| <= MAX_PLAINTEXT
  {
    var lines := ResponseLines(404, Latin("text/plain"), true, 13);
    DecimalShort(404);
    DecimalShort(13);
    JoinSize(lines[0], lines[1], lines[2], lines[3]);
    assert lines == [lines[0], lines[1], lines[2], lines[3]];
  }

  /** Two such ends exist. */
  lemma {:induction false} ToyEnds() returns (e: Ends)
    ensures e.Fine()
  {
    ToySetupHonest();
    var h := ToySetup();
    var files: Files := target => Missing;
    var explain: InvalidReason -> Bytes := reason => [];
    var nonce: Nonce := seq(NONCE_LEN, i => 0);
    e := Ends(h, Setting(SiteOf(files, explain), h.ServerEnd(), n => nonce), files, explain, nonce);
    NotFoundFits(files);
  }

  /** TCP is connected and the ClientHello has been sent. */
  function Begin(e: Ends): Talk {
    Talk([], Accepted(true), Taken(FreshClient(e.h.ClientEnd())), [], Connecting, [], Frame(e.h.ClientHello()), [], [])
  }

  /** One selector event: these bytes to read, if any, and what send takes, if it is asked. */
  function Turn(bytes: Bytes, write: Option<SendResult>): Event {
    Event(if bytes != [] then Some(Data(bytes)) else None, write)
  }

  /** The network loses nothing, so send does not fail. */
  predicate Enabled(t: Talk, m: Move) {
    match m
    case ServerTurn(n, write) => n <= |t.toServer| && write != Some(SendError)
        && Reported(t.conn, Turn(t.toServer[..n], write))
    case ClientTurn(n) => 0 < n <= |t.toClient| && (t.stage.Connecting? || t.stage.Reading?)
    case ClientEof => t.conn.link.Closed? && t.toClient == [] && (t.stage.Connecting? || t.stage.Reading?)
  }

  function Next(e: Ends, t: Talk, m: Move): Talk {
    if !Enabled(t, m) then t
    else
      match m
      case ServerTurn(n, write) => ServerGets(e, t.(toServer := t.toServer[n..]), Turn(t.toServer[..n], write))
      case ClientTurn(n) =>
        ClientGets(e, t.(toClient := t.toClient[n..], received := t.received + t.toClient[..n]), t.toClient[..n])
      case ClientEof => t.(stage := if t.stage.Connecting? then Stage.Failed else Finished(t.plaintext))
  }

  lemma FlushSends(c: Conn, r: SendResult)
    ensures c.sent <= Flush(c, r).sent && Flush(c, r).wireIn == c.wireIn
  {
  }

  lemma ServiceSends(env: Setting, c: Conn, v: Event)
    ensures c.sent <= Service(env, c, v).sent
  {
    var m := if v.read.Some? then Read(env, c, v.read.value) else c;
    if v.read.Some? {
      ReadTouches(env, c, v.read.value);
    }
    if v.write.Some? {
      FlushSends(m, v.write.value);
    }
  }

  function ServerGets(e: Ends, t: Talk, v: Event): Talk {
    ServiceSends(e.env, t.conn, v);
    var d := Service(e.env, t.conn, v);
    t.(events := t.events + [v], conn := d, toClient := t.toClient + d.sent[|t.conn.sent|..])
  }

  /** One turn of the client's loop. */
  function ClientGets(e: Ends, t: Talk, chunk: Bytes): Talk {
    var fed := Feed(ClientHandler(e.h.ClientEnd()), t.core, t.buffer, chunk);
    var u := t.(core := fed.core.(pendingWire := []), buffer := fed.buffer,
                toServer := t.toServer + fed.core.pendingWire);
    if fed.error.Some? then u.(stage := Stage.Failed)
    else if t.stage.Connecting? then
      if fed.core.phase == ClientEstablished then Asks(e, u) else u
    else
      var text := t.plaintext + fed.core.plaintext;
      var v := u.(core := Taken(fed.core), plaintext := text);
      match Check(text)
      case Complete => v.(stage := Finished(text))
      case BadLength => v.(stage := Stage.Failed)
      case NotYet => v
  }

  /** The handshake is done: sendall(protect_application_data(HTTP_REQUEST)). */
  function Asks(e: Ends, t: Talk): Talk {
    var (core, wire) := ClientProtect(e.h.ClientEnd(), t.core, HTTP_REQUEST, e.nonce);
    match wire
    case Err(_) => t.(core := core, stage := Stage.Failed)
    case Ok(bytes) => t.(core := core, stage := Reading, toServer := t.toServer + bytes)
  }

  function Run(e: Ends, t: Talk, moves: seq<Move>): Talk
    decreases |moves|
  {
    if moves == [] then t else Run(e, Next(e, t, moves[0]), moves[1..])
  }

  // ---- what the server's end has sent ----

  /** Everything the server will ever send in this talk. */
  function Stream(e: Ends): Bytes
    requires e.h.suite.exchange(e.h.ephemeral(0).privateKey, e.h.ClientShare()).Some?
  {
    FrameAll(e.h.Flight()) + FrameAll(Records(e.h.suite, e.h.Keys().serverWrite, e.ServerLog()))
  }

  ghost predicate ServerRuns(e: Ends, events: seq<Event>)
    requires e.Fine()
  {
    Server.Run(e.env, Accepted(true), events).wireIn <= ClientStream(e.h, e.Log())
  }

  lemma LogStream(e: Ends)
    requires e.Fine()
    ensures Sendable(e.Log()) && RequestStream(e.Log()) == HTTP_REQUEST
    ensures Speaks(e.env.site) && Settled(e.env.site, HTTP_REQUEST)
    ensures Serve(e.env.site, HTTP_REQUEST).replies == [Response(e.files)]
  {
    AskedText();
    assert Texts(e.Log()) == [HTTP_REQUEST];
    FlattenOne(HTTP_REQUEST);
    SiteSpeaks(e.files, e.explain);
    AskedServed(e.files, e.explain);
  }

  /** The state of a server that has read a part of the client's stream. */
  ghost predicate Serving(e: Ends, c: Conn)
    requires e.Fine()
  {
    && Inv(e.env, c) && c.tls.Some? && c.loop == Running && Following(e.h, e.Log(), c)
    && c.appended <= HTTP_REQUEST && c.replies == Serve(e.env.site, c.appended).replies
    && c.replies <= [Response(e.files)]
    && c.wireIn <= ClientStream(e.h, e.Log())
    && (c.wireIn == ClientStream(e.h, e.Log()) ==> c.replies == [Response(e.files)])
  }

  lemma {:induction false} ServerServes(e: Ends, events: seq<Event>)
    requires e.Fine() && ServerRuns(e, events)
    ensures Serving(e, Server.Run(e.env, Accepted(true), events))
  {
    LogStream(e);
    var c := Server.Run(e.env, Accepted(true), events);
    PlaintextArrives(e.env, e.h, e.Log(), events);
    TlsRuns(e.env, e.h, e.Log(), events);
    if c.appended != HTTP_REQUEST {
      SettledPrefix(e.env.site, c.appended, HTTP_REQUEST);
    }
    SettledPart(e.env.site, c.appended, HTTP_REQUEST);
    TlsStaysRunning(e.env, e.h, e.Log(), events);
  }

  lemma RecordsPrefix(env: Setting, key: Bytes, a: seq<Bytes>, b: seq<Bytes>)
    requires a <= b
    ensures FrameAll(Records(env.tls.suite, key, Numbered(env, a)))
        <= FrameAll(Records(env.tls.suite, key, Numbered(env, b)))
  {
    var front, all := Records(env.tls.suite, key, Numbered(env, a)), Records(env.tls.suite, key, Numbered(env, b));
    assert all == front + all[|a|..];
    FrameAllAppend(front, all[|a|..]);
  }

  lemma PrefixBehind(front: Bytes, a: Bytes, b: Bytes)
    requires a <= b
    ensures front + a <= front + b
  {
  }

  function ServerRecords(e: Ends, replies: seq<Bytes>): Bytes
    requires e.h.suite.exchange(e.h.ephemeral(0).privateKey, e.h.ClientShare()).Some?
  {
    FrameAll(Records(e.h.suite, e.h.Keys().serverWrite, Numbered(e.env, replies)))
  }

  lemma QueuedPart(e: Ends, replies: seq<Bytes>)
    requires e.Fine() && replies <= [Response(e.files)]
    ensures FrameAll(e.h.Flight()) + ServerRecords(e, replies) <= Stream(e)
    ensures replies == [] ==> FrameAll(e.h.Flight()) + ServerRecords(e, replies) == FrameAll(e.h.Flight())
  {
    RecordsPrefix(e.env, e.h.Keys().serverWrite, replies, [Response(e.files)]);
    PrefixBehind(FrameAll(e.h.Flight()), ServerRecords(e, replies), ServerRecords(e, [Response(e.files)]));
    if replies == [] {
      assert Records(e.h.suite, e.h.Keys().serverWrite, []) == [];
      EmptyAfter(FrameAll(e.h.Flight()));
    }
  }

  lemma EstablishedQueued(e: Ends, c: Conn)
    requires e.Fine() && Serving(e, c) && c.tls.value.core.phase == ServerEstablished
    ensures c.queued == FrameAll(e.h.Flight()) + ServerRecords(e, c.replies)
  {
    assert FlightFor(e.env.tls, c.tls.value.core.signings[0]) == e.h.Flight();
  }

  /** What it has queued: nothing before the handshake, then the flight and its responses. */
  lemma ServerQueued(e: Ends, c: Conn)
    requires e.Fine() && Serving(e, c)
    ensures c.sent <= c.queued <= Stream(e) && (c.replies == [Response(e.files)] ==> c.queued == Stream(e))
    ensures c.replies == [] ==> c.queued <= FrameAll(e.h.Flight())
    ensures c.replies == [] && c.tls.value.core.phase == ServerEstablished ==> c.queued == FrameAll(e.h.Flight())
  {
    if c.tls.value.core.phase == ServerEstablished {
      EstablishedQueued(e, c);
      QueuedPart(e, c.replies);
    }
  }

  /** The client's stream is its hello and one record. */
  lemma ClientStreamIs(e: Ends)
    requires e.Fine()
    ensures var record := Records(e.h.suite, e.h.Keys().clientWrite, e.Log())[0];
      && ClientStream(e.h, e.Log()) == Frame(e.h.ClientHello()) + Frame(record)
      && record == Record(e.h.suite, e.h.Keys().clientWrite, 0, e.nonce, HTTP_REQUEST)
      && |Frame(record)| > 0
  {
    var record := Records(e.h.suite, e.h.Keys().clientWrite, e.Log())[0];
    assert Records(e.h.suite, e.h.Keys().clientWrite, e.Log()) == [record];
    FrameAllCons(e.h.ClientHello(), [record]);
    FrameAllCons(record, []);
    EmptyAfter(Frame(record));
  }

  /** A buffer that holds the hello does not wait. */
  lemma HelloPops(e: Ends, buffer: Bytes)
    requires e.Fine()
    requires buffer + ClientStream(e.h, e.Log())[|Frame(e.h.ClientHello())|..] == ClientStream(e.h, e.Log())
    ensures PopFrom(buffer).Popped?
  {
    ClientStreamIs(e);
    var hello := Frame(e.h.ClientHello());
    HelloFits(e.h.ClientShare());
    PopOfFrame(e.h.ClientHello(), []);
    EmptyAfter(hello);
    SameFront(buffer, hello, ClientStream(e.h, e.Log()));
  }

  lemma SameFront(buffer: Bytes, front: Bytes, stream: Bytes)
    requires front <= stream && buffer + stream[|front|..] == stream
    ensures buffer == front
  {
    assert |buffer + stream[|front|..]| == |buffer| + |stream| - |front|;
    assert buffer == (buffer + stream[|front|..])[..|buffer|];
  }

  lemma RecordTaken(e: Ends, s: ServerCore)
    requires e.Fine() && ServerInSession(e.h, s) && s.recvSeq <= 1
    ensures s.recvSeq == 1 ==> FrameAll(AwaitedByServer(e.h, s, e.Log())) == []
  {
  }

  /** While only the hello has come, nothing has been heard or said. */
  lemma HelloOnly(e: Ends, c: Conn)
    requires e.Fine() && Serving(e, c) && c.wireIn <= Frame(e.h.ClientHello())
    ensures c.appended == [] && c.replies == []
    ensures c.wireIn == Frame(e.h.ClientHello()) ==> c.tls.value.core.phase == ServerEstablished
  {
    ClientStreamIs(e);
    var hello := Frame(e.h.ClientHello());
    var record := Records(e.h.suite, e.h.Keys().clientWrite, e.Log())[0];
    var end := c.tls.value;
    var rest := ClientStream(e.h, e.Log())[|c.wireIn|..];
    assert |rest| >= |Frame(record)|;
    assert end.buffer + rest == FrameAll(AwaitedByServer(e.h, end.core, e.Log()));
    assert |end.buffer + rest| == |end.buffer| + |rest|;
    RecordTaken(e, end.core);
    assert Texts(e.Log())[..0] == [];
    if c.wireIn == hello && end.core.phase == WaitClientHello {
      HelloPops(e, end.buffer);
    }
  }

  // ---- the server closes only behind its response ----

  /** No end of stream and no socket error: it is marked closing only by a response, and
      closed only when that has been sent. */
  predicate Calm(c: Conn) {
    && (c.closing ==> c.replies != [])
    && (c.link.Closed? ==> c.link == Closed(ResponsesSent) && c.closing)
  }

  lemma {:induction false} ClosingReplies(site: Site, data: Bytes)
    ensures Serve(site, data).ending == Closing ==> Serve(site, data).replies != []
    decreases |data|
  {
    if Parse(data).Parsed? {
      var rest := DropPy(data, Parse(data).consumed);
      if |rest| < |data| {
        ClosingReplies(site, rest);
      }
    }
  }

  lemma AppendCalm(env: Setting, c: Conn, text: Bytes)
    requires Speaks(env.site) && c.link.Open? && c.loop == Running && OutputOk(c) && Sending(env, c) && Calm(c)
    requires Append(env, c, text).loop == Running
    ensures Calm(Append(env, c, text)) && Append(env, c, text).link.Open?
  {
    HandleKeeps(env, c.(httpInput := c.httpInput + text, appended := c.appended + text));
    ClosingReplies(env.site, c.httpInput + text);
  }

  lemma DecryptedCalm(env: Setting, c: Conn, fed: Fed<ServerCore>)
    requires Speaks(env.site) && Inv(env, c) && c.link.Open? && c.loop == Running && c.tls.Some?
    requires Moved(env.tls, c.tls.value.core, fed.core, fed.error.Some?)
    requires Calm(c) && Decrypted(env, c, fed).loop == Running && Decrypted(env, c, fed).link != Closed(TlsError)
    ensures Calm(Decrypted(env, c, fed))
  {
    if fed.error.None? {
      QueuedFlight(env, c, fed);
      if fed.core.plaintext != [] {
        AppendCalm(env, Emptied(c, fed), fed.core.plaintext);
      }
    }
  }

  lemma ReadCalm(env: Setting, c: Conn, bytes: Bytes)
    requires Speaks(env.site) && Inv(env, c) && c.link.Open? && c.loop == Running && c.tls.Some? && bytes != []
    requires Calm(c) && Read(env, c, Data(bytes)).loop == Running && Read(env, c, Data(bytes)).link != Closed(TlsError)
    ensures Calm(Read(env, c, Data(bytes)))
  {
    ReadIsDrain(env, c, bytes);
    DrainMoves(env.tls, c.tls.value.core, c.tls.value.buffer + bytes);
    DecryptedCalm(env, c.(wireIn := c.wireIn + bytes),
                  Drain(ServerHandler(env.tls), c.tls.value.core, c.tls.value.buffer + bytes));
  }

  lemma FlushCalm(c: Conn, r: SendResult)
    requires Calm(c) && c.link.Open? && r != SendError
    ensures Calm(Flush(c, r))
  {
  }

  /** What one event of this talk takes in. */
  lemma ServerWires(e: Ends, c: Conn, n: Bytes, write: Option<SendResult>)
    requires e.Fine() && Inv(e.env, c) && c.tls.Some? && Reported(c, Turn(n, write))
    ensures Service(e.env, c, Turn(n, write)).wireIn == c.wireIn + n
  {
    LogStream(e);
    var m := if n != [] then Read(e.env, c, Data(n)) else c;
    EmptyAfter(c.wireIn);
    if n != [] {
      ReadWires(e.env, c, n);
    }
    if write.Some? {
      FlushSends(m, write.value);
    }
  }

  lemma ServerCalm(e: Ends, c: Conn, n: Bytes, write: Option<SendResult>)
    requires e.Fine() && Inv(e.env, c) && c.tls.Some? && Calm(c) && write != Some(SendError)
        && Reported(c, Turn(n, write))
    requires var d := Service(e.env, c, Turn(n, write)); d.loop == Running && d.link != Closed(TlsError)
    ensures Calm(Service(e.env, c, Turn(n, write)))
  {
    LogStream(e);
    var m := c;
    if n != [] {
      m := Read(e.env, c, Data(n));
      ReadCalm(e.env, c, n);
    }
    if m.link.Open? && write.Some? {
      FlushCalm(m, write.value);
    }
  }

  // ---- what every move keeps ----

  ghost predicate ServerGood(e: Ends, t: Talk)
    requires e.Fine()
  {
    && t.conn == Server.Run(e.env, Accepted(true), t.events)
    && Serving(e, t.conn) && Calm(t.conn)
    && t.conn.sent == t.received + t.toClient
  }

  /** A client in its handshake loop has taken what it has received of the flight. */
  ghost predicate InHandshake(e: Ends, core: ClientCore, buffer: Bytes, received: Bytes)
    requires e.Fine()
  {
    && core.phase != ClientEstablished && core.sendSeq == 0 && core.pendingWire == []
    && received <= FrameAll(e.h.Flight())
    && Handshaking(e.h, core, buffer, FrameAll(e.h.Flight())[|received|..])
  }

  /** One in its read loop has taken what it has received of the response, but not all of it. */
  ghost predicate InReading(e: Ends, core: ClientCore, buffer: Bytes, plaintext: Bytes, received: Bytes)
    requires e.Fine()
  {
    && core.pendingWire == [] && received <= Stream(e)
    && Expecting(e.h, core, buffer, plaintext, Stream(e)[|received|..], e.ServerLog(), Response(e.files))
    && plaintext != Response(e.files)
  }

  /** What the client has sent, and where it stands. */
  ghost predicate ClientGood(e: Ends, t: Talk)
    requires e.Fine()
  {
    match t.stage
    case Connecting =>
      && t.conn.wireIn + t.toServer == Frame(e.h.ClientHello()) && t.plaintext == []
      && InHandshake(e, t.core, t.buffer, t.received)
    case Reading =>
      && t.conn.wireIn + t.toServer == ClientStream(e.h, e.Log())
      && InReading(e, t.core, t.buffer, t.plaintext, t.received)
    case Finished(bytes) => t.conn.wireIn + t.toServer == ClientStream(e.h, e.Log()) && bytes == Response(e.files)
    case Failed => false
  }

  ghost predicate Good(e: Ends, t: Talk)
    requires e.Fine()
  {
    ServerGood(e, t) && ClientGood(e, t)
  }

  lemma BeginServes(e: Ends)
    requires e.Fine()
    ensures Serving(e, Accepted(true)) && Server.Run(e.env, Accepted(true), []) == Accepted(true)
  {
    assert Server.Run(e.env, Accepted(true), []) == Accepted(true);
    EmptyPrefix(ClientStream(e.h, e.Log()));
    ServerServes(e, []);
  }

  lemma BeginHandshake(e: Ends)
    requires e.Fine()
    ensures InHandshake(e, Taken(FreshClient(e.h.ClientEnd())), [], [])
  {
    var flight := FrameAll(e.h.Flight());
    EmptyBefore(flight);
    assert flight[0..] == flight;
    assert AwaitedByClient(e.h, Taken(FreshClient(e.h.ClientEnd())), []) == e.h.Flight();
  }

  lemma BeginGood(e: Ends)
    requires e.Fine()
    ensures Good(e, Begin(e))
  {
    BeginServes(e);
    BeginHandshake(e);
    EmptyBefore(Frame(e.h.ClientHello()));
  }

  lemma EmptyPrefix(x: Bytes)
    ensures [] <= x
  {
  }

  /** The server's end behind one more event. */
  lemma {:induction false} ServerNext(e: Ends, events: seq<Event>, c: Conn, bytes: Bytes, write: Option<SendResult>)
    requires e.Fine() && c == Server.Run(e.env, Accepted(true), events) && Serving(e, c) && Calm(c)
    requires Reported(c, Turn(bytes, write)) && write != Some(SendError)
    requires c.wireIn + bytes <= ClientStream(e.h, e.Log())
    ensures var d := Service(e.env, c, Turn(bytes, write));
      && d == Server.Run(e.env, Accepted(true), events + [Turn(bytes, write)])
      && Serving(e, d) && Calm(d) && d.wireIn == c.wireIn + bytes
  {
    ServerWires(e, c, bytes, write);
    RunOne(e.env, Accepted(true), events, Turn(bytes, write));
    ServerServes(e, events + [Turn(bytes, write)]);
    ServerCalm(e, c, bytes, write);
  }

  lemma InboundPrefix(e: Ends, t: Talk)
    requires e.Fine() && ClientGood(e, t)
    ensures t.conn.wireIn + t.toServer <= ClientStream(e.h, e.Log())
  {
    ClientStreamIs(e);
  }

  lemma TakePart(taken: Bytes, underway: Bytes, n: nat, stream: Bytes)
    requires taken + underway <= stream && n <= |underway|
    ensures (taken + underway[..n]) + underway[n..] == taken + underway && taken + underway[..n] <= stream
  {
    assert underway == underway[..n] + underway[n..];
  }

  lemma ServerTurnKeeps(e: Ends, t: Talk, n: nat, write: Option<SendResult>)
    requires e.Fine() && Good(e, t) && Enabled(t, ServerTurn(n, write))
    ensures Good(e, Next(e, t, ServerTurn(n, write)))
  {
    InboundPrefix(e, t);
    TakePart(t.conn.wireIn, t.toServer, n, ClientStream(e.h, e.Log()));
    ServerNext(e, t.events, t.conn, t.toServer[..n], write);
    ServiceSends(e.env, t.conn, Turn(t.toServer[..n], write));
    MoreSent(t.received, t.toClient, t.conn.sent, Service(e.env, t.conn, Turn(t.toServer[..n], write)).sent);
  }

  lemma MoreSent(received: Bytes, underway: Bytes, sent: Bytes, now: Bytes)
    requires sent == received + underway && sent <= now
    ensures now == received + (underway + now[|sent|..])
  {
  }

  /** One turn of the handshake loop. */
  lemma {:induction false} HandshakeTurnKeeps(e: Ends, core: ClientCore, buffer: Bytes, received: Bytes, chunk: Bytes)
    requires e.Fine() && InHandshake(e, core, buffer, received) && received + chunk <= FrameAll(e.h.Flight())
    ensures var fed := Drain(ClientHandler(e.h.ClientEnd()), core, buffer + chunk);
      var now := fed.core.(pendingWire := []);
      && fed.error.None? && fed.core.pendingWire == []
      && (now.phase != ClientEstablished ==> InHandshake(e, now, fed.buffer, received + chunk))
      && (now.phase == ClientEstablished ==>
            now.sendSeq == 0 && fed.buffer == [] && received + chunk == FrameAll(e.h.Flight())
                && Handshaking(e.h, now, [], []))
  {
    var flight := FrameAll(e.h.Flight());
    var later := flight[|received + chunk|..];
    RestAfter(received, chunk, flight);
    HandshakeTurn(e.h, core, buffer, later, chunk);
    var fed := Drain(ClientHandler(e.h.ClientEnd()), core, buffer + chunk);
    if fed.core.phase == ClientEstablished {
      NothingAwaited(e.h, fed.core.(pendingWire := []), fed.buffer, later);
    }
  }

  lemma RestAfter(received: Bytes, chunk: Bytes, stream: Bytes)
    requires received + chunk <= stream
    ensures received <= stream && stream[|received|..] == chunk + stream[|received + chunk|..]
    ensures stream[|received + chunk|..] == [] ==> received + chunk == stream
  {
    assert stream == (received + chunk) + stream[|received + chunk|..];
  }

  /** The request goes out as record 0, and the client waits for the response. */
  lemma AskKeeps(e: Ends, core: ClientCore)
    requires e.Fine() && Handshaking(e.h, core, [], []) && core.phase == ClientEstablished
    requires core.sendSeq == 0 && core.pendingWire == []
    ensures var (asked, wire) := ClientProtect(e.h.ClientEnd(), core, HTTP_REQUEST, e.nonce);
      && wire.Ok? && Frame(e.h.ClientHello()) + wire.value == ClientStream(e.h, e.Log())
      && InReading(e, asked, [], [], FrameAll(e.h.Flight()))
  {
    AskedText();
    ClientStreamIs(e);
    UnprotectProtected(e.h.suite, e.h.Keys().clientWrite, 0, e.nonce, HTTP_REQUEST, 0);
    assert Texts(e.ServerLog()) == [Response(e.files)];
    FlattenOne(Response(e.files));
    StartsReading(e.h, core, e.Log()[0], e.ServerLog(), Response(e.files));
    RespondNotEmpty(e.files, AskedMessage());
    AskedAnswer(e.files, e.explain);
    assert Stream(e)[|FrameAll(e.h.Flight())|..] == FrameAll(Records(e.h.suite, e.h.Keys().serverWrite, e.ServerLog()));
  }

  /** One turn of the read loop. */
  lemma {:induction false} ReadTurnKeeps(e: Ends, core: ClientCore, buffer: Bytes, plaintext: Bytes, received: Bytes,
                                         chunk: Bytes)
    requires e.Fine() && InReading(e, core, buffer, plaintext, received) && received + chunk <= Stream(e)
    ensures var fed := Drain(ClientHandler(e.h.ClientEnd()), core, buffer + chunk);
      var text := plaintext + fed.core.plaintext;
      && fed.error.None? && fed.core.pendingWire == []
      && Check(text) == (if text == Response(e.files) then Complete else NotYet)
      && (text != Response(e.files) ==> InReading(e, Taken(fed.core), fed.buffer, text, received + chunk))
  {
    var later := Stream(e)[|received + chunk|..];
    RestAfter(received, chunk, Stream(e));
    ServerLogSendable(e);
    TurnKeeps(e.h, core, buffer, plaintext, later, e.ServerLog(), Response(e.files), chunk);
    var fed := Drain(ClientHandler(e.h.ClientEnd()), core, buffer + chunk);
    var text := plaintext + fed.core.plaintext;
    PartOfResponse(text, Flatten(Texts(e.ServerLog())[fed.core.recvSeq..]), Response(e.files));
    SheetKindClean(e.files);
    CheckOfPrefix(SheetOf(e.files).status, SheetOf(e.files).body, SheetOf(e.files).kind, true, text);
  }

  lemma ServerLogSendable(e: Ends)
    requires e.Fine()
    ensures Sendable(e.ServerLog()) && Texts(e.ServerLog()) == [Response(e.files)]
  {
  }

  lemma SentBound(e: Ends, t: Talk)
    requires e.Fine() && Good(e, t)
    ensures t.conn.sent <= Stream(e) && (t.stage.Connecting? ==> t.conn.sent <= FrameAll(e.h.Flight()))
  {
    ServerQueued(e, t.conn);
    if t.stage.Connecting? {
      HelloOnly(e, t.conn);
    }
  }

  /** The chunk that the client gets is part of what the server sent. */
  lemma ReceivesPart(e: Ends, t: Talk, n: nat)
    requires e.Fine() && Good(e, t) && n <= |t.toClient|
    ensures var received := t.received + t.toClient[..n];
      && t.conn.sent == received + t.toClient[n..] && received <= Stream(e)
      && (t.stage.Connecting? ==> received <= FrameAll(e.h.Flight()))
  {
    SentBound(e, t);
    TakePart(t.received, t.toClient, n, t.conn.sent);
  }

  /** The turn in terms of what the loop over the buffer gives. */
  lemma ReadingNext(e: Ends, t: Talk, n: nat)
    requires t.stage.Reading? && Enabled(t, ClientTurn(n))
    requires var fed := Drain(ClientHandler(e.h.ClientEnd()), t.core, t.buffer + t.toClient[..n]);
      fed.error.None? && fed.core.pendingWire == [] && !Check(t.plaintext + fed.core.plaintext).BadLength?
    ensures var fed := Drain(ClientHandler(e.h.ClientEnd()), t.core, t.buffer + t.toClient[..n]);
      var text := t.plaintext + fed.core.plaintext;
      Next(e, t, ClientTurn(n))
        == t.(core := Taken(fed.core), buffer := fed.buffer, plaintext := text,
              stage := if Check(text).Complete? then Finished(text) else Reading,
              toClient := t.toClient[n..], received := t.received + t.toClient[..n])
  {
    FeedIsDrain(e, t, t.toClient[..n]);
    EmptyAfter(t.toServer);
  }

  lemma ConnectingNext(e: Ends, t: Talk, n: nat)
    requires t.stage.Connecting? && Enabled(t, ClientTurn(n))
    requires var fed := Drain(ClientHandler(e.h.ClientEnd()), t.core, t.buffer + t.toClient[..n]);
      fed.error.None? && fed.core.pendingWire == []
    ensures var fed := Drain(ClientHandler(e.h.ClientEnd()), t.core, t.buffer + t.toClient[..n]);
      var u := t.(core := fed.core.(pendingWire := []), buffer := fed.buffer,
                  toClient := t.toClient[n..], received := t.received + t.toClient[..n]);
      Next(e, t, ClientTurn(n)) == if fed.core.phase == ClientEstablished then Asks(e, u) else u
  {
    FeedIsDrain(e, t, t.toClient[..n]);
    EmptyAfter(t.toServer);
  }

  lemma ConnectingTurnKeeps(e: Ends, t: Talk, n: nat)
    requires e.Fine() && Good(e, t) && t.stage.Connecting? && Enabled(t, ClientTurn(n))
    ensures Good(e, Next(e, t, ClientTurn(n)))
  {
    var chunk := t.toClient[..n];
    ReceivesPart(e, t, n);
    HandshakeTurnKeeps(e, t.core, t.buffer, t.received, chunk);
    ConnectingNext(e, t, n);
    var fed := Drain(ClientHandler(e.h.ClientEnd()), t.core, t.buffer + chunk);
    if fed.core.phase == ClientEstablished {
      AskKeeps(e, fed.core.(pendingWire := []));
      var (_, wire) := ClientProtect(e.h.ClientEnd(), fed.core.(pendingWire := []), HTTP_REQUEST, e.nonce);
      ConcatAssoc(t.conn.wireIn, t.toServer, wire.value);
    }
  }

  lemma {:induction false} FeedIsDrain(e: Ends, t: Talk, chunk: Bytes)
    requires chunk != []
    ensures Feed(ClientHandler(e.h.ClientEnd()), t.core, t.buffer, chunk)
      == Drain(ClientHandler(e.h.ClientEnd()), t.core, t.buffer + chunk)
  {
  }

  lemma ReadingTurnKeeps(e: Ends, t: Talk, n: nat)
    requires e.Fine() && Good(e, t) && t.stage.Reading? && Enabled(t, ClientTurn(n))
    ensures Good(e, Next(e, t, ClientTurn(n)))
  {
    ReceivesPart(e, t, n);
    ReadTurnKeeps(e, t.core, t.buffer, t.plaintext, t.received, t.toClient[..n]);
    ReadingNext(e, t, n);
  }

  /** All of the stream received leaves nothing to read. */
  lemma AllReceived(e: Ends, t: Talk)
    requires e.Fine() && Good(e, t) && t.received == Stream(e)
    ensures !t.stage.Reading?
  {
    if t.stage.Reading? {
      ServerLogSendable(e);
      NothingMore(e.h, t.core, t.buffer, t.plaintext, e.ServerLog(), Response(e.files));
    }
  }

  /** A closed server has sent everything. */
  lemma ClosedSent(e: Ends, c: Conn)
    requires e.Fine() && Serving(e, c) && Calm(c) && c.link.Closed?
    ensures c.sent == Stream(e) && c.replies != []
  {
    ServerQueued(e, c);
    EmptyAfter(c.sent);
  }

  /** The server does not end the stream before the client has read the response. */
  lemma {:induction false} NoEarlyEof(e: Ends, t: Talk)
    requires e.Fine() && Good(e, t)
    ensures !Enabled(t, ClientEof)
  {
    if t.conn.link.Closed? && t.toClient == [] {
      ClosedSent(e, t.conn);
      EmptyAfter(t.received);
      if t.stage.Connecting? {
        HelloOnly(e, t.conn);
      }
      AllReceived(e, t);
    }
  }

  lemma {:induction false} NextKeeps(e: Ends, t: Talk, m: Move)
    requires e.Fine() && Good(e, t)
    ensures Good(e, Next(e, t, m))
  {
    if Enabled(t, m) {
      match m
      case ServerTurn(n, write) => ServerTurnKeeps(e, t, n, write);
      case ClientTurn(n) => if t.stage.Connecting? { ConnectingTurnKeeps(e, t, n); } else { ReadingTurnKeeps(e, t, n); }
      case ClientEof => NoEarlyEof(e, t);
    }
  }

  lemma {:induction false} RunKeepsGood(e: Ends, t: Talk, moves: seq<Move>)
    requires e.Fine() && Good(e, t)
    ensures Good(e, Run(e, t, moves))
    decreases |moves|
  {
    if moves != [] {
      NextKeeps(e, t, moves[0]);
      RunKeepsGood(e, Next(e, t, moves[0]), moves[1..]);
    }
  }

  /** With nothing on the way and nothing waiting, the client has returned. */
  lemma QuietFinished(e: Ends, t: Talk)
    requires e.Fine() && Good(e, t) && t.toServer == [] && t.toClient == [] && t.conn.output == []
    ensures t.stage.Finished?
  {
    var c := t.conn;
    ServerQueued(e, c);
    EmptyAfter(c.wireIn);
    EmptyAfter(c.sent);
    EmptyAfter(t.received);
    if t.stage.Connecting? {
      HelloOnly(e, c);
      HandshakeOver(e.h, t.core, t.buffer);
    }
    AllReceivedIf(e, t);
  }

  lemma AllReceivedIf(e: Ends, t: Talk)
    requires e.Fine() && Good(e, t)
    ensures t.received == Stream(e) ==> !t.stage.Reading?
  {
    if t.received == Stream(e) {
      AllReceived(e, t);
    }
  }

  /** request_http_over_self_written_tls against the server, over any network that keeps
      the order: whatever the chunks in both directions, the records and the partial sends,
      no exception escapes at either end, what the client returns is exactly the site's
      response to its request, and it has returned as soon as nothing is on the way and
      nothing waits at the server. */
  lemma {:induction false} RequestOverTls(e: Ends, moves: seq<Move>)
    requires e.Fine()
    ensures var t := Run(e, Begin(e), moves);
      && t.conn.loop == Running && t.conn.link != Closed(TlsError) && !t.stage.Failed?
      && (t.stage.Finished? ==> t.stage.bytes == Response(e.files))
      && (t.toServer == [] && t.toClient == [] && t.conn.output == [] ==> t.stage == Finished(Response(e.files)))
  {
    BeginGood(e);
    RunKeepsGood(e, Begin(e), moves);
    var t := Run(e, Begin(e), moves);
    if t.toServer == [] && t.toClient == [] && t.conn.output == [] {
      QuietFinished(e, t);
    }
  }

  // ---- and it always can ----

  lemma {:induction false} RunSplits(e: Ends, t: Talk, first: seq<Move>, later: seq<Move>)
    ensures Run(e, t, first + later) == Run(e, Run(e, t, first), later)
    decreases |first|
  {
    if first == [] {
      assert first + later == later;
    } else {
      assert (first + later)[1..] == first[1..] + later;
      RunSplits(e, Next(e, t, first[0]), first[1..], later);
    }
  }

  lemma {:induction false} RunOneMove(e: Ends, t: Talk, m: Move)
    ensures Run(e, t, [m]) == Next(e, t, m)
  {
    assert [m][1..] == [];
    assert Run(e, Next(e, t, m), []) == Next(e, t, m);
  }

  lemma {:induction false} OneMove(e: Ends, t: Talk, m: Move)
    requires e.Fine() && Good(e, t)
    ensures Run(e, t, [m]) == Next(e, t, m) && Good(e, Next(e, t, m))
  {
    RunOneMove(e, t, m);
    NextKeeps(e, t, m);
  }

  /** A server that has answered has read everything. */
  lemma AnsweredHeard(e: Ends, c: Conn)
    requires e.Fine() && Serving(e, c) && c.replies != []
    ensures c.wireIn == ClientStream(e.h, e.Log())
  {
    var s := c.tls.value.core;
    assert Texts(e.Log())[..0] == [];
    assert s.recvSeq == 1;
    RecordTaken(e, s);
    NothingBehind(c.tls.value.buffer, c.wireIn, ClientStream(e.h, e.Log()));
  }

  lemma NothingBehind(buffer: Bytes, part: Bytes, stream: Bytes)
    requires part <= stream && buffer + stream[|part|..] == []
    ensures part == stream
  {
    assert |buffer + stream[|part|..]| == |buffer| + |stream[|part|..]|;
  }

  /** While something is on its way to the server, it is open. */
  lemma OpenForMore(e: Ends, t: Talk)
    requires e.Fine() && Good(e, t) && t.toServer != []
    ensures t.conn.link.Open?
  {
    InboundPrefix(e, t);
    if t.conn.link.Closed? {
      AnsweredHeard(e, t.conn);
    }
  }

  lemma ServerMoved(e: Ends, t: Talk, n: nat, write: Option<SendResult>)
    requires Enabled(t, ServerTurn(n, write))
    ensures var u := Next(e, t, ServerTurn(n, write));
      u.toServer == t.toServer[n..] && u.stage == t.stage
          && u.conn == Service(e.env, t.conn, Turn(t.toServer[..n], write))
  {
  }

  lemma Hear(e: Ends, t: Talk) returns (moves: seq<Move>)
    requires e.Fine() && Good(e, t)
    ensures var u := Run(e, t, moves); Good(e, u) && u.toServer == [] && u.stage == t.stage
  {
    moves := [];
    if t.toServer != [] {
      var m := ServerTurn(|t.toServer|, None);
      OpenForMore(e, t);
      ServerMoved(e, t, |t.toServer|, None);
      OneMove(e, t, m);
      moves := [m];
    }
  }

  lemma FlushesAll(env: Setting, c: Conn)
    requires OutputOk(c) && c.loop == Running && c.output != [] && c.link.Open?
    ensures var v := Turn([], Some(Took(|c.output|))); Reported(c, v) && Service(env, c, v).output == []
  {
  }

  lemma OpenToSend(e: Ends, t: Talk)
    requires e.Fine() && Good(e, t) && t.conn.output != []
    ensures OutputOk(t.conn) && t.conn.loop == Running && t.conn.link.Open?
  {
  }

  lemma Speak(e: Ends, t: Talk) returns (moves: seq<Move>)
    requires e.Fine() && Good(e, t)
    ensures var u := Run(e, t, moves);
      Good(e, u) && u.conn.output == [] && u.toServer == t.toServer && u.stage == t.stage
  {
    moves := [];
    if t.conn.output != [] {
      var write := Some(Took(|t.conn.output|));
      OpenToSend(e, t);
      FlushesAll(e.env, t.conn);
      assert t.toServer[..0] == [] && t.toServer[0..] == t.toServer;
      ServerMoved(e, t, 0, write);
      OneMove(e, t, ServerTurn(0, write));
      moves := [ServerTurn(0, write)];
    }
  }

  /** The client sends nothing but its request, at the end of the handshake. */
  predicate Listened(t: Talk, u: Talk) {
    && u.conn == t.conn && u.toClient == []
    && (t.stage.Reading? || u.stage.Connecting? ==> u.toServer == t.toServer)
    && (t.stage.Reading? ==> !u.stage.Connecting?)
  }

  lemma AsksOnce(e: Ends, u: Talk)
    ensures var v := Asks(e, u); v.conn == u.conn && v.toClient == u.toClient && !v.stage.Connecting?
  {
  }

  lemma HandshakeFed(e: Ends, t: Talk, n: nat)
    requires e.Fine() && Good(e, t) && t.stage.Connecting? && n <= |t.toClient|
    ensures var fed := Drain(ClientHandler(e.h.ClientEnd()), t.core, t.buffer + t.toClient[..n]);
      fed.error.None? && fed.core.pendingWire == []
  {
    ReceivesPart(e, t, n);
    HandshakeTurnKeeps(e, t.core, t.buffer, t.received, t.toClient[..n]);
  }

  lemma ListensConnecting(e: Ends, t: Talk)
    requires e.Fine() && Good(e, t) && t.stage.Connecting? && t.toClient != []
    ensures Listened(t, Next(e, t, ClientTurn(|t.toClient|)))
  {
    var n := |t.toClient|;
    HandshakeFed(e, t, n);
    ConnectingNext(e, t, n);
    var fed := Drain(ClientHandler(e.h.ClientEnd()), t.core, t.buffer + t.toClient[..n]);
    var u := t.(core := fed.core.(pendingWire := []), buffer := fed.buffer,
                toClient := t.toClient[n..], received := t.received + t.toClient[..n]);
    AsksOnce(e, u);
  }

  lemma ListensReading(e: Ends, t: Talk)
    requires e.Fine() && Good(e, t) && t.stage.Reading? && t.toClient != []
    ensures Listened(t, Next(e, t, ClientTurn(|t.toClient|)))
  {
    ReceivesPart(e, t, |t.toClient|);
    ReadTurnKeeps(e, t.core, t.buffer, t.plaintext, t.received, t.toClient[..|t.toClient|]);
    ReadingNext(e, t, |t.toClient|);
  }

  lemma Listen(e: Ends, t: Talk) returns (moves: seq<Move>)
    requires e.Fine() && Good(e, t) && !t.stage.Finished?
    ensures Good(e, Run(e, t, moves)) && Listened(t, Run(e, t, moves))
  {
    moves := [];
    if t.toClient != [] {
      if t.stage.Connecting? {
        ListensConnecting(e, t);
      } else {
        ListensReading(e, t);
      }
      OneMove(e, t, ClientTurn(|t.toClient|));
      moves := [ClientTurn(|t.toClient|)];
    }
  }

  /** The server hears everything and sends everything, and the client takes it. */
  lemma Round(e: Ends, t: Talk) returns (moves: seq<Move>)
    requires e.Fine() && Good(e, t) && !t.stage.Finished?
    ensures var u := Run(e, t, moves);
      Good(e, u) && (u.stage.Finished? || (t.stage.Connecting? && u.stage.Reading?))
  {
    var hear := Hear(e, t);
    var heard := Run(e, t, hear);
    var speak := Speak(e, heard);
    var spoken := Run(e, heard, speak);
    var listen := Listen(e, spoken);
    moves := hear + (speak + listen);
    RunSplits(e, t, hear, speak + listen);
    RunSplits(e, heard, speak, listen);
    var u := Run(e, spoken, listen);
    if u.toServer == [] {
      QuietFinished(e, u);
    }
  }

  /** Every moment of every talk can be continued until the client has returned. */
  lemma {:induction false} RequestCompletable(e: Ends, moves: seq<Move>) returns (more: seq<Move>)
    requires e.Fine()
    ensures Run(e, Begin(e), moves + more).stage == Finished(Response(e.files))
  {
    BeginGood(e);
    RunKeepsGood(e, Begin(e), moves);
    var t := Run(e, Begin(e), moves);
    RunSplits(e, Begin(e), moves, []);
    more := [];
    if !t.stage.Finished? {
      more := Round(e, t);
      var u := Run(e, t, more);
      if !u.stage.Finished? {
        var last := Round(e, u);
        RunSplits(e, t, more, last);
        more := more + last;
      }
      RunSplits(e, Begin(e), moves, more);
    }
  }
}
