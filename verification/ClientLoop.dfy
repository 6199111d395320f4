/** The two loops of the client (client_side.py): reading until the handshake is done,
    and reading until the Content-Length of one response says it is complete. */
module ClientLoop {
  import opened Wire
  import opened Text
  import opened Framing
  import opened Connection
  import opened Session
  import opened Http

  // ---- the socket ----

  /** The chunks that successive recv calls will give; an empty chunk is the end of the
      stream, and after the last chunk recv blocks. */
  class Socket {
    var incoming: seq<Bytes>
    var outgoing: Bytes

    constructor (incoming: seq<Bytes>)
      ensures this.incoming == incoming && outgoing == []
    {
      this.incoming := incoming;
      outgoing := [];
    }

    /** None: nothing has arrived and the socket is open, so recv does not return. */
    method Recv() returns (data: Option<Bytes>)
      modifies this`incoming
      ensures data == if old(incoming) == [] then None else Some(old(incoming)[0])
      ensures incoming == if old(incoming) == [] then [] else old(incoming)[1..]
    {
      if incoming == [] {
        return None;
      }
      data := Some(incoming[0]);
      incoming := incoming[1..];
    }

    method SendAll(data: Bytes)
      modifies this`outgoing
      ensures outgoing == old(outgoing) + data
    {
      outgoing := outgoing + data;
    }
  }

  // ---- is the response complete? ----

  datatype Verdict = Complete | NotYet | BadLength

  // ASCII: b"content-length:".
  const LENGTH_PREFIX: Bytes := CONTENT_LENGTH + [COLON]

  /** The loop over the header lines. */
  function CheckLines(lines: seq<Bytes>, bodyLength: nat): Verdict {
    if lines == [] then NotYet
    else if !(LENGTH_PREFIX <= Lower(Ascii, lines[0])) then CheckLines(lines[1..], bodyLength)
    else
      match Cut(lines[0], COLON)
      case None => BadLength
      case Some((_, value)) =>
        match ParseInt(Ascii, value)
        case None => BadLength
        case Some(n) => if bodyLength >= n then Complete else CheckLines(lines[1..], bodyLength)
  }

  /** The test at the end of each turn of the read loop. */
  function Check(plaintext: Bytes): Verdict {
    FindIsFirst(plaintext, HEADER_END);
    match Find(plaintext, HEADER_END)
    case None => NotYet
    case Some(i) => CheckLines(Split(plaintext[..i], CRLF), |plaintext| - i - |HEADER_END|)
  }

  // ---- the loops ----

  /** Blocked: recv has nothing to give. Raised: an exception, from the TLS end, from
      int(), or for a server that closed during the handshake. */
  datatype Outcome = Returned(bytes: Bytes) | Blocked(soFar: Bytes) | Raised

  function ReadLoop(env: ClientEnv, core: ClientCore, buffer: Bytes, plaintext: Bytes, chunks: seq<Bytes>): Outcome
    decreases |chunks|
  {
    if chunks == [] then Blocked(plaintext)
    else if chunks[0] == [] then Returned(plaintext)
    else
      var fed := Feed(ClientHandler(env), core, buffer, chunks[0]);
      if fed.error.Some? then Raised
      else
        var text := plaintext + fed.core.plaintext;
        match Check(text)
        case Complete => Returned(text)
        case BadLength => Raised
        case NotYet => ReadLoop(env, Taken(fed.core), fed.buffer, text, chunks[1..])
  }

  /** pop_pending_wire_data and read_plaintext. */
  function Taken(core: ClientCore): ClientCore {
    core.(pendingWire := [], plaintext := [])
  }

  method CheckResponse(plaintext: Bytes) returns (v: Verdict)
    ensures v == Check(plaintext)
  {
    FindIsFirst(plaintext, HEADER_END);
    var found := Find(plaintext, HEADER_END);
    if found.None? {
      return NotYet;
    }
    var lines := Split(plaintext[..found.value], CRLF);
    var bodyLength := |plaintext| - found.value - |HEADER_END|;
    assert lines[0..] == lines;
    for i := 0 to |lines|
      invariant CheckLines(lines, bodyLength) == CheckLines(lines[i..], bodyLength)
    {
      assert lines[i..][1..] == lines[i + 1..];
      if LENGTH_PREFIX <= Lower(Ascii, lines[i]) {
        var cut := Cut(lines[i], COLON);
        if cut.None? {
          return BadLength;
        }
        var expected := ParseInt(Ascii, cut.value.1);
        if expected.None? {
          return BadLength;
        }
        if bodyLength >= expected.value {
          return Complete;
        }
      }
    }
    return NotYet;
  }

  method RecvTlsHttpResponse(sock: Socket, tls: ToyTLSClientConnection) returns (r: Outcome)
    modifies sock, tls, tls.records
    ensures r == ReadLoop(tls.env, old(tls.View()), old(tls.records.buffer), [], old(sock.incoming))
  {
    var plaintext: Bytes := [];
    while true
      invariant ReadLoop(tls.env, tls.View(), tls.records.buffer, plaintext, sock.incoming)
        == ReadLoop(tls.env, old(tls.View()), old(tls.records.buffer), [], old(sock.incoming))
      decreases |sock.incoming|
    {
      var data := sock.Recv();
      if data.None? {
        return Blocked(plaintext);
      }
      if data.value == [] {
        return Returned(plaintext);
      }
      var error := tls.FeedWireData(data.value);
      if error.Some? {
        return Raised;
      }
      var outgoing := tls.PopPendingWireData();
      if outgoing != [] {
        sock.SendAll(outgoing);
      }
      var text := tls.ReadPlaintext();
      plaintext := plaintext + text;
      var v := CheckResponse(plaintext);
      match v {
        case Complete => return Returned(plaintext);
        case BadLength => return Raised;
        case NotYet =>
      }
    }
  }

  // ---- the header of a response ----

  predicate CleanText(text: string) {
    forall i :: 0 <= i < |text| ==> text[i] != '\r' && text[i] < 128 as char
  }

  lemma LatinLacksCR(text: string)
    requires CleanText(text)
    ensures Lacks(Latin(text), CR)
  {
  }

  lemma JoinedLineText(start: string, end: Bytes)
    requires start != "" && CleanText(start) && Lacks(end, CR)
    ensures LineText(Latin(start) + end)
  {
    LatinLacksCR(start);
  }

  lemma PhraseClean(status: nat)
    ensures CleanText(ReasonPhrase(status))
  {
    match status
    case 200 => assert CleanText("OK");
    case 400 => assert CleanText("Bad Request");
    case 403 => assert CleanText("Forbidden");
    case 404 => assert CleanText("Not Found");
    case 405 => assert CleanText("Method Not Allowed");
    case 500 => assert CleanText("Internal Server Error");
    case _ => assert CleanText("Unknown");
  }

  lemma ResponseLinesClean(status: nat, contentType: Bytes, close: bool, length: nat)
    requires Lacks(contentType, CR)
    ensures var lines := ResponseLines(status, contentType, close, length);
      forall i :: 0 <= i < |lines| ==> LineText(lines[i])
  {
    StatusLineClean(status);
    LengthLineReads(length);
    JoinedLineText("Content-Type: ", contentType);
    ConnectionLineClean(close);
  }

  lemma ConnectionLineClean(close: bool)
    ensures LineText(Latin("Connection: ") + Latin(if close then "close" else "keep-alive"))
  {
    LatinLacksCR(if close then "close" else "keep-alive");
    JoinedLineText("Connection: ", Latin(if close then "close" else "keep-alive"));
  }

  lemma {:induction false} StatusLineClean(status: nat)
    ensures LineText(Latin("HTTP/1.1 ") + Decimal(status) + [SPACE] + Latin(ReasonPhrase(status)))
  {
    PhraseClean(status);
    LatinLacksCR(ReasonPhrase(status));
    LacksThree(Decimal(status), Latin(ReasonPhrase(status)));
    JoinedLineText("HTTP/1.1 ", Decimal(status) + [SPACE] + Latin(ReasonPhrase(status)));
    ConcatFour(Latin("HTTP/1.1 "), Decimal(status), Latin(ReasonPhrase(status)));
  }

  lemma LacksThree(digits: Bytes, phrase: Bytes)
    requires AllDigits(digits) && Lacks(phrase, CR)
    ensures Lacks(digits + [SPACE] + phrase, CR)
  {
  }

  lemma ConcatFour(a: Bytes, b: Bytes, c: Bytes)
    ensures a + b + [SPACE] + c == a + (b + [SPACE] + c)
  {
  }

  /** The name of the length line, and that it lowers to what the loop looks for. */
  lemma LengthNameReads()
    ensures Latin("Content-Length:") == Latin("Content-Length") + [COLON]
    ensures Lacks(Latin("Content-Length"), COLON)
    ensures Lower(Ascii, Latin("Content-Length:")) == LENGTH_PREFIX
  {
  }

  lemma LowerAppend(a: Bytes, b: Bytes)
    ensures Lower(Ascii, a) <= Lower(Ascii, a + b)
  {
  }

  /** The Content-Length line starts as the loop expects and holds the number that was printed. */
  lemma {:induction false} LengthLineReads(length: nat)
    ensures LineText(LengthLine(length))
    ensures LENGTH_PREFIX <= Lower(Ascii, LengthLine(length))
    ensures Cut(LengthLine(length), COLON).Some?
    ensures ParseInt(Ascii, Cut(LengthLine(length), COLON).value.1) == Some(length)
  {
    var value := [SPACE] + Decimal(length);
    LengthNameReads();
    ConcatAssoc(Latin("Content-Length:"), [SPACE], Decimal(length));
    CutOfJoined(Latin("Content-Length"), COLON, value);
    ParseDecimal(Ascii, length);
    LowerAppend(Latin("Content-Length:"), value);
    JoinedLineText("Content-Length:", value);
  }

  /** The other three lines are not taken for it. */
  lemma OtherLinesPass(status: nat, contentType: Bytes, close: bool, length: nat)
    ensures var lines := ResponseLines(status, contentType, close, length);
      forall i :: i == 0 || i == 2 || i == 3 ==> !(LENGTH_PREFIX <= Lower(Ascii, lines[i]))
  {
    var lines := ResponseLines(status, contentType, close, length);
    assert Lower(Ascii, lines[0])[0] == 104 && LENGTH_PREFIX[0] == 99;
    assert Lower(Ascii, lines[2])[8] == 116 && LENGTH_PREFIX[8] == 108;
    assert Lower(Ascii, lines[3])[3] == 110 && LENGTH_PREFIX[3] == 116;
  }

  lemma {:induction false} CheckOfLines(status: nat, contentType: Bytes, close: bool, length: nat, bodyLength: nat)
    ensures CheckLines(ResponseLines(status, contentType, close, length), bodyLength)
      == if bodyLength >= length then Complete else NotYet
  {
    var lines := ResponseLines(status, contentType, close, length);
    OtherLinesPass(status, contentType, close, length);
    LengthLineReads(length);
    var last: seq<Bytes> := [lines[3]];
    var tail := [lines[2]] + last;
    assert lines[1..][0] == LengthLine(length);
    assert lines[1..][1..] == tail && tail[1..] == last && last[1..] == [];
    assert CheckLines(last, bodyLength) == CheckLines([], bodyLength);
    assert CheckLines(tail, bodyLength) == NotYet;
  }

  /** The loop reads the header block of a response and compares the rest with its declared length. */
  lemma CheckOfArrived(status: nat, contentType: Bytes, close: bool, length: nat, arrived: Bytes)
    requires Lacks(contentType, CR)
    ensures Check(Join(ResponseLines(status, contentType, close, length), CRLF) + (HEADER_END + arrived))
      == if |arrived| >= length then Complete else NotYet
  {
    var lines := ResponseLines(status, contentType, close, length);
    var text := Join(lines, CRLF);
    var part := text + (HEADER_END + arrived);
    ResponseLinesClean(status, contentType, close, length);
    FindHeaderEnd(lines, arrived);
    assert part[..|text|] == text;
    assert part[|text| + |HEADER_END|..] == arrived;
    SplitJoin(lines, CRLF);
    CheckOfLines(status, contentType, close, length, |arrived|);
  }

  /** A prefix that reaches past the header block splits as the whole does. */
  lemma PrefixPast(part: Bytes, text: Bytes, body: Bytes)
    requires part <= text + (HEADER_END + body) && |part| >= |text| + |HEADER_END|
    ensures var arrived := part[|text| + |HEADER_END|..];
      part == text + (HEADER_END + arrived) && arrived <= body
      && (|arrived| >= |body| <==> part == text + (HEADER_END + body))
  {
    var whole := text + (HEADER_END + body);
    assert part == whole[..|part|];
    assert whole[|text| + |HEADER_END|..] == body;
  }

  /** Of a response that declares its own body's length, the loop accepts the whole and no strict prefix. */
  lemma {:induction false} CheckOfPrefix(status: nat, body: Bytes, contentType: Bytes, close: bool, part: Bytes)
    requires Lacks(contentType, CR) && part <= HttpResponse(status, body, contentType, close, None)
    ensures Check(part) == if part == HttpResponse(status, body, contentType, close, None) then Complete else NotYet
  {
    var whole := HttpResponse(status, body, contentType, close, None);
    var lines := ResponseLines(status, contentType, close, |body|);
    var text := Join(lines, CRLF);
    ConcatAssoc(text, HEADER_END, body);
    if |part| < |text| + |HEADER_END| {
      ResponseLinesClean(status, contentType, close, |body|);
      FindHeaderEnd(lines, body);
      ShortPrefix(part, whole, |text|);
    } else {
      PrefixPast(part, text, body);
      CheckOfArrived(status, contentType, close, |body|, part[|text| + |HEADER_END|..]);
    }
  }

  lemma {:induction false} ShortPrefix(part: Bytes, whole: Bytes, i: nat)
    requires part <= whole && Find(whole, HEADER_END) == Some(i) && |part| < i + |HEADER_END|
    ensures Find(part, HEADER_END) == None
  {
    if Find(part, HEADER_END).Some? {
      assert whole == part + whole[|part|..];
      FindStable(part, whole[|part|..], HEADER_END);
      FindIsFirst(part, HEADER_END);
    }
  }

  // ---- the read loop, over any chunking of the wire ----

  predicate Nonempty(chunks: seq<Bytes>) {
    forall i :: 0 <= i < |chunks| ==> chunks[i] != []
  }

  /** The response that an established client is still to read, and what it has of it. */
  ghost predicate Expecting(h: Setup, c: ClientCore, buffer: Bytes, plaintext: Bytes, wire: Bytes, log: seq<Sent>,
                            response: Bytes)
    requires h.Honest()
  {
    && ClientInSession(h, c) && c.phase == ClientEstablished && c.plaintext == [] && c.recvSeq <= |log|
    && buffer + wire == FrameAll(AwaitedByClient(h, c, log)) && PopFrom(buffer).NeedMore?
    && plaintext + Flatten(Texts(log)[c.recvSeq..]) == response
  }

  lemma {:induction false} TurnKeeps(h: Setup, c: ClientCore, buffer: Bytes, plaintext: Bytes, wire: Bytes,
                                     log: seq<Sent>, response: Bytes, chunk: Bytes)
    requires h.Honest() && Sendable(log) && Expecting(h, c, buffer, plaintext, chunk + wire, log, response)
    ensures var fed := Drain(ClientHandler(h.ClientEnd()), c, buffer + chunk);
      && fed.error.None? && fed.core.pendingWire == c.pendingWire
      && Expecting(h, Taken(fed.core), fed.buffer, plaintext + fed.core.plaintext, wire, log, response)
  {
    ConcatAssoc(buffer, chunk, wire);
    ClientDrains(h, c, buffer + chunk, wire, log);
    DrainQuiet(ClientHandler(h.ClientEnd()), c, buffer + chunk);
    var fed := Drain(ClientHandler(h.ClientEnd()), c, buffer + chunk);
    TextsSplit(plaintext, Texts(log), c.recvSeq, fed.core.recvSeq);
    assert AwaitedByClient(h, Taken(fed.core), log) == AwaitedByClient(h, fed.core, log);
  }

  lemma TextsSplit(before: Bytes, texts: seq<Bytes>, i: nat, j: nat)
    requires i <= j <= |texts|
    ensures (before + ([] + Flatten(texts[i..j]))) + Flatten(texts[j..]) == before + Flatten(texts[i..])
  {
    assert texts[j..] == texts[j..|texts|] && texts[i..] == texts[i..|texts|];
    assert [] + Flatten(texts[i..j]) == Flatten(texts[i..j]);
    SliceJoin(before, texts, i, j, |texts|);
  }

  lemma PartOfResponse(plaintext: Bytes, rest: Bytes, response: Bytes)
    requires plaintext + rest == response
    ensures plaintext <= response && (rest == [] ==> plaintext == response)
  {
  }

  /** Nothing more can come: the whole response is there. */
  lemma NothingMore(h: Setup, c: ClientCore, buffer: Bytes, plaintext: Bytes, log: seq<Sent>, response: Bytes)
    requires h.Honest() && Sendable(log) && Expecting(h, c, buffer, plaintext, [], log, response)
    ensures plaintext == response
  {
    AwaitedByClientAcceptable(h, c, log);
    PopOfFrames(buffer, [], AwaitedByClient(h, c, log));
    assert Texts(log)[c.recvSeq..] == [];
    assert plaintext + [] == plaintext;
  }

  /** The client's read loop: for one response that declares its own body's length, cut
      into records anywhere and into chunks anywhere, the loop never raises, never
      returns a strict prefix while the socket is open, and returns exactly the response
      once all of it has arrived. */
  lemma {:induction false} ReadLoopExact(h: Setup, c: ClientCore, buffer: Bytes, plaintext: Bytes, wire: Bytes,
                                         log: seq<Sent>, chunks: seq<Bytes>, status: nat, body: Bytes,
                                         contentType: Bytes, close: bool)
    requires h.Honest() && Sendable(log) && Lacks(contentType, CR)
    requires Expecting(h, c, buffer, plaintext, wire, log, HttpResponse(status, body, contentType, close, None))
    requires plaintext != HttpResponse(status, body, contentType, close, None)
    requires Nonempty(chunks) && Flatten(chunks) <= wire
    ensures var r := ReadLoop(h.ClientEnd(), c, buffer, plaintext, chunks);
      var response := HttpResponse(status, body, contentType, close, None);
      && !r.Raised?
      && (r.Returned? ==> r.bytes == response)
      && (r.Blocked? ==> r.soFar <= response && r.soFar != response)
      && (Flatten(chunks) == wire ==> r == Returned(response))
    decreases |chunks|
  {
    var response := HttpResponse(status, body, contentType, close, None);
    PartOfResponse(plaintext, Flatten(Texts(log)[c.recvSeq..]), response);
    if chunks == [] {
      if wire == [] {
        NothingMore(h, c, buffer, plaintext, log, response);
      }
    } else {
      var later := wire[|chunks[0]|..];
      WireSplits(chunks, wire);
      TurnKeeps(h, c, buffer, plaintext, later, log, response, chunks[0]);
      var fed := Feed(ClientHandler(h.ClientEnd()), c, buffer, chunks[0]);
      var text := plaintext + fed.core.plaintext;
      PartOfResponse(text, Flatten(Texts(log)[fed.core.recvSeq..]), response);
      CheckOfPrefix(status, body, contentType, close, text);
      if text != response {
        ReadLoopExact(h, Taken(fed.core), fed.buffer, text, later, log, chunks[1..], status, body, contentType, close);
      }
    }
  }

  lemma {:induction false} WireSplits(chunks: seq<Bytes>, wire: Bytes)
    requires chunks != [] && Flatten(chunks) <= wire
    ensures chunks[0] + wire[|chunks[0]|..] == wire
    ensures Flatten(chunks[1..]) <= wire[|chunks[0]|..]
    ensures Flatten(chunks) == wire ==> Flatten(chunks[1..]) == wire[|chunks[0]|..]
  {
    assert wire[..|chunks[0]|] == chunks[0];
  }

  // ---- the handshake loop ----

  datatype Handshaken =
    | Established(core: ClientCore, buffer: Bytes, later: seq<Bytes>)
    | StillWaiting
    | Failed

  /** The loop of request_http_over_self_written_tls, up to is_established. */
  function HandshakeLoop(env: ClientEnv, core: ClientCore, buffer: Bytes, chunks: seq<Bytes>): Handshaken
    decreases |chunks|
  {
    if core.phase == ClientEstablished then Established(core, buffer, chunks)
    else if chunks == [] then StillWaiting
    else if chunks[0] == [] then Failed
    else
      var fed := Feed(ClientHandler(env), core, buffer, chunks[0]);
      if fed.error.Some? then Failed
      else HandshakeLoop(env, fed.core.(pendingWire := []), fed.buffer, chunks[1..])
  }

  method Handshake(sock: Socket, tls: ToyTLSClientConnection) returns (r: Option<bool>)
    modifies sock, tls, tls.records
    ensures match HandshakeLoop(tls.env, old(tls.View()), old(tls.records.buffer), old(sock.incoming))
      case Established(core, buffer, later) =>
        (r == Some(true) && tls.View() == core && tls.records.buffer == buffer && sock.incoming == later)
      case StillWaiting => r == None
      case Failed => r == Some(false)
  {
    while tls.phase != ClientEstablished
      invariant HandshakeLoop(tls.env, tls.View(), tls.records.buffer, sock.incoming)
        == HandshakeLoop(tls.env, old(tls.View()), old(tls.records.buffer), old(sock.incoming))
      decreases |sock.incoming|
    {
      var data := sock.Recv();
      if data.None? {
        return None;
      }
      if data.value == [] {
        return Some(false);
      }
      var error := tls.FeedWireData(data.value);
      if error.Some? {
        return Some(false);
      }
      var outgoing := tls.PopPendingWireData();
      if outgoing != [] {
        sock.SendAll(outgoing);
      }
    }
    return Some(true);
  }

  /** What a client has of the server's flight, and what of it is still to come. */
  ghost predicate Handshaking(h: Setup, c: ClientCore, buffer: Bytes, wire: Bytes)
    requires h.Honest()
  {
    && ClientInSession(h, c) && c.plaintext == [] && c.recvSeq == 0
    && buffer + wire == FrameAll(AwaitedByClient(h, c, [])) && PopFrom(buffer).NeedMore?
  }

  lemma {:induction false} HandshakeTurn(h: Setup, c: ClientCore, buffer: Bytes, wire: Bytes, chunk: Bytes)
    requires h.Honest() && Handshaking(h, c, buffer, chunk + wire)
    ensures var fed := Drain(ClientHandler(h.ClientEnd()), c, buffer + chunk);
      && fed.error.None? && fed.core.pendingWire == c.pendingWire && fed.core.sendSeq == c.sendSeq
      && Handshaking(h, fed.core.(pendingWire := []), fed.buffer, wire)
  {
    ConcatAssoc(buffer, chunk, wire);
    ClientDrains(h, c, buffer + chunk, wire, []);
    DrainQuiet(ClientHandler(h.ClientEnd()), c, buffer + chunk);
    var fed := Drain(ClientHandler(h.ClientEnd()), c, buffer + chunk);
    assert Texts([])[0..0] == [];
    assert AwaitedByClient(h, fed.core.(pendingWire := []), []) == AwaitedByClient(h, fed.core, []);
  }

  /** Nothing of the flight is left: the client is established with empty buffers. */
  lemma HandshakeOver(h: Setup, c: ClientCore, buffer: Bytes)
    requires h.Honest() && Handshaking(h, c, buffer, [])
    ensures c.phase == ClientEstablished && buffer == []
  {
    AwaitedByClientAcceptable(h, c, []);
    PopOfFrames(buffer, [], AwaitedByClient(h, c, []));
    assert buffer + [] == buffer;
  }

  /** Over any chunking of the server's flight the handshake loop never fails, waits
      while something is missing, and ends established exactly when all of it is in. */
  lemma {:induction false} HandshakeLoopCompletes(h: Setup, c: ClientCore, buffer: Bytes, wire: Bytes,
                                                  chunks: seq<Bytes>)
    requires h.Honest() && Handshaking(h, c, buffer, wire)
    requires Nonempty(chunks) && Flatten(chunks) <= wire
    ensures var r := HandshakeLoop(h.ClientEnd(), c, buffer, chunks);
      && !r.Failed?
      && (r.Established? ==> Flatten(chunks) == wire)
      && (Flatten(chunks) == wire ==>
            r.Established? && r.later == [] && r.buffer == [] && r.core.phase == ClientEstablished
            && Handshaking(h, r.core, [], []))
    decreases |chunks|
  {
    if c.phase == ClientEstablished {
      NothingAwaited(h, c, buffer, wire);
      AllEmpty(chunks);
    } else if chunks == [] {
      if wire == [] {
        HandshakeOver(h, c, buffer);
      }
    } else {
      var later := wire[|chunks[0]|..];
      WireSplits(chunks, wire);
      HandshakeTurn(h, c, buffer, later, chunks[0]);
      var fed := Feed(ClientHandler(h.ClientEnd()), c, buffer, chunks[0]);
      HandshakeLoopCompletes(h, fed.core.(pendingWire := []), fed.buffer, later, chunks[1..]);
    }
  }

  lemma NothingAwaited(h: Setup, c: ClientCore, buffer: Bytes, wire: Bytes)
    requires h.Honest() && Handshaking(h, c, buffer, wire) && c.phase == ClientEstablished
    ensures buffer == [] && wire == []
  {
    assert AwaitedByClient(h, c, []) == [];
    assert |buffer + wire| == |buffer| + |wire|;
  }

  /** The handshake over and the request protected, all of the response is still to come. */
  lemma StartsReading(h: Setup, c: ClientCore, request: Sent, log: seq<Sent>, response: Bytes)
    requires h.Honest() && Handshaking(h, c, [], []) && c.phase == ClientEstablished && Flatten(Texts(log)) == response
    ensures Expecting(h, ClientProtect(h.ClientEnd(), c, request.plaintext, request.nonce).0, [], [],
                      FrameAll(Records(h.suite, h.Keys().serverWrite, log)), log, response)
  {
    var core := ClientProtect(h.ClientEnd(), c, request.plaintext, request.nonce).0;
    var wire := FrameAll(Records(h.suite, h.Keys().serverWrite, log));
    assert AwaitedByClient(h, core, log) == Records(h.suite, h.Keys().serverWrite, log);
    assert [] + wire == wire && Texts(log)[0..] == Texts(log) && [] + response == response;
  }

  lemma {:induction false} AllEmpty(chunks: seq<Bytes>)
    requires Nonempty(chunks) && Flatten(chunks) <= []
    ensures chunks == []
  {
  }

  /** The whole client: connect, send one request, read one response. Whatever chunks
      the server's flight and its records arrive in, the handshake completes and the
      read loop returns exactly the response. */
  lemma {:induction false} ClientSessionExact(h: Setup, flight: seq<Bytes>, request: Sent, log: seq<Sent>,
                                              chunks: seq<Bytes>, status: nat, body: Bytes, contentType: Bytes,
                                              close: bool)
    requires h.Honest() && Sendable(log) && Lacks(contentType, CR)
    requires Nonempty(flight) && Flatten(flight) == FrameAll(h.Flight())
    requires Nonempty(chunks) && Flatten(chunks) == FrameAll(Records(h.suite, h.Keys().serverWrite, log))
    requires Flatten(Texts(log)) == HttpResponse(status, body, contentType, close, None)
    ensures var connected := HandshakeLoop(h.ClientEnd(), Taken(FreshClient(h.ClientEnd())), [], flight);
      && connected.Established? && connected.later == []
      && (var (core, _) := ClientProtect(h.ClientEnd(), connected.core, request.plaintext, request.nonce);
          ReadLoop(h.ClientEnd(), core, connected.buffer, [], chunks)
            == Returned(HttpResponse(status, body, contentType, close, None)))
  {
    var env := h.ClientEnd();
    var start := Taken(FreshClient(env));
    var response := HttpResponse(status, body, contentType, close, None);
    assert Handshaking(h, start, [], FrameAll(h.Flight())) by {
      assert AwaitedByClient(h, start, []) == h.Flight();
      assert [] + FrameAll(h.Flight()) == FrameAll(h.Flight());
    }
    HandshakeLoopCompletes(h, start, [], FrameAll(h.Flight()), flight);
    var connected := HandshakeLoop(env, start, [], flight);
    var core := ClientProtect(env, connected.core, request.plaintext, request.nonce).0;
    var wire := FrameAll(Records(h.suite, h.Keys().serverWrite, log));
    StartsReading(h, connected.core, request, log, response);
    CheckOfPrefix(status, body, contentType, close, []);
    assert response != [] by {
      assert Check([]) == NotYet;
    }
    ReadLoopExact(h, core, [], [], wire, log, chunks, status, body, contentType, close);
  }

  // ---- the end of the stream ----

  /** A server that closes while the client still reads ends the loop with what has come. */
  lemma {:induction false} EofReturnsWhatCame(env: ClientEnv, core: ClientCore, buffer: Bytes, plaintext: Bytes,
                                              chunks: seq<Bytes>)
    requires ReadLoop(env, core, buffer, plaintext, chunks).Blocked?
    ensures ReadLoop(env, core, buffer, plaintext, chunks + [[]])
      == Returned(ReadLoop(env, core, buffer, plaintext, chunks).soFar)
    decreases |chunks|
  {
    if chunks != [] {
      assert (chunks + [[]])[1..] == chunks[1..] + [[]];
      var fed := Feed(ClientHandler(env), core, buffer, chunks[0]);
      EofReturnsWhatCame(env, Taken(fed.core), fed.buffer, plaintext + fed.core.plaintext, chunks[1..]);
    }
  }

  /** One that closes during the handshake makes the client raise. */
  lemma {:induction false} EofFailsHandshake(env: ClientEnv, core: ClientCore, buffer: Bytes, chunks: seq<Bytes>)
    requires HandshakeLoop(env, core, buffer, chunks).StillWaiting?
    ensures HandshakeLoop(env, core, buffer, chunks + [[]]).Failed?
    decreases |chunks|
  {
    if chunks != [] {
      assert (chunks + [[]])[1..] == chunks[1..] + [[]];
      var fed := Feed(ClientHandler(env), core, buffer, chunks[0]);
      EofFailsHandshake(env, fed.core.(pendingWire := []), fed.buffer, chunks[1..]);
    }
  }

  // ---- how the read loop ends, for any peer ----

  /** The client between two recv calls. */
  datatype Reader = Reader(core: ClientCore, buffer: Bytes, text: Bytes)

  /** What one recv leads to: the end of the stream, an exception of the TLS end or of int(), a
      complete response, or another turn. */
  datatype Sight = Ended | Faulty | Whole | More

  /** The client with one more chunk. */
  function Onward(env: ClientEnv, r: Reader, chunk: Bytes): Reader {
    var fed := Feed(ClientHandler(env), r.core, r.buffer, chunk);
    Reader(Taken(fed.core), fed.buffer, r.text + fed.core.plaintext)
  }

  function Sees(env: ClientEnv, r: Reader, chunk: Bytes): Sight {
    if chunk == [] then Ended
    else if Feed(ClientHandler(env), r.core, r.buffer, chunk).error.Some? then Faulty
    else
      match Check(Onward(env, r, chunk).text)
      case BadLength => Faulty
      case Complete => Whole
      case NotYet => More
  }

  function Reached(env: ClientEnv, r: Reader, chunks: seq<Bytes>): Reader
    decreases |chunks|
  {
    if chunks == [] then r else Reached(env, Onward(env, r, chunks[0]), chunks[1..])
  }

  /** Whatever the peer sends: the loop goes on to the first chunk that is not just more, and ends
      there. The end of the stream gives what was read so far, an exception is raised whatever was
      read, and a complete response is returned with all that came with it. */
  lemma {:induction false} ReadLoopEnds(env: ClientEnv, r: Reader, chunks: seq<Bytes>) returns (k: nat)
    ensures k <= |chunks|
    ensures forall j :: 0 <= j < k ==> Sees(env, Reached(env, r, chunks[..j]), chunks[j]) == More
    ensures var outcome := ReadLoop(env, r.core, r.buffer, r.text, chunks);
      var last := Reached(env, r, chunks[..k]);
      if k == |chunks| then outcome == Blocked(last.text)
      else
        match Sees(env, last, chunks[k])
        case Ended => outcome == Returned(last.text)
        case Faulty => outcome == Raised
        case Whole => outcome == Returned(Onward(env, last, chunks[k]).text)
        case More => false
    decreases |chunks|
  {
    k := 0;
    assert chunks[..0] == [];
    if chunks != [] && Sees(env, r, chunks[0]) == More {
      var next := Onward(env, r, chunks[0]);
      var i := ReadLoopEnds(env, next, chunks[1..]);
      k := i + 1;
      forall j | 0 <= j < k
        ensures Sees(env, Reached(env, r, chunks[..j]), chunks[j]) == More
      {
        if j > 0 {
          assert chunks[..j][1..] == chunks[1..][..j - 1];
          assert chunks[j] == chunks[1..][j - 1];
        }
      }
      assert chunks[..k][1..] == chunks[1..][..i];
    }
  }
}
