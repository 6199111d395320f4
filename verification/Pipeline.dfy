/** The request loop over one plaintext buffer (tls_web_server/server.py, lines 219-241),
    as a function of the buffer: which responses, which bytes are left, how it ended. */
module Pipeline {
  import opened Wire
  import opened Text
  import opened Http

  /** build_http_response: the response and whether the connection closes after it. */
  datatype Reply = Reply(bytes: Bytes, close: bool)

  /** The site served, with its files fixed: build_http_response for a request, and
      http_response(400, str(exc), close=True) for each InvalidMessageError. */
  datatype Site = Site(respond: HTTPMessage -> Reply, reject: InvalidReason -> Bytes)

  /** Every response has at least a status line. */
  ghost predicate Speaks(site: Site) {
    && (forall m :: site.respond(m).bytes != [])
    && (forall reason :: site.reject(reason) != [])
  }

  /** Waiting: the buffer holds no complete request. Closing: the last response closes.
      Spinning: a request with a negative length left the buffer as it was and its
      response keeps the connection alive, so the loop repeats itself for ever. */
  datatype Ending = Waiting | Closing | Spinning

  datatype Served = Served(replies: seq<Bytes>, taken: seq<Bytes>, rest: Bytes, ending: Ending)

  function Prefixed(reply: Bytes, text: Bytes, later: Served): Served {
    Served([reply] + later.replies, [text] + later.taken, later.rest, later.ending)
  }

  /** The bytes that reduce_data(consumed) removes from the front. */
  function Removed(data: Bytes, consumed: int): Bytes {
    data[..|data| - |DropPy(data, consumed)|]
  }

  function Serve(site: Site, data: Bytes): Served
    decreases |data|
  {
    match Parse(data)
    case Nothing => Served([], [], data, Waiting)
    case Incomplete => Served([], [], data, Waiting)
    case Invalid(reason) => Served([site.reject(reason)], [], data, Closing)
    case Parsed(message, consumed) =>
      var rest := DropPy(data, consumed);
      var reply := site.respond(message);
      if reply.close then Served([reply.bytes], [Removed(data, consumed)], rest, Closing)
      else if |rest| == |data| then Served([reply.bytes], [[]], data, Spinning)
      else Prefixed(reply.bytes, Removed(data, consumed), Serve(site, rest))
  }

  /** No request that the loop comes to declares a negative length. */
  predicate Regular(site: Site, data: Bytes)
    decreases |data|
  {
    Parse(data).Parsed? ==>
      && NonNegative(data)
      && (site.respond(Parse(data).message).close
          || (|DropPy(data, Parse(data).consumed)| < |data| ==> Regular(site, DropPy(data, Parse(data).consumed))))
  }

  /** On regular input the loop ends, and the request texts taken, in order, followed
      by what is left, are all the bytes there were. */
  lemma {:induction false} ServeConserves(site: Site, data: Bytes)
    requires Regular(site, data)
    ensures Serve(site, data).ending != Spinning
    ensures Flatten(Serve(site, data).taken) + Serve(site, data).rest == data
    decreases |data|
  {
    if Parse(data).Parsed? {
      ParseProgress(data);
      var consumed := Parse(data).consumed;
      var rest := DropPy(data, consumed);
      assert data == Removed(data, consumed) + rest;
      if site.respond(Parse(data).message).close {
        assert Flatten([Removed(data, consumed)]) == Removed(data, consumed) + Flatten([]);
      } else {
        ServeConserves(site, rest);
        var later := Serve(site, rest);
        assert Serve(site, data).taken[1..] == later.taken;
        ConcatAssoc(Removed(data, consumed), Flatten(later.taken), later.rest);
      }
    }
  }

  /** Serving what is there and then what comes is serving everything at once. */
  function Continue(site: Site, first: Served, more: Bytes): Served {
    if first.ending != Waiting then first.(rest := first.rest + more)
    else
      var later := Serve(site, first.rest + more);
      Served(first.replies + later.replies, first.taken + later.taken, later.rest, later.ending)
  }

  lemma ContinuePrefixed(site: Site, reply: Bytes, text: Bytes, later: Served, more: Bytes)
    ensures Continue(site, Prefixed(reply, text, later), more) == Prefixed(reply, text, Continue(site, later, more))
  {
    var last := Serve(site, later.rest + more);
    ConcatAssoc([reply], later.replies, last.replies);
    ConcatAssoc([text], later.taken, last.taken);
  }

  lemma DropMore(data: Bytes, more: Bytes, consumed: int)
    requires 0 <= consumed <= |data|
    ensures DropPy(data + more, consumed) == DropPy(data, consumed) + more
    ensures Removed(data + more, consumed) == Removed(data, consumed)
  {
  }

  /** The pipeline does not depend on where the plaintext stream was cut. */
  lemma {:induction false} ServeAppend(site: Site, data: Bytes, more: Bytes)
    requires Regular(site, data)
    ensures Serve(site, data + more) == Continue(site, Serve(site, data), more)
    decreases |data|
  {
    ParseStable(data, more);
    match Parse(data)
    case Nothing => ContinueNothing(site, data, more);
    case Incomplete => ContinueNothing(site, data, more);
    case Invalid(_) =>
    case Parsed(message, consumed) =>
      ParseProgress(data);
      DropMore(data, more, consumed);
      if !site.respond(message).close {
        var rest := DropPy(data, consumed);
        ServeAppend(site, rest, more);
        ContinuePrefixed(site, site.respond(message).bytes, Removed(data, consumed), Serve(site, rest), more);
      }
  }

  lemma {:induction false} ContinueNothing(site: Site, data: Bytes, more: Bytes)
    requires Serve(site, data) == Served([], [], data, Waiting)
    ensures Continue(site, Serve(site, data), more) == Serve(site, data + more)
  {
    var later := Serve(site, data + more);
    assert [] + later.replies == later.replies && [] + later.taken == later.taken;
  }

  /** A prefix of a regular stream is regular, and so is what the loop leaves of it. */
  lemma {:induction false} RegularPrefix(site: Site, data: Bytes, more: Bytes)
    requires Regular(site, data + more)
    ensures Regular(site, data)
    ensures Serve(site, data).ending == Waiting ==> Regular(site, Serve(site, data).rest + more)
    decreases |data|
  {
    if Parse(data).Parsed? {
      var consumed := Parse(data).consumed;
      NonNegativePrefix(data, more);
      ParseStable(data, more);
      ParseProgress(data);
      DropMore(data, more, consumed);
      if !site.respond(Parse(data).message).close {
        RegularPrefix(site, DropPy(data, consumed), more);
      }
    }
  }

  lemma NonNegativePrefix(data: Bytes, more: Bytes)
    requires Parse(data).Parsed?
    requires Parse(data + more).Parsed? ==> NonNegative(data + more)
    ensures NonNegative(data)
  {
    HeadStable(data, more);
  }

  // ---- chunk by chunk ----

  /** append(chunk) and the loop, for each chunk, until a response closes. */
  function ServeChunks(site: Site, so_far: Served, chunks: seq<Bytes>): Served
    decreases |chunks|
  {
    if chunks == [] || so_far.ending != Waiting then so_far
    else ServeChunks(site, Continue(site, so_far, chunks[0]), chunks[1..])
  }

  /** Pipelined requests: over any chunking of a stream, the loop gives exactly the
      responses of a one-shot parse of the whole stream, in order, up to and including
      the first closing one; and if none closes, the same bytes are left. */
  lemma {:induction false} ChunkedServe(site: Site, data: Bytes, chunks: seq<Bytes>)
    requires Regular(site, data + Flatten(chunks))
    ensures var parts := ServeChunks(site, Serve(site, data), chunks);
      var whole := Serve(site, data + Flatten(chunks));
      && parts.replies == whole.replies && parts.taken == whole.taken && parts.ending == whole.ending
      && (whole.ending == Waiting ==> parts.rest == whole.rest)
    decreases |chunks|
  {
    if chunks == [] {
      assert data + [] == data;
    } else {
      var later := Flatten(chunks[1..]);
      ConcatAssoc(data, chunks[0], later);
      RegularPrefix(site, data, Flatten(chunks));
      ServeAppend(site, data, Flatten(chunks));
      if Serve(site, data).ending == Waiting {
        RegularPrefix(site, data + chunks[0], later);
        ServeAppend(site, data, chunks[0]);
        ChunkedServe(site, data + chunks[0], chunks[1..]);
      }
    }
  }

  // ---- what the pipeline answers, said without the parser ----

  /** A request as a client has it before printing. */
  datatype Request = Request(method_: Bytes, url: Bytes, version: Bytes, fields: seq<FieldText>, body: Bytes)

  /** It can be printed, and its content-length field, if any, tells the truth. */
  predicate WellPrinted(r: Request) {
    var headers := FieldMap(r.fields, map[]);
    && Printable(r.method_, r.url, r.version, r.fields)
    && (if CONTENT_LENGTH in headers then ParseInt(Latin1, headers[CONTENT_LENGTH]) == Some(|r.body|) else r.body == [])
  }

  function PrintRequest(r: Request): Bytes {
    PrintHead(r.method_, r.url, r.version, r.fields) + r.body
  }

  function PrintAll(rs: seq<Request>): Bytes {
    if rs == [] then [] else PrintRequest(rs[0]) + PrintAll(rs[1..])
  }

  function Answer(site: Site, r: Request): Reply {
    site.respond(HTTPMessage(r.method_, r.url, r.version, FieldMap(r.fields, map[]), r.body))
  }

  /** One answer for each request, in order, up to and including the first that closes. */
  function Answers(site: Site, rs: seq<Request>): seq<Bytes> {
    if rs == [] then []
    else if Answer(site, rs[0]).close then [Answer(site, rs[0]).bytes]
    else [Answer(site, rs[0]).bytes] + Answers(site, rs[1..])
  }

  predicate NoneCloses(site: Site, rs: seq<Request>) {
    forall i :: 0 <= i < |rs| ==> !Answer(site, rs[i]).close
  }

  lemma ParsePrinted(r: Request, more: Bytes)
    requires WellPrinted(r)
    ensures Parse(PrintRequest(r) + more)
      == Parsed(HTTPMessage(r.method_, r.url, r.version, FieldMap(r.fields, map[]), r.body), |PrintRequest(r)|)
    ensures NonNegative(PrintRequest(r) + more)
    ensures DropPy(PrintRequest(r) + more, |PrintRequest(r)|) == more
  {
    var head := PrintHead(r.method_, r.url, r.version, r.fields);
    ConcatAssoc(head, r.body, more);
    RequestRoundTrip(r.method_, r.url, r.version, r.fields, r.body, more);
    HeadOfPrinted(r.method_, r.url, r.version, r.fields, r.body + more);
  }

  lemma {:induction false} ServeFirst(site: Site, r: Request, more: Bytes)
    requires WellPrinted(r)
    ensures Serve(site, PrintRequest(r) + more) ==
      if Answer(site, r).close then Served([Answer(site, r).bytes], [PrintRequest(r)], more, Closing)
      else Prefixed(Answer(site, r).bytes, PrintRequest(r), Serve(site, more))
    ensures Regular(site, PrintRequest(r) + more) == (Answer(site, r).close || Regular(site, more))
  {
    var data := PrintRequest(r) + more;
    ParsePrinted(r, more);
    ParseProgress(data);
    assert Removed(data, |PrintRequest(r)|) == PrintRequest(r);
  }

  lemma NoneClosesTail(site: Site, rs: seq<Request>)
    requires rs != []
    ensures NoneCloses(site, rs) <==> !Answer(site, rs[0]).close && NoneCloses(site, rs[1..])
  {
    assert forall i :: 1 <= i < |rs| ==> rs[i] == rs[1..][i - 1];
  }

  /** A pipelined run of printed requests is answered one by one, each as itself. */
  lemma {:induction false} ServePrinted(site: Site, rs: seq<Request>)
    requires forall i :: 0 <= i < |rs| ==> WellPrinted(rs[i])
    ensures Regular(site, PrintAll(rs))
    ensures Serve(site, PrintAll(rs)).replies == Answers(site, rs)
    ensures Serve(site, PrintAll(rs)).ending == if NoneCloses(site, rs) then Waiting else Closing
    ensures NoneCloses(site, rs) ==> Serve(site, PrintAll(rs)).rest == []
  {
    if rs != [] {
      ServeFirst(site, rs[0], PrintAll(rs[1..]));
      NoneClosesTail(site, rs);
      ServePrinted(site, rs[1..]);
    }
  }

  // ---- the loop that does not end ----

  /** The bytes of the first request's header block, with its blank line. */
  function HeadSize(data: Bytes): nat {
    match Find(data, HEADER_END) case None => 0 case Some(i) => i + |HEADER_END|
  }

  /** The declared length of the first request is exactly minus its header's size, or so
      far below that the whole buffer counts as kept. */
  predicate DeclaresNothingTaken(data: Bytes) {
    && DeclaredLength(data).Some?
    && (DeclaredLength(data).value == -(HeadSize(data) as int)
        || DeclaredLength(data).value <= -(HeadSize(data) + |data|))
  }

  /** A parsed request leaves the buffer as it is exactly when it declares so. */
  lemma {:induction false} NoProgressIff(data: Bytes)
    requires Parse(data).Parsed?
    ensures DropPy(data, Parse(data).consumed) == data <==> DeclaresNothingTaken(data)
    ensures |DropPy(data, Parse(data).consumed)| == |data| <==> DeclaresNothingTaken(data)
  {
    FindIsFirst(data, HEADER_END);
    var consumed := Parse(data).consumed;
    assert consumed == HeadSize(data) + (if DeclaredLength(data).Some? then DeclaredLength(data).value else 0);
    assert data[0..] == data;
  }

  /** A buffer on whose first request the loop repeats itself. */
  predicate Stuck(site: Site, data: Bytes) {
    Parse(data).Parsed? && !site.respond(Parse(data).message).close && DeclaresNothingTaken(data)
  }

  /** The loop comes to the buffer that lacks the first `at` bytes of this one. */
  predicate ComesTo(site: Site, data: Bytes, at: nat)
    decreases |data|
  {
    || at == 0
    || (&& Parse(data).Parsed? && !site.respond(Parse(data).message).close
        && var rest := DropPy(data, Parse(data).consumed);
           |data| - |rest| <= at && |rest| < |data| && ComesTo(site, rest, at - (|data| - |rest|)))
  }

  /** What reduce_data leaves is always the end of the buffer. */
  lemma DropIsSuffix(data: Bytes, consumed: int)
    ensures |DropPy(data, consumed)| <= |data|
    ensures DropPy(data, consumed) == data[|data| - |DropPy(data, consumed)|..]
  {
  }

  lemma SuffixOfSuffix(data: Bytes, i: nat, j: nat)
    requires i + j <= |data|
    ensures data[i..][j..] == data[i + j..]
  {
  }

  /** It comes to a buffer on which it is stuck. */
  predicate Meets(site: Site, data: Bytes) {
    exists at :: 0 <= at <= |data| && StuckAt(site, data, at)
  }

  predicate StuckAt(site: Site, data: Bytes, at: nat)
    requires at <= |data|
  {
    ComesTo(site, data, at) && Stuck(site, data[at..])
  }

  /** The loop does not end exactly when it comes to a buffer on which it is stuck. */
  lemma {:induction false} SpinsIff(site: Site, data: Bytes)
    ensures Serve(site, data).ending == Spinning <==> Meets(site, data)
    decreases |data|
  {
    if Parse(data).Parsed? && !site.respond(Parse(data).message).close {
      var rest := DropPy(data, Parse(data).consumed);
      NoProgressIff(data);
      DropIsSuffix(data, Parse(data).consumed);
      if |rest| < |data| {
        SpinsIff(site, rest);
        MeetsLater(site, data, rest);
      } else {
        MeetsHere(site, data);
      }
    } else {
      MeetsNot(site, data);
    }
  }

  lemma MeetsHere(site: Site, data: Bytes)
    requires Stuck(site, data)
    ensures Meets(site, data)
  {
    assert data[0..] == data;
    assert StuckAt(site, data, 0);
  }

  lemma MeetsNot(site: Site, data: Bytes)
    requires !(Parse(data).Parsed? && !site.respond(Parse(data).message).close)
    ensures !Meets(site, data)
  {
    assert data[0..] == data;
  }

  /** The loop goes on behind the first request. */
  predicate GoesOn(site: Site, data: Bytes, rest: Bytes) {
    && Parse(data).Parsed? && !site.respond(Parse(data).message).close && !DeclaresNothingTaken(data)
    && rest == DropPy(data, Parse(data).consumed) && |rest| < |data| && rest == data[|data| - |rest|..]
  }

  lemma ComesLater(site: Site, data: Bytes, rest: Bytes, at: nat)
    requires GoesOn(site, data, rest) && 0 < at
    ensures ComesTo(site, data, at) <==> |data| - |rest| <= at && ComesTo(site, rest, at - (|data| - |rest|))
  {
  }

  lemma StuckShifts(site: Site, data: Bytes, rest: Bytes, at: nat)
    requires |rest| <= |data| && rest == data[|data| - |rest|..] && at <= |rest|
    ensures Stuck(site, data[|data| - |rest| + at..]) <==> Stuck(site, rest[at..])
  {
    SuffixOfSuffix(data, |data| - |rest|, at);
  }

  lemma StuckNotHere(site: Site, data: Bytes, rest: Bytes)
    requires GoesOn(site, data, rest)
    ensures !StuckAt(site, data, 0)
  {
    assert data[0..] == data;
  }

  lemma StuckBehind(site: Site, data: Bytes, rest: Bytes, at: nat)
    requires GoesOn(site, data, rest) && at <= |data| && StuckAt(site, data, at)
    ensures Meets(site, rest)
  {
    StuckNotHere(site, data, rest);
    ComesLater(site, data, rest, at);
    StuckShifts(site, data, rest, at - (|data| - |rest|));
    assert StuckAt(site, rest, at - (|data| - |rest|));
  }

  lemma StuckBefore(site: Site, data: Bytes, rest: Bytes, at: nat)
    requires GoesOn(site, data, rest) && at <= |rest| && StuckAt(site, rest, at)
    ensures Meets(site, data)
  {
    ComesLater(site, data, rest, |data| - |rest| + at);
    StuckShifts(site, data, rest, at);
    assert StuckAt(site, data, |data| - |rest| + at);
  }

  lemma MeetsLater(site: Site, data: Bytes, rest: Bytes)
    requires GoesOn(site, data, rest)
    ensures Meets(site, data) <==> Meets(site, rest)
  {
    if Meets(site, data) {
      var at :| 0 <= at <= |data| && StuckAt(site, data, at);
      StuckBehind(site, data, rest, at);
    }
    if Meets(site, rest) {
      var at :| 0 <= at <= |rest| && StuckAt(site, rest, at);
      StuckBefore(site, data, rest, at);
    }
  }

  // ---- a request on which the loop is stuck ----

  // ASCII: b"GET", b"HTTP/1.1", b"connection" and b"keep-alive".
  const GET: Bytes := [71, 69, 84]
  const HTTP_1_1: Bytes := HTTP_SLASH + [49, 46, 49]
  const CONNECTION: Bytes := [99, 111, 110, 110, 101, 99, 116, 105, 111, 110]
  const KEEP_ALIVE: Bytes := [107, 101, 101, 112, 45, 97, 108, 105, 118, 101]

  function KeptFields(n: nat): seq<FieldText> {
    [FieldText(CONNECTION, KEEP_ALIVE), NegativeField(n)]
  }

  /** A GET, for any target, that asks to keep the connection alive and declares minus n. */
  function KeptRequest(url: Bytes, n: nat): Bytes {
    PrintHead(GET, url, HTTP_1_1, KeptFields(n))
  }

  function KeptMessage(url: Bytes, n: nat): HTTPMessage {
    HTTPMessage(GET, url, HTTP_1_1, map[CONNECTION := KEEP_ALIVE, CONTENT_LENGTH := [45] + Decimal(n)], [])
  }

  lemma KeptNamesStay()
    ensures FieldName(CONNECTION) == CONNECTION && FieldName(CONTENT_LENGTH) == CONTENT_LENGTH
    ensures Strip(Latin1, KEEP_ALIVE) == KEEP_ALIVE && CONNECTION != CONTENT_LENGTH
  {
    CanonicalNameStays(CONNECTION);
    CanonicalNameStays(CONTENT_LENGTH);
  }

  lemma {:induction false} KeptFieldsMean(n: nat)
    ensures FieldMap(KeptFields(n), map[]) == map[CONNECTION := KEEP_ALIVE, CONTENT_LENGTH := [45] + Decimal(n)]
    ensures ParseInt(Latin1, [45] + Decimal(n)) == Some(-(n as int))
  {
    NegativeFieldParses(n);
    KeptNamesStay();
    StripMinusDecimal(Latin1, n);
    var fields := KeptFields(n);
    assert fields[1..] == [NegativeField(n)] && [NegativeField(n)][1..] == [];
    var first := map[CONNECTION := KEEP_ALIVE];
    assert FieldMap(fields, map[]) == FieldMap([NegativeField(n)], first);
    assert FieldMap([NegativeField(n)], first) == first[CONTENT_LENGTH := [45] + Decimal(n)];
  }

  lemma KeptPrintable(url: Bytes, n: nat)
    requires Lacks(url, SPACE) && Lacks(url, CR)
    ensures Printable(GET, url, HTTP_1_1, KeptFields(n))
  {
    NegativeFieldParses(n);
  }

  /** Any printed request that declares a negative length and stands alone. */
  lemma {:induction false} NegativeAlone(method_: Bytes, url: Bytes, version: Bytes, fields: seq<FieldText>, n: nat)
    requires Printable(method_, url, version, fields) && n > 0
    requires CONTENT_LENGTH in FieldMap(fields, map[])
    requires ParseInt(Latin1, FieldMap(fields, map[])[CONTENT_LENGTH]) == Some(-(n as int))
    ensures var data := PrintHead(method_, url, version, fields);
      && Parse(data) == Parsed(HTTPMessage(method_, url, version, FieldMap(fields, map[]), []), |data| - n)
      && DeclaredLength(data) == Some(-(n as int)) && HeadSize(data) == |data|
  {
    ConcatNothing(PrintHead(method_, url, version, fields));
    HeadOfPrinted(method_, url, version, fields, []);
    NegativePrinted(method_, url, version, fields, -(n as int), []);
  }

  lemma KeptRequestParses(url: Bytes, n: nat)
    requires Lacks(url, SPACE) && Lacks(url, CR) && n > 0
    ensures var data := KeptRequest(url, n);
      && Parse(data) == Parsed(KeptMessage(url, n), |data| - n)
      && DeclaredLength(data) == Some(-(n as int)) && HeadSize(data) == |data|
  {
    KeptFieldsMean(n);
    KeptPrintable(url, n);
    NegativeAlone(GET, url, HTTP_1_1, KeptFields(n), n);
  }

  lemma ConcatNothing(data: Bytes)
    ensures data + [] == data
  {
  }

  /** The loop is stuck on it exactly when n is its own size or at least twice that, and the
      site does keep the connection alive; and then it is answered for ever. */
  lemma {:induction false} KeptRequestSpins(site: Site, url: Bytes, n: nat)
    requires Lacks(url, SPACE) && Lacks(url, CR) && n > 0
    ensures var data := KeptRequest(url, n);
      && (Stuck(site, data) <==> !site.respond(KeptMessage(url, n)).close && (n == |data| || n >= 2 * |data|))
      && (Stuck(site, data) ==>
            Serve(site, data) == Served([site.respond(KeptMessage(url, n)).bytes], [[]], data, Spinning))
  {
    KeptRequestParses(url, n);
    NoProgressIff(KeptRequest(url, n));
  }

  lemma {:induction false} DecimalShort(n: nat)
    ensures |Decimal(n)| <= 1 + n / 10
  {
    if n >= 10 {
      DecimalShort(n / 10);
    }
  }

  /** Such a length exists for every target. */
  lemma {:induction false} StuckLength(url: Bytes) returns (n: nat)
    requires Lacks(url, SPACE) && Lacks(url, CR)
    ensures n > 0 && n >= 2 * |KeptRequest(url, n)|
  {
    n := 4 * |url| + 400;
    DecimalShort(n);
    var fields := KeptFields(n);
    var lines := HeaderLines(GET, url, HTTP_1_1, fields);
    assert lines[0] == RequestLine(GET, url, HTTP_1_1);
    assert lines[1] == FieldLine(fields[0]) && lines[2] == FieldLine(NegativeField(n));
    assert lines[1..][1..] == [lines[2]] && lines[1..][0] == lines[1];
    assert Join(lines, CRLF) == lines[0] + CRLF + Join(lines[1..], CRLF);
    assert Join(lines[1..], CRLF) == lines[1] + CRLF + Join([lines[2]], CRLF);
  }
}
