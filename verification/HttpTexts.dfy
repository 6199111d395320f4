/** Requests and responses as the bytes that they are (tls_web_server/http.py): header names in
    any case, the headers and the body of requests in their usual spelling, and every byte of
    every response of the site. Names and phrases are written out here. */
module HttpTexts {
  import opened Wire
  import opened Text
  import opened Http
  import opened Pipeline
  import opened StaticSite
  import opened ClientLoop

  // ---- header names ----

  /** A name without whitespace at its ends. */
  predicate Trimmed(name: Bytes) {
    name != [] && !IsSpace(Latin1, name[0]) && !IsSpace(Latin1, name[|name| - 1])
  }

  lemma TrimmedStays(name: Bytes)
    requires Trimmed(name)
    ensures Strip(Latin1, name) == name
  {
    StripExactly(Latin1, [], name, []);
    assert [] + (name + []) == name;
  }

  /** Whatever whitespace is around it, an ASCII name is stored with A to Z moved by 32 and
      nothing else changed. */
  lemma {:induction false} AsciiName(left: Bytes, name: Bytes, right: Bytes)
    requires AllSpace(Latin1, left) && AllSpace(Latin1, right)
    requires Trimmed(name) && forall i :: 0 <= i < |name| ==> name[i] < 128
    ensures var stored := FieldName(left + (name + right));
      && |stored| == |name|
      && forall i :: 0 <= i < |name| ==> stored[i] == if 65 <= name[i] <= 90 then name[i] + 32 else name[i]
  {
    StripExactly(Latin1, left, name, right);
    LowerExactly(name);
  }

  predicate Lowered(name: Bytes, low: Bytes) {
    |low| == |name| && forall i :: 0 <= i < |name| ==>
      name[i] < 128 && low[i] == if 65 <= name[i] <= 90 then name[i] + 32 else name[i]
  }

  lemma NameLowered(name: Bytes, low: Bytes)
    requires Trimmed(name) && Lowered(name, low)
    ensures FieldName(name) == low
  {
    AsciiName([], name, []);
    assert [] + (name + []) == name;
  }

  lemma StoredNames()
    ensures Latin("content-length") == CONTENT_LENGTH
    ensures Latin("connection") == CONNECTION && Latin("keep-alive") == KEEP_ALIVE
  {
    assert |Latin("content-length")| == |CONTENT_LENGTH|;
    assert |Latin("connection")| == |CONNECTION|;
    assert |Latin("keep-alive")| == |KEEP_ALIVE|;
  }

  lemma ContentLengthBytes()
    ensures Latin("Content-Length") == [67, 111, 110, 116, 101, 110, 116, 45, 76, 101, 110, 103, 116, 104]
  {
    assert |Latin("Content-Length")| == 14;
  }

  lemma ContentLengthName()
    ensures Trimmed(Latin("Content-Length")) && Lowered(Latin("Content-Length"), Latin("content-length"))
  {
    ContentLengthBytes();
    StoredNames();
  }

  lemma ConnectionBytes()
    ensures Latin("Connection") == [67, 111, 110, 110, 101, 99, 116, 105, 111, 110]
  {
    assert |Latin("Connection")| == 10;
  }

  lemma ConnectionName()
    ensures Trimmed(Latin("Connection")) && Lowered(Latin("Connection"), Latin("connection"))
  {
    ConnectionBytes();
    StoredNames();
  }

  lemma HostName()
    ensures Trimmed(Latin("Host")) && Lowered(Latin("Host"), Latin("host"))
  {
  }

  /** The names that clients use, and how they are stored. */
  lemma {:induction false} UsualNames()
    ensures FieldName(Latin("Content-Length")) == Latin("content-length") == CONTENT_LENGTH
    ensures FieldName(Latin("Connection")) == Latin("connection") == CONNECTION
    ensures FieldName(Latin("Host")) == Latin("host")
  {
    StoredNames();
    ContentLengthName();
    ConnectionName();
    HostName();
    NameLowered(Latin("Content-Length"), Latin("content-length"));
    NameLowered(Latin("Connection"), Latin("connection"));
    NameLowered(Latin("Host"), Latin("host"));
  }

  /** Two spellings of one name, apart only in the case of ASCII letters. */
  predicate SameButCase(a: Bytes, b: Bytes) {
    |a| == |b| && forall i :: 0 <= i < |a| ==>
      a[i] == b[i] || (65 <= a[i] <= 90 && b[i] == a[i] + 32) || (65 <= b[i] <= 90 && a[i] == b[i] + 32)
  }

  lemma SameName(a: Bytes, b: Bytes)
    requires Trimmed(a) && SameButCase(a, b)
    ensures Trimmed(b) && FieldName(a) == FieldName(b)
  {
    TrimmedStays(a);
    TrimmedStays(b);
    LowerExactly(a);
    LowerExactly(b);
  }

  predicate SameFields(fs: seq<FieldText>, gs: seq<FieldText>) {
    |fs| == |gs| && forall i :: 0 <= i < |fs| ==>
      Trimmed(fs[i].name) && SameButCase(fs[i].name, gs[i].name) && fs[i].value == gs[i].value
  }

  lemma {:induction false} SameMap(fs: seq<FieldText>, gs: seq<FieldText>, headers: map<Bytes, Bytes>)
    requires SameFields(fs, gs)
    ensures FieldMap(fs, headers) == FieldMap(gs, headers)
  {
    if fs != [] {
      SameName(fs[0].name, gs[0].name);
      SameMap(fs[1..], gs[1..], headers[FieldName(fs[0].name) := Strip(Latin1, fs[0].value)]);
    }
  }

  lemma {:induction false} SameLength(fs: seq<FieldText>, gs: seq<FieldText>)
    requires SameFields(fs, gs)
    ensures forall i :: 0 <= i < |fs| ==> |FieldLine(fs[i])| == |FieldLine(gs[i])|
  {
  }

  lemma {:induction false} JoinLength(a: seq<Bytes>, b: seq<Bytes>)
    requires a != [] && |a| == |b| && forall i :: 0 <= i < |a| ==> |a[i]| == |b[i]|
    ensures |Join(a, CRLF)| == |Join(b, CRLF)|
  {
    if |a| > 1 {
      JoinLength(a[1..], b[1..]);
    }
  }

  /** The case of header names makes no difference: requests that are otherwise alike have
      one message and one count. */
  lemma {:induction false} CaseIrrelevant(method_: Bytes, url: Bytes, version: Bytes, fs: seq<FieldText>,
                                          gs: seq<FieldText>, body: Bytes, more: Bytes)
    requires Printable(method_, url, version, fs) && Printable(method_, url, version, gs) && SameFields(fs, gs)
    requires var headers := FieldMap(fs, map[]);
      if CONTENT_LENGTH in headers then ParseInt(Latin1, headers[CONTENT_LENGTH]) == Some(|body|) else body == []
    ensures Parse(PrintHead(method_, url, version, fs) + (body + more))
      == Parse(PrintHead(method_, url, version, gs) + (body + more))
  {
    SameMap(fs, gs, map[]);
    RequestRoundTrip(method_, url, version, fs, body, more);
    RequestRoundTrip(method_, url, version, gs, body, more);
    SameLength(fs, gs);
    JoinLength(HeaderLines(method_, url, version, fs), HeaderLines(method_, url, version, gs));
  }

  // ---- two requests, word for word ----

  lemma JoinTwo(a: Bytes, b: Bytes)
    ensures Join([a, b], CRLF) == a + CRLF + b
  {
    assert [a, b][1..] == [b];
  }

  lemma OneFieldText(name: Bytes, value: Bytes)
    ensures PrintHead(GET, Latin("/"), HTTP_1_1, [FieldText(name, value)])
      == Latin("GET / HTTP/1.1") + CRLF + (name + [COLON] + value) + HEADER_END
  {
    assert RequestLine(GET, Latin("/"), HTTP_1_1) == Latin("GET / HTTP/1.1");
    var fields := [FieldText(name, value)];
    assert FieldLines(fields) == [FieldLine(fields[0])];
    JoinTwo(Latin("GET / HTTP/1.1"), name + [COLON] + value);
  }

  lemma OneFieldMap(name: Bytes, value: Bytes)
    ensures FieldMap([FieldText(name, value)], map[]) == map[FieldName(name) := Strip(Latin1, value)]
  {
    assert [FieldText(name, value)][1..] == [];
  }

  lemma OneFieldPrintable(name: string, value: Bytes)
    requires CleanText(name) && Lacks(Latin(name), COLON) && Lacks(value, CR)
    ensures Printable(GET, Latin("/"), HTTP_1_1, [FieldText(Latin(name), value)])
  {
    LatinLacksCR(name);
    assert Lacks(Latin("/"), SPACE) && Lacks(Latin("/"), CR);
  }

  lemma GetText()
    ensures GET == Latin("GET") && HTTP_1_1 == Latin("HTTP/1.1") && |Latin("GET / HTTP/1.1")| == 14
    ensures HEADER_END == [13, 10, 13, 10]
  {
  }

  lemma KeepAliveLine()
    ensures Latin("Connection") + [COLON] + ([SPACE] + Latin("keep-alive")) == Latin("Connection: keep-alive")
    ensures |Latin("Connection: keep-alive")| == 22
    ensures CleanText("Connection") && CleanText("keep-alive") && Lacks(Latin("Connection"), COLON)
  {
  }

  /** One header field that says nothing about a length. */
  lemma OneFieldParses(name: string, value: Bytes, more: Bytes)
    requires CleanText(name) && Lacks(Latin(name), COLON) && Lacks(value, CR)
    requires FieldName(Latin(name)) != CONTENT_LENGTH
    ensures var text := Latin("GET / HTTP/1.1") + CRLF + (Latin(name) + [COLON] + value) + HEADER_END;
      Parse(text + more)
        == Parsed(HTTPMessage(GET, Latin("/"), HTTP_1_1, map[FieldName(Latin(name)) := Strip(Latin1, value)], []),
                  |text|)
  {
    OneFieldText(Latin(name), value);
    OneFieldPrintable(name, value);
    OneFieldMap(Latin(name), value);
    RequestRoundTrip(GET, Latin("/"), HTTP_1_1, [FieldText(Latin(name), value)], [], more);
    assert [] + more == more;
  }

  lemma OneLengthParses(name: string, value: Bytes, body: Bytes, more: Bytes)
    requires CleanText(name) && Lacks(Latin(name), COLON) && Lacks(value, CR)
    requires FieldName(Latin(name)) == CONTENT_LENGTH && ParseInt(Latin1, Strip(Latin1, value)) == Some(|body|)
    ensures var text := Latin("GET / HTTP/1.1") + CRLF + (Latin(name) + [COLON] + value) + HEADER_END;
      Parse(text + (body + more))
        == Parsed(HTTPMessage(GET, Latin("/"), HTTP_1_1, map[CONTENT_LENGTH := Strip(Latin1, value)], body),
                  |text| + |body|)
  {
    OneFieldText(Latin(name), value);
    OneFieldPrintable(name, value);
    OneFieldMap(Latin(name), value);
    RequestRoundTrip(GET, Latin("/"), HTTP_1_1, [FieldText(Latin(name), value)], body, more);
  }

  /** GET / with "Connection: keep-alive": one header, no body, 42 bytes; and it asks to stay. */
  lemma {:induction false} KeepAliveText(more: Bytes)
    ensures var text := Latin("GET / HTTP/1.1") + CRLF + Latin("Connection: keep-alive") + [13, 10, 13, 10];
      var message := HTTPMessage(Latin("GET"), Latin("/"), Latin("HTTP/1.1"),
                                 map[Latin("connection") := Latin("keep-alive")], []);
      Parse(text + more) == Parsed(message, 42) && AsksToStay(message)
  {
    UsualNames();
    StoredNames();
    GetText();
    KeepAliveLine();
    KeepAliveValue();
    LatinLacksCR("keep-alive");
    OneFieldParses("Connection", [SPACE] + Latin("keep-alive"), more);
  }

  lemma KeepAliveLowered(value: Bytes)
    requires value == KEEP_ALIVE
    ensures Lower(Latin1, value) == KEEP_ALIVE && Trimmed(value)
  {
    LowerExactly(value);
  }

  lemma KeepAliveValue()
    ensures Strip(Latin1, [SPACE] + Latin("keep-alive")) == Latin("keep-alive")
    ensures Lower(Latin1, Latin("keep-alive")) == KEEP_ALIVE
  {
    StoredNames();
    KeepAliveLowered(Latin("keep-alive"));
    StripExactly(Latin1, [SPACE], Latin("keep-alive"), []);
    assert [SPACE] + (Latin("keep-alive") + []) == [SPACE] + Latin("keep-alive");
  }

  lemma LengthLineText(digits: Bytes)
    ensures Latin("Content-Length") + [COLON] + ([SPACE] + digits) == Latin("Content-Length: ") + digits
    ensures CleanText("Content-Length") && Lacks(Latin("Content-Length"), COLON)
  {
    assert Latin("Content-Length") + [COLON] + [SPACE] == Latin("Content-Length: ");
    ConcatAssoc(Latin("Content-Length") + [COLON], [SPACE], digits);
  }

  /** GET / with "Content-Length: " and the length of the body that follows: the body is that
      body, and it is consumed. */
  lemma {:induction false} ContentLengthText(body: Bytes, more: Bytes)
    ensures var line := Latin("Content-Length: ") + Decimal(|body|);
      var text := Latin("GET / HTTP/1.1") + CRLF + line + [13, 10, 13, 10];
      Parse(text + (body + more))
        == Parsed(HTTPMessage(Latin("GET"), Latin("/"), Latin("HTTP/1.1"),
                              map[Latin("content-length") := Decimal(|body|)], body),
                  14 + 2 + |line| + 4 + |body|)
  {
    var value := [SPACE] + Decimal(|body|);
    UsualNames();
    StoredNames();
    GetText();
    LengthLineText(Decimal(|body|));
    StripDigits(Latin1, Decimal(|body|));
    ParseDecimal(Latin1, |body|);
    OneLengthParses("Content-Length", value, body, more);
  }

  // ---- responses, byte by byte ----

  function StatusLine(status: nat): string
    requires status in {200, 400, 403, 404, 405}
  {
    match status
    case 200 => "HTTP/1.1 200 OK"
    case 400 => "HTTP/1.1 400 Bad Request"
    case 403 => "HTTP/1.1 403 Forbidden"
    case 404 => "HTTP/1.1 404 Not Found"
    case _ => "HTTP/1.1 405 Method Not Allowed"
  }

  /** What the response tells the client about the connection. */
  function ConnectionLine(close: bool): string {
    if close then "Connection: close" else "Connection: keep-alive"
  }

  /** The four lines, the blank line and the body. */
  function ResponseText(status: nat, length: nat, kind: Bytes, close: bool, body: Bytes): Bytes
    requires status in {200, 400, 403, 404, 405}
  {
    Latin(StatusLine(status)) + CRLF
      + (Latin("Content-Length: ") + Decimal(length) + CRLF
         + (Latin("Content-Type: ") + kind + CRLF + Latin(ConnectionLine(close))))
      + [13, 10, 13, 10] + body
  }

  lemma {:induction false} ThreeDigits(n: nat)
    requires 100 <= n < 1000
    ensures Decimal(n) == [48 + n / 100, 48 + n / 10 % 10, 48 + n % 10]
  {
    assert Decimal(n) == Decimal(n / 10) + [48 + n % 10];
    assert Decimal(n / 10) == Decimal(n / 10 / 10) + [48 + n / 10 % 10];
    assert Decimal(n / 10 / 10) == [48 + n / 10 / 10];
  }

  lemma OkLine()
    ensures Latin("HTTP/1.1 ") + Decimal(200) + [SPACE] + Latin("OK") == Latin("HTTP/1.1 200 OK")
  {
    ThreeDigits(200);
  }

  lemma BadRequestLine()
    ensures Latin("HTTP/1.1 ") + Decimal(400) + [SPACE] + Latin("Bad Request") == Latin("HTTP/1.1 400 Bad Request")
  {
    ThreeDigits(400);
  }

  lemma ForbiddenLine()
    ensures Latin("HTTP/1.1 ") + Decimal(403) + [SPACE] + Latin("Forbidden") == Latin("HTTP/1.1 403 Forbidden")
  {
    ThreeDigits(403);
  }

  lemma NotFoundLine()
    ensures Latin("HTTP/1.1 ") + Decimal(404) + [SPACE] + Latin("Not Found") == Latin("HTTP/1.1 404 Not Found")
  {
    ThreeDigits(404);
  }

  lemma {:induction false} LatinAppend(a: string, b: string)
    ensures Latin(a + b) == Latin(a) + Latin(b)
  {
  }

  lemma NotAllowedStart()
    ensures Latin("HTTP/1.1 ") + Decimal(405) + [SPACE] == Latin("HTTP/1.1 405 ")
  {
    ThreeDigits(405);
  }

  lemma NotAllowedWords()
    ensures "HTTP/1.1 405 " + "Method Not Allowed" == "HTTP/1.1 405 Method Not Allowed"
  {
  }

  lemma NotAllowedLine()
    ensures Latin("HTTP/1.1 ") + Decimal(405) + [SPACE] + Latin("Method Not Allowed")
      == Latin("HTTP/1.1 405 Method Not Allowed")
  {
    NotAllowedStart();
    NotAllowedWords();
    LatinAppend("HTTP/1.1 405 ", "Method Not Allowed");
  }

  lemma {:induction false} StatusLineText(status: nat)
    requires status in {200, 400, 403, 404, 405}
    ensures Latin("HTTP/1.1 ") + Decimal(status) + [SPACE] + Latin(ReasonPhrase(status)) == Latin(StatusLine(status))
  {
    match status
    case 200 => OkLine();
    case 400 => BadRequestLine();
    case 403 => ForbiddenLine();
    case 404 => NotFoundLine();
    case 405 => NotAllowedLine();
    case _ =>
  }

  lemma ConnectionLineText(close: bool)
    ensures Latin("Connection: ") + Latin(if close then "close" else "keep-alive") == Latin(ConnectionLine(close))
  {
  }

  lemma {:induction false} LengthText(length: nat)
    ensures LengthLine(length) == Latin("Content-Length: ") + Decimal(length)
  {
    assert Latin("Content-Length:") + [SPACE] == Latin("Content-Length: ");
  }

  lemma JoinFour(a: Bytes, b: Bytes, c: Bytes, d: Bytes)
    ensures Join([a, b, c, d], CRLF) == a + CRLF + (b + CRLF + (c + CRLF + d))
  {
    assert [a, b, c, d][1..] == [b, c, d] && [b, c, d][1..] == [c, d];
    assert Join([b, c, d], CRLF) == b + CRLF + Join([c, d], CRLF);
    JoinTwo(c, d);
  }

  lemma {:induction false} LinesText(status: nat, kind: Bytes, close: bool, length: nat)
    requires status in {200, 400, 403, 404, 405}
    ensures ResponseLines(status, kind, close, length)
      == [Latin(StatusLine(status)), Latin("Content-Length: ") + Decimal(length),
          Latin("Content-Type: ") + kind, Latin(ConnectionLine(close))]
  {
    StatusLineText(status);
    LengthText(length);
    ConnectionLineText(close);
  }

  /** http_response, for every status that the repository uses. */
  lemma {:induction false} HttpResponseText(status: nat, body: Bytes, kind: Bytes, close: bool, declared: Option<nat>)
    requires status in {200, 400, 403, 404, 405}
    ensures var length := if declared.Some? then declared.value else |body|;
      HttpResponse(status, body, kind, close, declared) == ResponseText(status, length, kind, close, body)
  {
    var length := if declared.Some? then declared.value else |body|;
    LinesText(status, kind, close, length);
    JoinFour(Latin(StatusLine(status)), Latin("Content-Length: ") + Decimal(length), Latin("Content-Type: ") + kind,
             Latin(ConnectionLine(close)));
  }

  /** A method, in any case. */
  predicate MethodIs(m: HTTPMessage, word: string) {
    SameButCase(m.method_, Latin(word))
  }

  lemma LowerIffSame(text: Bytes, word: Bytes)
    requires forall i :: 0 <= i < |word| ==> word[i] < 128 && !(65 <= word[i] <= 90)
    ensures Lower(Ascii, text) == word <==> SameButCase(text, word)
    ensures Lower(Latin1, text) == word <==> SameButCase(text, word)
  {
    LowerExactly(text);
  }

  lemma LowerWords()
    ensures Latin("get") == [103, 101, 116] && Latin("head") == [104, 101, 97, 100]
  {
  }

  lemma MethodsRead(m: HTTPMessage)
    ensures IsMethod(m, "get") <==> MethodIs(m, "get")
    ensures IsMethod(m, "head") <==> MethodIs(m, "head")
  {
    LowerWords();
    LowerIffSame(m.method_, Latin("get"));
    LowerIffSame(m.method_, Latin("head"));
  }

  /** The request says, in any case, that it wants to keep the connection. */
  predicate WantsToStay(m: HTTPMessage) {
    Latin("connection") in m.headers && SameButCase(m.headers[Latin("connection")], Latin("keep-alive"))
  }

  lemma StayRead(m: HTTPMessage)
    ensures AsksToStay(m) <==> WantsToStay(m)
  {
    StoredNames();
    if CONNECTION in m.headers {
      LowerIffSame(m.headers[CONNECTION], KEEP_ALIVE);
    }
  }

  lemma RefusalLengths()
    ensures |Latin("405 Method Not Allowed")| == 22
    ensures |Latin("403 Forbidden")| == 13 && |Latin("404 Not Found")| == 13
  {
  }

  lemma PlainText(status: nat, text: string, length: nat)
    requires status in {200, 400, 403, 404, 405} && |Latin(text)| == length
    ensures Plain(status, text) == Reply(ResponseText(status, length, Latin("text/plain"), true, Latin(text)), true)
  {
    HttpResponseText(status, Latin(text), Latin("text/plain"), true, None);
  }

  /** Every answer of every site, as the bytes it is. A method but GET and HEAD, a target
      outside the root and a missing file are refused, and the connection closes; a file is
      sent, with its length, after a GET, and only its length is told after a HEAD. */
  lemma {:induction false} AnswerTexts(files: Files, explain: InvalidReason -> Bytes, m: HTTPMessage)
    ensures var reply := SiteOf(files, explain).respond(m);
      var found := files(m.url);
      var plain := Latin("text/plain");
      if !MethodIs(m, "get") && !MethodIs(m, "head") then
        reply == Reply(ResponseText(405, 22, plain, true, Latin("405 Method Not Allowed")), true)
      else if found.Outside? then
        reply == Reply(ResponseText(403, 13, plain, true, Latin("403 Forbidden")), true)
      else if found.Missing? then
        reply == Reply(ResponseText(404, 13, plain, true, Latin("404 Not Found")), true)
      else
        reply == Reply(ResponseText(200, |found.body|, if found.html then Latin("text/html") else plain,
                                    !WantsToStay(m), if MethodIs(m, "get") then found.body else []),
                       !WantsToStay(m))
  {
    MethodsRead(m);
    StayRead(m);
    RefusalLengths();
    PlainText(405, "405 Method Not Allowed", 22);
    PlainText(403, "403 Forbidden", 13);
    PlainText(404, "404 Not Found", 13);
    GetNotHead(m);
    if files(m.url).File? {
      FileText(files(m.url).body, files(m.url).html, !AsksToStay(m));
    }
  }

  lemma GetNotHead(m: HTTPMessage)
    ensures !(MethodIs(m, "get") && MethodIs(m, "head"))
  {
    LowerWords();
  }

  lemma FileText(body: Bytes, html: bool, close: bool)
    ensures var kind := Latin(if html then "text/html" else "text/plain");
      && HttpResponse(200, body, kind, close, None) == ResponseText(200, |body|, kind, close, body)
      && HttpResponse(200, [], kind, close, Some(|body|)) == ResponseText(200, |body|, kind, close, [])
  {
    HttpResponseText(200, body, Latin(if html then "text/html" else "text/plain"), close, None);
    HttpResponseText(200, [], Latin(if html then "text/html" else "text/plain"), close, Some(|body|));
  }

  /** A bad request is answered with the explanation, and the connection closes. */
  lemma {:induction false} RejectionText(files: Files, explain: InvalidReason -> Bytes, reason: InvalidReason)
    ensures SiteOf(files, explain).reject(reason)
      == ResponseText(400, |explain(reason)|, Latin("text/plain"), true, explain(reason))
  {
    HttpResponseText(400, explain(reason), Latin("text/plain"), true, None);
  }

  lemma KindsClean()
    ensures Lacks(Latin("text/html"), CR) && Lacks(Latin("text/plain"), CR)
  {
    assert CleanText("text/html") && CleanText("text/plain");
    LatinLacksCR("text/html");
    LatinLacksCR("text/plain");
  }

  /** The last line of a response's header block, as the client splits it. */
  function LastHeader(bytes: Bytes): Option<Bytes> {
    match Find(bytes, HEADER_END)
    case None => None
    case Some(end) =>
      if end > |bytes| || |Split(bytes[..end], CRLF)| != 4 then None else Some(Split(bytes[..end], CRLF)[3])
  }

  lemma HeadReadsBack(status: nat, body: Bytes, kind: Bytes, close: bool, declared: Option<nat>)
    requires Lacks(kind, CR)
    ensures LastHeader(HttpResponse(status, body, kind, close, declared)) == Some(Latin(ConnectionLine(close)))
  {
    var length := if declared.Some? then declared.value else |body|;
    var lines := ResponseLines(status, kind, close, length);
    var text := Join(lines, CRLF);
    ResponseLinesClean(status, kind, close, length);
    FindHeaderEnd(lines, body);
    ConcatAssoc(text, HEADER_END, body);
    assert (text + (HEADER_END + body))[..|text|] == text;
    SplitJoin(lines, CRLF);
    ConnectionLineText(close);
  }

  /** A reply whose response says what it does. */
  predicate Says(r: Reply) {
    LastHeader(r.bytes) == Some(Latin(ConnectionLine(r.close)))
  }

  lemma PlainSays(status: nat, text: string)
    ensures Says(Plain(status, text))
  {
    KindsClean();
    HeadReadsBack(status, Latin(text), Latin("text/plain"), true, None);
  }

  lemma FileSays(body: Bytes, html: bool, close: bool, declared: Option<nat>)
    ensures Says(Reply(HttpResponse(200, body, Latin(if html then "text/html" else "text/plain"), close, declared),
                       close))
  {
    KindsClean();
    HeadReadsBack(200, body, Latin(if html then "text/html" else "text/plain"), close, declared);
  }

  lemma SiteSays(files: Files, m: HTTPMessage)
    ensures Says(Respond(files, m))
  {
    if !IsMethod(m, "get") && !IsMethod(m, "head") {
      PlainSays(405, "405 Method Not Allowed");
    } else {
      match files(m.url)
      case Outside => PlainSays(403, "403 Forbidden");
      case Missing => PlainSays(404, "404 Not Found");
      case File(body, html) =>
        if IsMethod(m, "head") {
          FileSays([], html, !AsksToStay(m), Some(|body|));
        } else {
          FileSays(body, html, !AsksToStay(m), None);
        }
    }
  }

  /** What a response says about the connection is what the server does: its last header line
      is "Connection: close" if and only if the connection closes, and otherwise "Connection:
      keep-alive". */
  lemma {:induction false} ConnectionSays(files: Files, explain: InvalidReason -> Bytes, m: HTTPMessage)
    ensures var reply := SiteOf(files, explain).respond(m);
      && (LastHeader(reply.bytes) == Some(Latin("Connection: close")) <==> reply.close)
      && (LastHeader(reply.bytes) == Some(Latin("Connection: keep-alive")) <==> !reply.close)
  {
    LinesDiffer();
    SiteSays(files, m);
  }

  lemma LinesDiffer()
    ensures Latin("Connection: close") != Latin("Connection: keep-alive")
  {
    assert |Latin("Connection: close")| == 17 && |Latin("Connection: keep-alive")| == 22;
  }

  // ---- what the client looks for ----

  /** A header line that starts with "content-length:", in any case. */
  predicate TellsLength(line: Bytes) {
    |line| >= 15 && SameButCase(line[..15], Latin("content-length:"))
  }

  /** The number behind its colon, if int() takes it as one. */
  function ToldLength(line: Bytes): Option<int>
    requires TellsLength(line)
  {
    ParseInt(Ascii, line[15..])
  }

  lemma PrefixBytes()
    ensures Latin("content-length:") == LENGTH_PREFIX && |LENGTH_PREFIX| == 15
    ensures LENGTH_PREFIX[14] == COLON && forall i :: 0 <= i < 14 ==> LENGTH_PREFIX[i] != COLON
    ensures forall i :: 0 <= i < 15 ==> LENGTH_PREFIX[i] < 128 && !(65 <= LENGTH_PREFIX[i] <= 90)
  {
    StoredNames();
    assert Latin("content-length:") == Latin("content-length") + [COLON];
  }

  lemma LowerFront(line: Bytes)
    requires |line| >= 15
    ensures Lower(Ascii, line[..15]) == Lower(Ascii, line)[..15]
  {
  }

  lemma LengthLineIff(line: Bytes)
    ensures LENGTH_PREFIX <= Lower(Ascii, line) <==> TellsLength(line)
  {
    PrefixBytes();
    assert |Lower(Ascii, line)| == |line|;
    if |line| >= 15 {
      LowerFront(line);
      LowerIffSame(line[..15], LENGTH_PREFIX);
    }
  }

  lemma LengthLineCut(line: Bytes)
    requires TellsLength(line)
    ensures Cut(line, COLON) == Some((line[..14], line[15..]))
  {
    PrefixBytes();
    assert forall i :: 0 <= i < 15 ==> line[i] == line[..15][i];
    assert line[14] == COLON && Lacks(line[..14], COLON);
    CutOfJoined(line[..14], COLON, line[15..]);
    assert line == line[..14] + [COLON] + line[15..];
  }

  /** A length line that does not settle it: a number that is more than what has come. */
  predicate TooMuch(line: Bytes, arrived: nat) {
    TellsLength(line) ==> ToldLength(line).Some? && ToldLength(line).value > arrived
  }

  /** The header is decided by its first length line that tells no number, or one that has been
      reached: a ValueError, or a complete response; without such a line the client reads on. */
  lemma {:induction false} CheckLinesExactly(lines: seq<Bytes>, arrived: nat) returns (i: nat)
    ensures i <= |lines| && (forall j :: 0 <= j < i ==> TooMuch(lines[j], arrived))
    ensures i < |lines| ==> !TooMuch(lines[i], arrived)
    ensures CheckLines(lines, arrived) ==
      if i == |lines| then NotYet else if ToldLength(lines[i]).None? then BadLength else Complete
  {
    i := 0;
    if lines != [] {
      LengthLineIff(lines[0]);
      if TellsLength(lines[0]) {
        LengthLineCut(lines[0]);
      }
      if TooMuch(lines[0], arrived) {
        var k := CheckLinesExactly(lines[1..], arrived);
        i := k + 1;
        assert forall j :: 0 < j < i ==> lines[j] == lines[1..][j - 1];
      }
    }
  }
}
