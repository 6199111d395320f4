/** The HTTP request parser, the input buffer and the response printer
    (tls_web_server/http.py). Header text is kept as bytes: its Latin-1 decoding is one to one. */
module Http {
  import opened Wire
  import opened Text

  datatype HTTPMessage = HTTPMessage(method_: Bytes, url: Bytes, version: Bytes, headers: map<Bytes, Bytes>,
                                     body: Bytes)

  /** The four InvalidMessageErrors, with the text each one quotes. */
  datatype InvalidReason =
    | MalformedStartLine(line: Bytes)
    | UnsupportedVersion(version: Bytes)
    | MalformedHeaderLine(line: Bytes)
    | InvalidContentLength(value: Bytes)

  /** parse_message: (None, 0), the two exceptions, or a message and the bytes it consumed. */
  datatype Parsed = Nothing | Incomplete | Invalid(reason: InvalidReason) | Parsed(message: HTTPMessage, consumed: int)

  // ASCII: b"HTTP/" and b"content-length".
  const HTTP_SLASH: Bytes := [72, 84, 84, 80, 47]
  const CONTENT_LENGTH: Bytes := [99, 111, 110, 116, 101, 110, 116, 45, 108, 101, 110, 103, 116, 104]

  // ---- the header block ----

  datatype RequestHead = RequestHead(method_: Bytes, url: Bytes, version: Bytes, headers: map<Bytes, Bytes>,
                                     length: Option<int>)

  /** start_line.split(" ", 2), when it gives three parts. */
  function StartLine(line: Bytes): Option<(Bytes, Bytes, Bytes)> {
    match Cut(line, SPACE)
    case None => None
    case Some((method_, rest)) =>
      match Cut(rest, SPACE)
      case None => None
      case Some((url, version)) => Some((method_, url, version))
  }

  /** The header loop; a later field of the same name overwrites an earlier one. */
  function HeaderFields(lines: seq<Bytes>, headers: map<Bytes, Bytes>): Result<map<Bytes, Bytes>, InvalidReason> {
    if lines == [] then Ok(headers)
    else if lines[0] == [] then HeaderFields(lines[1..], headers)
    else
      match Cut(lines[0], COLON)
      case None => Err(MalformedHeaderLine(lines[0]))
      case Some((name, value)) => HeaderFields(lines[1..], headers[FieldName(name) := Strip(Latin1, value)])
  }

  function FieldName(name: Bytes): Bytes {
    Lower(Latin1, Strip(Latin1, name))
  }

  /** Everything parse_message decides from the bytes before the first CRLFCRLF. */
  function ParseHead(text: Bytes): Result<RequestHead, InvalidReason> {
    var lines := Split(text, CRLF);
    match StartLine(lines[0])
    case None => Err(MalformedStartLine(lines[0]))
    case Some((method_, url, version)) =>
      if !(HTTP_SLASH <= version) then Err(UnsupportedVersion(version))
      else
        match HeaderFields(lines[1..], map[])
        case Err(reason) => Err(reason)
        case Ok(headers) =>
          if CONTENT_LENGTH !in headers then Ok(RequestHead(method_, url, version, headers, None))
          else
            match ParseInt(Latin1, headers[CONTENT_LENGTH])
            case None => Err(InvalidContentLength(headers[CONTENT_LENGTH]))
            case Some(n) => Ok(RequestHead(method_, url, version, headers, Some(n)))
  }

  // ---- the message ----

  /** rest[:length], also for the negative lengths that int() lets through. */
  function TakePy(data: Bytes, n: int): Bytes {
    if n >= |data| then data
    else if n >= 0 then data[..n]
    else if |data| + n >= 0 then data[..|data| + n]
    else []
  }

  /** data[size:]. */
  function DropPy(data: Bytes, n: int): Bytes {
    if n >= |data| then []
    else if n >= 0 then data[n..]
    else if |data| + n >= 0 then data[|data| + n..]
    else data
  }

  /** The two slices are the data, and the first has the length that Python says. */
  lemma {:induction false} SlicesExactly(data: Bytes, n: int)
    ensures TakePy(data, n) + DropPy(data, n) == data
    ensures 0 <= n <= |data| ==> |TakePy(data, n)| == n
    ensures n > |data| ==> TakePy(data, n) == data
    ensures -|data| <= n < 0 ==> |TakePy(data, n)| == |data| + n
    ensures n < -|data| ==> TakePy(data, n) == []
  {
  }

  function ParseBody(head: RequestHead, start: nat, rest: Bytes): Parsed {
    match head.length
    case None => Parsed(HTTPMessage(head.method_, head.url, head.version, head.headers, []), start)
    case Some(n) =>
      if |rest| < n then Incomplete
      else Parsed(HTTPMessage(head.method_, head.url, head.version, head.headers, TakePy(rest, n)), start + n)
  }

  function Parse(data: Bytes): Parsed {
    if data == [] then Nothing
    else
      FindIsFirst(data, HEADER_END);
      match Find(data, HEADER_END)
      case None => Incomplete
      case Some(i) =>
        match ParseHead(data[..i])
        case Err(reason) => Invalid(reason)
        case Ok(head) => ParseBody(head, i + |HEADER_END|, data[i + |HEADER_END|..])
  }

  class HTTPParser {
    static method ParseMessage(data: Bytes) returns (r: Parsed)
      ensures r == Parse(data)
    {
      if data == [] {
        return Nothing;
      }
      FindIsFirst(data, HEADER_END);
      var found := Find(data, HEADER_END);
      if found.None? {
        return Incomplete;
      }
      var headerEnd := found.value;
      var rest := data[headerEnd + |HEADER_END|..];
      var head := ParseHeaderBlock(data[..headerEnd]);
      if head.Err? {
        return Invalid(head.error);
      }
      var h := head.value;
      if h.length.None? {
        return Parsed(HTTPMessage(h.method_, h.url, h.version, h.headers, []), headerEnd + |HEADER_END|);
      }
      if |rest| < h.length.value {
        return Incomplete;
      }
      var body := TakePy(rest, h.length.value);
      return Parsed(HTTPMessage(h.method_, h.url, h.version, h.headers, body),
                    headerEnd + |HEADER_END| + h.length.value);
    }

    static method ParseHeaderBlock(text: Bytes) returns (r: Result<RequestHead, InvalidReason>)
      ensures r == ParseHead(text)
    {
      var lines := Split(text, CRLF);
      var start := StartLine(lines[0]);
      if start.None? {
        return Err(MalformedStartLine(lines[0]));
      }
      var (method_, url, version) := start.value;
      if !(HTTP_SLASH <= version) {
        return Err(UnsupportedVersion(version));
      }
      var headers: map<Bytes, Bytes> := map[];
      for i := 1 to |lines|
        invariant HeaderFields(lines[1..], map[]) == HeaderFields(lines[i..], headers)
      {
        assert lines[i..][1..] == lines[i + 1..];
        if lines[i] != [] {
          var cut := Cut(lines[i], COLON);
          if cut.None? {
            return Err(MalformedHeaderLine(lines[i]));
          }
          var (name, value) := cut.value;
          headers := headers[FieldName(name) := Strip(Latin1, value)];
        }
      }
      if CONTENT_LENGTH !in headers {
        return Ok(RequestHead(method_, url, version, headers, None));
      }
      var n := ParseInt(Latin1, headers[CONTENT_LENGTH]);
      if n.None? {
        return Err(InvalidContentLength(headers[CONTENT_LENGTH]));
      }
      return Ok(RequestHead(method_, url, version, headers, Some(n.value)));
    }
  }

  class DataProvider {
    var data: Bytes

    constructor ()
      ensures data == []
    {
      data := [];
    }

    method Append(chunk: Bytes)
      modifies this
      ensures data == old(data) + chunk
    {
      data := data + chunk;
    }

    method ReduceData(size: int)
      modifies this
      ensures data == DropPy(old(data), size)
    {
      data := DropPy(data, size);
    }
  }

  // ---- stability and progress ----

  /** The length that the first request of a buffer declares, once its header is complete and sound. */
  function DeclaredLength(data: Bytes): Option<int> {
    FindIsFirst(data, HEADER_END);
    match Find(data, HEADER_END)
    case None => None
    case Some(i) =>
      match ParseHead(data[..i])
      case Err(_) => None
      case Ok(head) => head.length
  }

  /** The first request of the buffer declares no negative body length (RFC 9110, section 8.6). */
  predicate NonNegative(data: Bytes) {
    DeclaredLength(data).Some? ==> DeclaredLength(data).value >= 0
  }

  lemma {:induction false} HeadStable(data: Bytes, more: Bytes)
    requires Find(data, HEADER_END).Some?
    ensures Find(data + more, HEADER_END) == Find(data, HEADER_END)
    ensures DeclaredLength(data + more) == DeclaredLength(data)
    ensures var i := Find(data, HEADER_END).value;
      && i + |HEADER_END| <= |data|
      && (data + more)[..i] == data[..i]
      && (data + more)[i + |HEADER_END|..] == data[i + |HEADER_END|..] + more
  {
    FindIsFirst(data, HEADER_END);
    FindStable(data, more, HEADER_END);
    var i := Find(data, HEADER_END).value;
    assert (data + more)[..i] == data[..i];
  }

  /** A rejection is final whatever follows; a message is final, with its consumed
      count, unless its declared length is negative. */
  lemma {:induction false} ParseStable(data: Bytes, more: Bytes)
    ensures Parse(data).Invalid? ==> Parse(data + more) == Parse(data)
    ensures Parse(data).Parsed? && NonNegative(data) ==> Parse(data + more) == Parse(data)
  {
    if Find(data, HEADER_END).Some? {
      HeadStable(data, more);
    }
  }

  /** And exactly then: with a negative declared length some continuation changes the message. */
  lemma {:induction false} ParseStableIff(data: Bytes)
    requires Parse(data).Parsed?
    ensures (forall more: Bytes :: Parse(data + more) == Parse(data)) <==> NonNegative(data)
  {
    if NonNegative(data) {
      forall more: Bytes
        ensures Parse(data + more) == Parse(data)
      {
        ParseStable(data, more);
      }
    } else {
      var i := Find(data, HEADER_END).value;
      FindIsFirst(data, HEADER_END);
      var rest := data[i + |HEADER_END|..];
      var n := DeclaredLength(data).value;
      var more: Bytes := seq(1 - n, _ => 0);
      HeadStable(data, more);
      assert |TakePy(rest + more, n)| == |rest| + 1;
      assert |Parse(data + more).message.body| > |Parse(data).message.body|;
    }
  }

  /** Progress: a parsed message consumes more than its blank line and no more than the buffer. */
  lemma {:induction false} ParseProgress(data: Bytes)
    requires Parse(data).Parsed? && NonNegative(data)
    ensures 4 < Parse(data).consumed <= |data|
    ensures DropPy(data, Parse(data).consumed) == data[Parse(data).consumed..]
  {
    FindIsFirst(data, HEADER_END);
    assert Find(data, HEADER_END).value != 0 by {
      assert Split([], CRLF) == [[]];
      assert StartLine([]).None?;
      assert data[..0] == [];
    }
  }

  // ---- what a client prints, the parser reads ----

  /** One header field as a client writes it: name, colon, value. */
  datatype FieldText = FieldText(name: Bytes, value: Bytes)

  predicate FieldPrintable(f: FieldText) {
    Lacks(f.name, COLON) && Lacks(f.name, CR) && Lacks(f.value, CR)
  }

  /** The request line and fields can be written without changing their meaning. */
  predicate Printable(method_: Bytes, url: Bytes, version: Bytes, fields: seq<FieldText>) {
    && Lacks(method_, SPACE) && Lacks(method_, CR) && Lacks(url, SPACE) && Lacks(url, CR)
    && HTTP_SLASH <= version && Lacks(version, CR)
    && forall i :: 0 <= i < |fields| ==> FieldPrintable(fields[i])
  }

  function FieldLine(f: FieldText): Bytes {
    f.name + [COLON] + f.value
  }

  function FieldLines(fields: seq<FieldText>): seq<Bytes> {
    seq(|fields|, i requires 0 <= i < |fields| => FieldLine(fields[i]))
  }

  function RequestLine(method_: Bytes, url: Bytes, version: Bytes): Bytes {
    method_ + [SPACE] + (url + [SPACE] + version)
  }

  function HeaderLines(method_: Bytes, url: Bytes, version: Bytes, fields: seq<FieldText>): seq<Bytes> {
    [RequestLine(method_, url, version)] + FieldLines(fields)
  }

  /** The bytes of a request up to and including its blank line. */
  function PrintHead(method_: Bytes, url: Bytes, version: Bytes, fields: seq<FieldText>): Bytes {
    Join(HeaderLines(method_, url, version, fields), CRLF) + HEADER_END
  }

  /** What the fields mean: names lowered and stripped, the last occurrence wins. */
  function FieldMap(fields: seq<FieldText>, headers: map<Bytes, Bytes>): map<Bytes, Bytes> {
    if fields == [] then headers
    else FieldMap(fields[1..], headers[FieldName(fields[0].name) := Strip(Latin1, fields[0].value)])
  }

  lemma {:induction false} HeaderFieldsOfLines(fields: seq<FieldText>, headers: map<Bytes, Bytes>)
    requires forall i :: 0 <= i < |fields| ==> FieldPrintable(fields[i])
    ensures HeaderFields(FieldLines(fields), headers) == Ok(FieldMap(fields, headers))
  {
    if fields != [] {
      var f := fields[0];
      CutOfJoined(f.name, COLON, f.value);
      assert FieldLines(fields)[1..] == FieldLines(fields[1..]);
      HeaderFieldsOfLines(fields[1..], headers[FieldName(f.name) := Strip(Latin1, f.value)]);
    }
  }

  lemma StartLineOfPrinted(method_: Bytes, url: Bytes, version: Bytes)
    requires Lacks(method_, SPACE) && Lacks(url, SPACE)
    ensures StartLine(RequestLine(method_, url, version)) == Some((method_, url, version))
  {
    CutOfJoined(method_, SPACE, url + [SPACE] + version);
    CutOfJoined(url, SPACE, version);
  }

  lemma HeaderLinesClean(method_: Bytes, url: Bytes, version: Bytes, fields: seq<FieldText>)
    requires Printable(method_, url, version, fields)
    ensures var lines := HeaderLines(method_, url, version, fields);
      forall i :: 0 <= i < |lines| ==> LineText(lines[i])
  {
    var lines := HeaderLines(method_, url, version, fields);
    forall i | 0 <= i < |lines|
      ensures LineText(lines[i])
    {
      if i > 0 {
        assert lines[i] == FieldLine(fields[i - 1]) && FieldPrintable(fields[i - 1]);
      }
    }
  }

  /** Whatever follows a printed head, the parser finds its end and its fields. */
  lemma {:induction false} HeadOfPrinted(method_: Bytes, url: Bytes, version: Bytes, fields: seq<FieldText>,
                                         rest: Bytes)
    requires Printable(method_, url, version, fields)
    ensures var text := Join(HeaderLines(method_, url, version, fields), CRLF);
      var data := PrintHead(method_, url, version, fields) + rest;
      var headers := FieldMap(fields, map[]);
      && Find(data, HEADER_END) == Some(|text|)
      && data[..|text|] == text && data[|text| + |HEADER_END|..] == rest
      && ParseHead(text) ==
           if CONTENT_LENGTH !in headers then Ok(RequestHead(method_, url, version, headers, None))
           else match ParseInt(Latin1, headers[CONTENT_LENGTH])
             case None => Err(InvalidContentLength(headers[CONTENT_LENGTH]))
             case Some(n) => Ok(RequestHead(method_, url, version, headers, Some(n)))
  {
    var lines := HeaderLines(method_, url, version, fields);
    HeaderLinesClean(method_, url, version, fields);
    FindHeaderEnd(lines, rest);
    ConcatAssoc(Join(lines, CRLF), HEADER_END, rest);
    SplitJoin(lines, CRLF);
    StartLineOfPrinted(method_, url, version);
    assert lines[1..] == FieldLines(fields);
    HeaderFieldsOfLines(fields, map[]);
  }

  /** Round trip: a printed request, followed by its body and then by anything at
      all, parses to exactly that request and consumes exactly its bytes. */
  lemma {:induction false} RequestRoundTrip(method_: Bytes, url: Bytes, version: Bytes, fields: seq<FieldText>,
                                            body: Bytes, more: Bytes)
    requires Printable(method_, url, version, fields)
    requires var headers := FieldMap(fields, map[]);
      if CONTENT_LENGTH in headers then ParseInt(Latin1, headers[CONTENT_LENGTH]) == Some(|body|) else body == []
    ensures var head := PrintHead(method_, url, version, fields);
      Parse(head + (body + more))
        == Parsed(HTTPMessage(method_, url, version, FieldMap(fields, map[]), body), |head| + |body|)
  {
    HeadOfPrinted(method_, url, version, fields, body + more);
    assert TakePy(body + more, |body|) == body;
  }

  /** Lower-case letters and hyphens: a field name in its canonical form. */
  predicate CanonicalName(name: Bytes) {
    name != [] && forall i :: 0 <= i < |name| ==> 97 <= name[i] <= 122 || name[i] == 45
  }

  lemma CanonicalNameStays(name: Bytes)
    requires CanonicalName(name)
    ensures FieldName(name) == name
  {
    assert Strip(Latin1, name) == name;
    assert Lower(Latin1, name) == name;
  }

  /** A printed request that declares a negative length takes a body that depends on what follows. */
  lemma {:induction false} NegativePrinted(method_: Bytes, url: Bytes, version: Bytes, fields: seq<FieldText>, n: int,
                                           more: Bytes)
    requires Printable(method_, url, version, fields) && n < 0
    requires CONTENT_LENGTH in FieldMap(fields, map[])
    requires ParseInt(Latin1, FieldMap(fields, map[])[CONTENT_LENGTH]) == Some(n)
    ensures var head := PrintHead(method_, url, version, fields);
      && DeclaredLength(head + more) == Some(n)
      && Parse(head + more)
        == Parsed(HTTPMessage(method_, url, version, FieldMap(fields, map[]), TakePy(more, n)), |head| + n)
  {
    HeadOfPrinted(method_, url, version, fields, more);
  }

  /** The field content-length with the value minus n. */
  function NegativeField(n: nat): FieldText {
    FieldText(CONTENT_LENGTH, [45] + Decimal(n))
  }

  lemma {:induction false} StripMinusDecimal(chars: Charset, n: nat)
    ensures Strip(chars, [45] + Decimal(n)) == [45] + Decimal(n)
  {
    var text := [45] + Decimal(n);
    assert text[|text| - 1] == Decimal(n)[|Decimal(n)| - 1];
  }

  lemma {:induction false} NegativeFieldParses(n: nat)
    ensures FieldPrintable(NegativeField(n))
    ensures FieldMap([NegativeField(n)], map[]) == map[CONTENT_LENGTH := [45] + Decimal(n)]
    ensures ParseInt(Latin1, [45] + Decimal(n)) == Some(-(n as int))
  {
    CanonicalNameStays(CONTENT_LENGTH);
    StripMinusDecimal(Latin1, n);
    ParseMinusDecimal(Latin1, n);
    assert [NegativeField(n)][1..] == [];
  }

  /** A GET request, for any target, that declares the length minus n. */
  function NegativeRequest(url: Bytes, n: nat): Bytes {
    PrintHead([71, 69, 84], url, HTTP_SLASH, [NegativeField(n)])
  }

  lemma {:induction false} NegativeRequestParses(url: Bytes, n: nat, more: Bytes)
    requires Lacks(url, SPACE) && Lacks(url, CR) && n > 0
    ensures var data := NegativeRequest(url, n);
      && DeclaredLength(data + more) == Some(-(n as int))
      && Parse(data + more).Parsed?
      && Parse(data + more).message.body == TakePy(more, -(n as int))
      && Parse(data + more).consumed == |data| - n
  {
    NegativeFieldParses(n);
    NegativePrinted([71, 69, 84], url, HTTP_SLASH, [NegativeField(n)], -(n as int), more);
  }

  /** The concrete failure of stability: with Content-Length -1 two more bytes change the message. */
  lemma {:induction false} NegativeLengthUnstable(url: Bytes)
    requires Lacks(url, SPACE) && Lacks(url, CR)
    ensures var data := NegativeRequest(url, 1);
      && Parse(data).Parsed? && Parse(data + [65, 65]).Parsed?
      && Parse(data + [65, 65]).message.body != Parse(data).message.body
  {
    var data := NegativeRequest(url, 1);
    NegativeRequestParses(url, 1, []);
    NegativeRequestParses(url, 1, [65, 65]);
    assert data + [] == data;
    assert TakePy([], -1) == [] && |TakePy([65, 65], -1)| == 1;
  }

  // ---- responses ----

  function Latin(text: string): Bytes {
    seq(|text|, i requires 0 <= i < |text| => (text[i] as int) % 256)
  }

  function ReasonPhrase(status: nat): string {
    match status
    case 200 => "OK"
    case 400 => "Bad Request"
    case 403 => "Forbidden"
    case 404 => "Not Found"
    case 405 => "Method Not Allowed"
    case 500 => "Internal Server Error"
    case _ => "Unknown"
  }

  function LengthLine(length: nat): Bytes {
    Latin("Content-Length:") + [SPACE] + Decimal(length)
  }

  function ResponseLines(status: nat, contentType: Bytes, close: bool, length: nat): seq<Bytes> {
    [Latin("HTTP/1.1 ") + Decimal(status) + [SPACE] + Latin(ReasonPhrase(status)),
     LengthLine(length),
     Latin("Content-Type: ") + contentType,
     Latin("Connection: ") + Latin(if close then "close" else "keep-alive")]
  }

  /** http_response; the declared length is the body's unless one is given. */
  function HttpResponse(status: nat, body: Bytes, contentType: Bytes, close: bool, contentLength: Option<nat>): Bytes {
    var declared := match contentLength case None => |body| case Some(n) => n;
    Join(ResponseLines(status, contentType, close, declared), CRLF) + HEADER_END + body
  }
}
