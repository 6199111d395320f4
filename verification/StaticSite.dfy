/** build_http_response and the rejection of a bad request (tls_web_server/http.py,
    tls_web_server/server.py), over any way to find files. */
module StaticSite {
  import opened Wire
  import opened Text
  import opened Http
  import opened Pipeline

  /** What a request target leads to: a path outside its root, no file, or a file. */
  datatype Found = Outside | Missing | File(body: Bytes, html: bool)

  /** urlsplit, match_location, _safe_file_path and the file system, with the files fixed. */
  type Files = Bytes -> Found

  /** request.method.upper() == word, for a word of ASCII letters given in lower case. */
  predicate IsMethod(m: HTTPMessage, word: string) {
    Lower(Ascii, m.method_) == Latin(word)
  }

  /** request.headers.get("connection", "").lower() == "keep-alive". */
  predicate AsksToStay(m: HTTPMessage) {
    CONNECTION in m.headers && Lower(Latin1, m.headers[CONNECTION]) == KEEP_ALIVE
  }

  function Plain(status: nat, text: string): Reply {
    Reply(HttpResponse(status, Latin(text), Latin("text/plain"), true, None), true)
  }

  /** build_http_response. A response to HEAD declares the length of the body it leaves out. */
  function Respond(files: Files, m: HTTPMessage): Reply {
    if !IsMethod(m, "get") && !IsMethod(m, "head") then Plain(405, "405 Method Not Allowed")
    else
      match files(m.url)
      case Outside => Plain(403, "403 Forbidden")
      case Missing => Plain(404, "404 Not Found")
      case File(body, html) =>
        var kind := Latin(if html then "text/html" else "text/plain");
        var close := !AsksToStay(m);
        if IsMethod(m, "head") then Reply(HttpResponse(200, [], kind, close, Some(|body|)), close)
        else Reply(HttpResponse(200, body, kind, close, None), close)
  }

  /** The site of a server: `explain` is str(exc).encode("utf-8"). */
  function SiteOf(files: Files, explain: InvalidReason -> Bytes): Site {
    Site(m => Respond(files, m),
         reason => HttpResponse(400, explain(reason), Latin("text/plain"), true, None))
  }

  /** A response is at least its blank line. */
  lemma ResponseNotEmpty(status: nat, body: Bytes, kind: Bytes, close: bool, length: Option<nat>)
    ensures HttpResponse(status, body, kind, close, length) != []
  {
    var declared := match length case None => |body| case Some(n) => n;
    assert |Join(ResponseLines(status, kind, close, declared), CRLF) + HEADER_END + body| >= |HEADER_END|;
  }

  lemma RespondNotEmpty(files: Files, m: HTTPMessage)
    ensures Respond(files, m).bytes != []
  {
    ResponseNotEmpty(405, Latin("405 Method Not Allowed"), Latin("text/plain"), true, None);
    ResponseNotEmpty(403, Latin("403 Forbidden"), Latin("text/plain"), true, None);
    ResponseNotEmpty(404, Latin("404 Not Found"), Latin("text/plain"), true, None);
    if files(m.url).File? {
      var body, kind := files(m.url).body, Latin(if files(m.url).html then "text/html" else "text/plain");
      ResponseNotEmpty(200, [], kind, !AsksToStay(m), Some(|body|));
      ResponseNotEmpty(200, body, kind, !AsksToStay(m), None);
    }
  }

  /** Every site of this kind speaks. */
  lemma {:induction false} SiteSpeaks(files: Files, explain: InvalidReason -> Bytes)
    ensures Speaks(SiteOf(files, explain))
  {
    var site := SiteOf(files, explain);
    forall m
      ensures site.respond(m).bytes != []
    {
      RespondNotEmpty(files, m);
    }
    forall reason
      ensures site.reject(reason) != []
    {
      ResponseNotEmpty(400, explain(reason), Latin("text/plain"), true, None);
    }
  }

  /** The connection stays open exactly after a GET or HEAD that asks for it and finds its file. */
  lemma {:induction false} StaysOpenIff(files: Files, explain: InvalidReason -> Bytes, m: HTTPMessage)
    ensures !SiteOf(files, explain).respond(m).close <==>
      AsksToStay(m) && (IsMethod(m, "get") || IsMethod(m, "head")) && files(m.url).File?
  {
  }

  /** So the request loop is stuck only on a request that asks to keep the connection alive. */
  lemma {:induction false} StuckAsksToStay(files: Files, explain: InvalidReason -> Bytes, data: Bytes)
    requires Stuck(SiteOf(files, explain), data)
    ensures AsksToStay(Parse(data).message) && files(Parse(data).message.url).File?
  {
    StaysOpenIff(files, explain, Parse(data).message);
  }

  lemma KeptMessageStays(url: Bytes, n: nat)
    ensures AsksToStay(KeptMessage(url, n)) && IsMethod(KeptMessage(url, n), "get")
  {
    assert Lower(Latin1, KEEP_ALIVE) == KEEP_ALIVE;
    assert Lower(Ascii, GET) == Latin("get");
  }

  /** And for every file there is one: the loop of the server does not return on it. */
  lemma {:induction false} StuckRequest(files: Files, explain: InvalidReason -> Bytes, url: Bytes) returns (n: nat)
    requires Lacks(url, SPACE) && Lacks(url, CR) && files(url).File?
    ensures n > 0 && Stuck(SiteOf(files, explain), KeptRequest(url, n))
    ensures Serve(SiteOf(files, explain), KeptRequest(url, n)).ending == Spinning
  {
    n := StuckLength(url);
    KeptMessageStays(url, n);
    StaysOpenIff(files, explain, KeptMessage(url, n));
    KeptRequestSpins(SiteOf(files, explain), url, n);
  }
}
