/** The per-connection event machine (tls_web_server/server.py). `Conn` is the value
    of a ConnectionContext with its socket and selector registration; the functions on
    it are what the methods of WebServer at the end of the module are proved against. */
module Server {
  import opened Wire
  import opened Framing
  import opened Crypto
  import opened Connection
  import opened Http
  import opened Pipeline

  /** What a server is given: the site, the TLS environment, and the nonces that
      os.urandom will return, by sequence number. */
  datatype Setting = Setting(site: Site, tls: ServerEnv, nonce: nat -> Nonce)

  /** Who closed the connection. */
  datatype CloseReason = PeerFinished | SocketError | TlsError | ResponsesSent | SendRefused

  datatype Link = Open | Closed(reason: CloseReason)

  /** The event loop goes on; or an exception nobody catches ended it; or the request
      loop never returns. */
  datatype Loop = Running | Crashed(error: Error) | Spins

  datatype TlsEnd = TlsEnd(core: ServerCore, buffer: Bytes)

  datatype Conn = Conn(
    link: Link,
    loop: Loop,
    writeInterest: bool,
    tls: Option<TlsEnd>,
    httpInput: Bytes,
    output: Bytes,
    closing: bool,
    // history: bytes received, plaintext appended, responses queued, bytes queued, bytes sent
    wireIn: Bytes,
    appended: Bytes,
    replies: seq<Bytes>,
    queued: Bytes,
    sent: Bytes)

  /** _accept_connection: registered for reading, with TLS state on a TLS listener. */
  function Accepted(ssl: bool): Conn {
    Conn(Open, Running, false, if ssl then Some(TlsEnd(FRESH_SERVER, [])) else None, [], [], false, [], [], [], [], [])
  }

  // ---- the methods, as functions ----

  /** _close_connection. */
  function Close(c: Conn, reason: CloseReason): Conn {
    if c.link.Open? then c.(link := Closed(reason), writeInterest := false) else c
  }

  /** _queue_output. */
  function Queue(c: Conn, data: Bytes): Conn {
    if data == [] || !c.link.Open? then c
    else c.(output := c.output + data, queued := c.queued + data, writeInterest := true)
  }

  /** _send_application_bytes: only a ToyTLSProtocolError is caught. */
  function SendApplication(env: Setting, c: Conn, text: Bytes): Conn {
    match c.tls
    case None => Queue(c.(replies := c.replies + [text]), text)
    case Some(end) =>
      var (core, wire) := ServerProtect(env.tls, end.core, text, env.nonce(end.core.sendSeq));
      var d := c.(tls := Some(TlsEnd(core, end.buffer)));
      match wire
      case Ok(bytes) => Queue(d.(replies := c.replies + [text]), bytes)
      case Err(error) => if error == ProtocolError then Close(d, SendRefused) else d.(loop := Crashed(error))
  }

  /** _handle_http_messages. */
  function HandleHttp(env: Setting, c: Conn): Conn
    decreases |c.httpInput|
  {
    if !c.link.Open? then c
    else
      match Parse(c.httpInput)
      case Nothing => c
      case Incomplete => c
      case Invalid(reason) => ThenClosing(SendApplication(env, c, env.site.reject(reason)))
      case Parsed(message, consumed) =>
        var d := AnswerRequest(env, c, message, consumed);
        if d.loop != Running || env.site.respond(message).close then d
        else if d.link.Open? && |d.httpInput| == |c.httpInput| then d.(loop := Spins)
        else if |d.httpInput| < |c.httpInput| then HandleHttp(env, d)
        else d
  }

  /** One turn of the request loop: reduce the buffer, respond, mark the connection if the response closes it. */
  function AnswerRequest(env: Setting, c: Conn, message: HTTPMessage, consumed: int): Conn {
    var reply := env.site.respond(message);
    var d := SendApplication(env, c.(httpInput := DropPy(c.httpInput, consumed)), reply.bytes);
    if reply.close then ThenClosing(d) else d
  }

  function ThenClosing(c: Conn): Conn {
    if c.loop == Running then c.(closing := true) else c
  }

  /** What recv gives: bytes (none at the end of the stream), would-block, or an error. */
  datatype Recv = Data(bytes: Bytes) | RecvWouldBlock | RecvError

  /** The exceptions that _read_from_connection catches around feed_wire_data. */
  predicate Caught(e: Error) {
    e == ProtocolError || e == ValueError || e == InvalidTag
  }

  /** _read_from_connection. */
  function Read(env: Setting, c: Conn, r: Recv): Conn {
    match r
    case RecvWouldBlock => c
    case RecvError => Close(c, SocketError)
    case Data(bytes) =>
      if bytes == [] then (if c.output != [] then c.(closing := true) else Close(c, PeerFinished))
      else
        match c.tls
        case None => Append(env, c.(wireIn := c.wireIn + bytes), bytes)
        case Some(end) => Decrypted(env, c.(wireIn := c.wireIn + bytes),
                                    Feed(ServerHandler(env.tls), end.core, end.buffer, bytes))
  }

  /** http_input.append and the request loop. */
  function Append(env: Setting, c: Conn, text: Bytes): Conn {
    HandleHttp(env, c.(httpInput := c.httpInput + text, appended := c.appended + text))
  }

  /** The TLS branch after feed_wire_data: close on an error, which drops what the same
      chunk had decrypted; otherwise queue what is pending, then hand the plaintext up. */
  function Decrypted(env: Setting, c: Conn, fed: Fed<ServerCore>): Conn {
    var d := c.(tls := Some(TlsEnd(fed.core, fed.buffer)));
    match fed.error
    case Some(e) => if Caught(e) then Close(d, TlsError) else d.(loop := Crashed(e))
    case None =>
      var e := Emptied(c, fed);
      if fed.core.plaintext == [] then e else Append(env, e, fed.core.plaintext)
  }

  /** pop_pending_wire_data() queued, and read_plaintext() taken out of the TLS object. */
  function Emptied(c: Conn, fed: Fed<ServerCore>): Conn {
    Queue(c.(tls := Some(TlsEnd(fed.core.(pendingWire := [], plaintext := []), fed.buffer))), fed.core.pendingWire)
  }

  /** What send gives: how many bytes went out, would-block, or an error. */
  datatype SendResult = Took(n: nat) | SendWouldBlock | SendError

  /** The end of _flush_output when nothing is left to send. */
  function Drained(c: Conn): Conn {
    if c.closing then Close(c, ResponsesSent) else c.(writeInterest := false)
  }

  /** _flush_output. */
  function Flush(c: Conn, r: SendResult): Conn {
    if c.output == [] then Drained(c)
    else
      match r
      case SendWouldBlock => c
      case SendError => Close(c, SocketError)
      case Took(n) =>
        var k := if n <= |c.output| then n else |c.output|;
        var d := c.(output := c.output[k..], sent := c.sent + c.output[..k]);
        if d.output == [] then Drained(d) else d
  }

  /** One selector event: what the socket would give for each bit of the mask. */
  datatype Event = Event(read: Option<Recv>, write: Option<SendResult>)

  /** The selector reports only what is registered for. */
  predicate Reported(c: Conn, e: Event) {
    c.link.Open? && c.loop == Running && (e.write.Some? ==> c.writeInterest)
  }

  /** _service_connection. */
  function Service(env: Setting, c: Conn, e: Event): Conn {
    if !Reported(c, e) then c
    else
      var d := if e.read.Some? then Read(env, c, e.read.value) else c;
      if d.loop == Running && d.link.Open? && e.write.Some? then Flush(d, e.write.value) else d
  }

  function Run(env: Setting, c: Conn, events: seq<Event>): Conn
    decreases |events|
  {
    if events == [] then c else Run(env, Service(env, c, events[0]), events[1..])
  }

  // ---- the classes ----

  /** A ConnectionContext. The socket and its selector registration appear as `link`
      and `writeInterest`; `loop` and the five histories are only for the proof. */
  class ConnectionContext {
    var link: Link
    var writeInterest: bool
    const tls: ToyTLSServerConnection?
    const httpInput: DataProvider
    var output: Bytes
    var closing: bool
    ghost var loop: Loop
    ghost var wireIn: Bytes
    ghost var appended: Bytes
    ghost var replies: seq<Bytes>
    ghost var queued: Bytes
    ghost var sent: Bytes

    ghost function Objects(): set<object> {
      {this, httpInput} + (if tls == null then {} else {tls as object, tls.records})
    }

    ghost function TlsView(): Option<TlsEnd>
      reads Objects()
    {
      if tls == null then None else Some(TlsEnd(tls.View(), tls.records.buffer))
    }

    ghost function View(): Conn
      reads Objects()
    {
      Conn(link, loop, writeInterest, TlsView(), httpInput.data, output, closing, wireIn, appended, replies, queued,
           sent)
    }

    constructor (tls: ToyTLSServerConnection?)
      requires tls != null ==> tls.View() == FRESH_SERVER && tls.records.buffer == []
      ensures this.tls == tls && fresh(httpInput)
      ensures View() == Accepted(tls != null)
    {
      this.tls := tls;
      httpInput := new DataProvider();
      link, writeInterest, loop := Open, false, Running;
      output, closing := [], false;
      wireIn, appended, replies, queued, sent := [], [], [], [], [];
    }
  }

  class WebServer {
    const env: Setting

    constructor (env: Setting)
      ensures this.env == env
    {
      this.env := env;
    }

    method CloseConnection(c: ConnectionContext, reason: CloseReason)
      modifies c
      ensures c.View() == Close(old(c.View()), reason)
    {
      if c.link.Open? {
        c.writeInterest := false;
        c.link := Closed(reason);
      }
    }

    method QueueOutput(c: ConnectionContext, data: Bytes)
      modifies c
      ensures c.View() == Queue(old(c.View()), data)
    {
      if data == [] || !c.link.Open? {
        return;
      }
      c.output := c.output + data;
      c.queued := c.queued + data;
      c.writeInterest := true;
    }

    /** `end` says how the event loop stands: Running, or the exception that escaped. */
    method SendApplicationBytes(c: ConnectionContext, text: Bytes) returns (end: Loop)
      requires c.tls != null ==> c.tls.env == env.tls
      modifies c.Objects()
      ensures c.View() == SendApplication(env, old(c.View()), text)
      ensures old(c.loop) == Running ==> c.loop == end
    {
      var wire := text;
      if c.tls != null {
        var protected_ := c.tls.ProtectApplicationData(text, env.nonce(c.tls.sendSeq));
        if protected_ == Err(ProtocolError) {
          CloseConnection(c, SendRefused);
          return Running;
        }
        if protected_.Err? {
          c.loop := Crashed(protected_.error);
          return Crashed(protected_.error);
        }
        wire := protected_.value;
      }
      c.replies := c.replies + [text];
      QueueOutput(c, wire);
      return Running;
    }

    /** The request loop, on any buffer. Where the loop of the source repeats one turn
        for ever, this one stops after that turn and says so. */
    method HandleHttpMessages(c: ConnectionContext) returns (end: Loop)
      requires c.tls != null ==> c.tls.env == env.tls
      requires c.loop == Running
      modifies c.Objects()
      ensures c.View() == HandleHttp(env, old(c.View()))
      ensures c.loop == end
    {
      while c.link.Open?
        invariant c.loop == Running
        invariant HandleHttp(env, c.View()) == HandleHttp(env, old(c.View()))
        decreases |c.httpInput.data|, if c.link.Open? then 1 else 0
      {
        ghost var before := c.View();
        var size := |c.httpInput.data|;
        var parsed := HTTPParser.ParseMessage(c.httpInput.data);
        match parsed {
          case Nothing =>
            return Running;
          case Incomplete =>
            return Running;
          case Invalid(reason) =>
            end := SendApplicationBytes(c, env.site.reject(reason));
            if end == Running {
              c.closing := true;
            }
            return;
          case Parsed(message, consumed) =>
            AnswerShrinks(env, before, message, consumed);
            var close;
            end, close := RespondTo(c, message, consumed);
            if end != Running || close {
              return;
            }
            if c.link.Open? && |c.httpInput.data| == size {
              c.loop := Spins;
              return Spins;
            }
            ClosedEnds(env, c.View());
        }
      }
      return Running;
    }

    method RespondTo(c: ConnectionContext, message: HTTPMessage, consumed: int) returns (end: Loop, close: bool)
      requires c.tls != null ==> c.tls.env == env.tls
      requires c.loop == Running
      modifies c.Objects()
      ensures c.View() == AnswerRequest(env, old(c.View()), message, consumed)
      ensures c.loop == end
      ensures close == env.site.respond(message).close
    {
      c.httpInput.ReduceData(consumed);
      var reply := env.site.respond(message);
      close := reply.close;
      end := SendApplicationBytes(c, reply.bytes);
      if end == Running && close {
        c.closing := true;
      }
    }

    method AppendInput(c: ConnectionContext, text: Bytes) returns (end: Loop)
      requires c.tls != null ==> c.tls.env == env.tls
      requires c.loop == Running
      modifies c.Objects()
      ensures c.View() == Append(env, old(c.View()), text)
      ensures c.loop == end
    {
      c.httpInput.Append(text);
      c.appended := c.appended + text;
      end := HandleHttpMessages(c);
    }

    method ReadFromConnection(c: ConnectionContext, r: Recv) returns (end: Loop)
      requires c.tls != null ==> c.tls.env == env.tls
      requires c.loop == Running
      modifies c.Objects()
      ensures c.View() == Read(env, old(c.View()), r)
      ensures c.loop == end
    {
      if r.RecvWouldBlock? {
        return Running;
      }
      if r.RecvError? {
        CloseConnection(c, SocketError);
        return Running;
      }
      var data := r.bytes;
      if data == [] {
        if c.output != [] {
          c.closing := true;
        } else {
          CloseConnection(c, PeerFinished);
        }
        return Running;
      }
      c.wireIn := c.wireIn + data;
      if c.tls != null {
        end := ReadFromTls(c, data);
      } else {
        end := AppendInput(c, data);
      }
    }

    method ReadFromTls(c: ConnectionContext, data: Bytes) returns (end: Loop)
      requires c.tls != null && c.tls.env == env.tls
      requires c.loop == Running
      modifies c.Objects()
      ensures c.View() == Decrypted(env, old(c.View()),
                                    Feed(ServerHandler(env.tls), old(c.tls.View()), old(c.tls.records.buffer), data))
      ensures c.loop == end
    {
      var error := c.tls.FeedWireData(data);
      if error.Some? {
        if Caught(error.value) {
          CloseConnection(c, TlsError);
          return Running;
        }
        c.loop := Crashed(error.value);
        return Crashed(error.value);
      }
      var pending := c.tls.PopPendingWireData();
      QueueOutput(c, pending);
      var plaintext := c.tls.ReadPlaintext();
      if plaintext == [] {
        return Running;
      }
      end := AppendInput(c, plaintext);
    }

    method ModifyReadOnly(c: ConnectionContext)
      modifies c
      ensures c.View() == (if old(c.link.Open?) then old(c.View()).(writeInterest := false) else old(c.View()))
    {
      if c.link.Open? {
        c.writeInterest := false;
      }
    }

    method FlushOutput(c: ConnectionContext, r: SendResult)
      requires c.link.Open?
      modifies c
      ensures c.View() == Flush(old(c.View()), r)
    {
      if c.output == [] {
        if c.closing {
          CloseConnection(c, ResponsesSent);
        } else {
          ModifyReadOnly(c);
        }
        return;
      }
      if r.SendWouldBlock? {
        return;
      }
      if r.SendError? {
        CloseConnection(c, SocketError);
        return;
      }
      var k := if r.n <= |c.output| then r.n else |c.output|;
      c.sent := c.sent + c.output[..k];
      c.output := c.output[k..];
      if c.output == [] {
        if c.closing {
          CloseConnection(c, ResponsesSent);
        } else {
          ModifyReadOnly(c);
        }
      }
    }

    method ServiceConnection(c: ConnectionContext, e: Event) returns (end: Loop)
      requires c.tls != null ==> c.tls.env == env.tls
      requires Reported(c.View(), e)
      modifies c.Objects()
      ensures c.View() == Service(env, old(c.View()), e)
      ensures c.loop == end
    {
      end := Running;
      if e.read.Some? {
        end := ReadFromConnection(c, e.read.value);
        if end != Running {
          return;
        }
      }
      if c.link.Open? && e.write.Some? {
        FlushOutput(c, e.write.value);
      }
    }
  }

  /** A turn of the loop never adds input, and takes none away only when it drops none. */
  lemma AnswerShrinks(env: Setting, c: Conn, message: HTTPMessage, consumed: int)
    ensures AnswerRequest(env, c, message, consumed).httpInput == DropPy(c.httpInput, consumed)
    ensures |DropPy(c.httpInput, consumed)| <= |c.httpInput|
    ensures c.loop == Running ==> AnswerRequest(env, c, message, consumed).loop != Spins
  {
  }

  /** The loop does not run on a closed connection. */
  lemma {:induction false} ClosedEnds(env: Setting, c: Conn)
    ensures c.link.Closed? ==> HandleHttp(env, c) == c
  {
  }
}
