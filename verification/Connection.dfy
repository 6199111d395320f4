/** The buffer-oriented TLS endpoints (tls_web_server/tls/connection.py).
    Each endpoint is a class with the fields of the source; each of its methods
    is proved equal to a function on the value that `View` reads off those fields. */
module Connection {
  import opened Wire
  import opened Framing
  import opened Messages
  import opened Crypto
  import opened RecordProtection

  datatype Identity = Identity(privateKey: Bytes, certificate: Bytes, intermediates: seq<Bytes>)

  /** One draw of fresh randomness for a handshake: an X25519 private key and a PSS salt. */
  datatype Ephemeral = Ephemeral(privateKey: Bytes, salt: Bytes)

  /** What a server connection is given: the library, the long-term identity, and
      the ephemerals that the generator will hand out, in order. */
  datatype ServerEnv = ServerEnv(suite: Suite, identity: Identity, ephemeral: nat -> Ephemeral)

  datatype ClientEnv = ClientEnv(suite: Suite, root: Bytes, dnsName: Bytes, privateKey: Bytes)

  // ---- handshake messages ----

  function HelloMessage(public: Bytes): Bytes {
    Encode([Field(TAG_X25519_PUBLIC, public)])
  }

  function CertificateFields(certificates: seq<Bytes>): seq<Field> {
    if certificates == [] then []
    else [Field(TAG_CERTIFICATE, certificates[0])] + CertificateFields(certificates[1..])
  }

  function AuthFields(identity: Identity, signature: Bytes): seq<Field> {
    CertificateFields([identity.certificate] + identity.intermediates)
      + [Field(TAG_CERTIFICATE_VERIFY, signature)]
  }

  /** frame_payload(encode_message(fields)); None is a struct.error in either. */
  function FramedMessage(fields: seq<Field>): Option<Bytes> {
    if AllEncodable(fields) then FramePayload(Encode(fields)) else None
  }

  // ---- the server ----

  datatype ServerPhase = WaitClientHello | ServerEstablished

  /** A CertificateVerify that a server connection has made: the client share it
      answered and the ephemeral it drew. */
  datatype Signing = Signing(clientPublic: Key32, ephemeral: Ephemeral)

  /** The fields of ToyTLSServerConnection apart from the record buffer, with the
      history of the signatures made. */
  datatype ServerCore = ServerCore(
    phase: ServerPhase,
    pendingWire: Bytes,
    plaintext: Bytes,
    sendSeq: nat,
    recvSeq: nat,
    clientWriteKey: Option<Bytes>,
    serverWriteKey: Option<Bytes>,
    draws: nat,
    signings: seq<Signing>)

  const FRESH_SERVER := ServerCore(WaitClientHello, [], [], 0, 0, None, None, 0, [])

  function SignedMessage(clientPublic: Bytes, serverPublic: Bytes): Bytes {
    clientPublic + serverPublic
  }

  /** The part of _handle_client_hello after the client share has been accepted.
      Both flights are queued before the exchange may fail. */
  function AnswerHello(env: ServerEnv, s: ServerCore, clientPublic: Key32): Step<ServerCore> {
    var eph := env.ephemeral(s.draws);
    var serverPublic := env.suite.publicKey(eph.privateKey);
    var drawn := s.(draws := s.draws + 1);
    match FramedMessage([Field(TAG_X25519_PUBLIC, serverPublic)])
    case None => Step(drawn, Some(StructError))
    case Some(hello) =>
      var greeted := drawn.(pendingWire := s.pendingWire + hello);
      var signature := env.suite.sign(env.identity.privateKey, SignedMessage(clientPublic, serverPublic), eph.salt);
      var signed := greeted.(signings := s.signings + [Signing(clientPublic, eph)]);
      match FramedMessage(AuthFields(env.identity, signature))
      case None => Step(signed, Some(StructError))
      case Some(auth) =>
        InstallKeys(env, signed.(pendingWire := greeted.pendingWire + auth), eph, clientPublic)
  }

  /** The end of _handle_client_hello: the exchange, the two keys, ESTABLISHED. */
  function InstallKeys(env: ServerEnv, s: ServerCore, eph: Ephemeral, clientPublic: Key32): Step<ServerCore> {
    match env.suite.exchange(eph.privateKey, clientPublic)
    case None => Step(s, Some(ValueError))
    case Some(secret) =>
      var keys := DeriveSessionKeys(env.suite, secret);
      Step(s.(clientWriteKey := Some(keys.clientWrite),
              serverWriteKey := Some(keys.serverWrite),
              phase := ServerEstablished), None)
  }

  /** _handle_client_hello. */
  function HandleClientHello(env: ServerEnv, s: ServerCore, record: Bytes): Step<ServerCore> {
    match Decode(record)
    case None => Step(s, Some(ValueError))
    case Some(fields) =>
      match First(fields, TAG_X25519_PUBLIC)
      case None => Step(s, Some(ValueError))
      case Some(share) => if |share| != 32 then Step(s, Some(ValueError)) else AnswerHello(env, s, share)
  }

  /** _handle_application_record of the server. */
  function HandleClientRecord(env: ServerEnv, s: ServerCore, record: Bytes): Step<ServerCore> {
    match s.clientWriteKey
    case None => Step(s, Some(ProtocolError))
    case Some(key) =>
      match UnprotectRecord(env.suite, key, s.recvSeq, record)
      case Err(e) => Step(s, Some(e))
      case Ok(text) => Step(s.(recvSeq := s.recvSeq + 1, plaintext := s.plaintext + text), None)
  }

  function ServerHandler(env: ServerEnv): Handler<ServerCore> {
    (s: ServerCore, record: Bytes) =>
      match s.phase
      case WaitClientHello => HandleClientHello(env, s, record)
      case ServerEstablished => HandleClientRecord(env, s, record)
  }

  /** protect_application_data of the server. The counter moves before framing may fail. */
  function ServerProtect(env: ServerEnv, s: ServerCore, plaintext: Bytes, nonce: Nonce)
    : (ServerCore, Result<Bytes, Error>)
  {
    if s.phase != ServerEstablished || s.serverWriteKey.None? then (s, Err(ProtocolError))
    else
      match ProtectRecord(env.suite, s.serverWriteKey.value, s.sendSeq, nonce, plaintext)
      case Err(e) => (s, Err(e))
      case Ok(payload) =>
        var counted := s.(sendSeq := s.sendSeq + 1);
        match FramePayload(payload)
        case None => (counted, Err(StructError))
        case Some(wire) => (counted, Ok(wire))
  }

  class ToyTLSServerConnection {
    const env: ServerEnv
    const records: RecordBuffer
    var phase: ServerPhase
    var pendingWire: Bytes
    var plaintext: Bytes
    var sendSeq: nat
    var recvSeq: nat
    var clientWriteKey: Option<Bytes>
    var serverWriteKey: Option<Bytes>
    var draws: nat
    ghost var signings: seq<Signing>

    ghost function View(): ServerCore
      reads this
    {
      ServerCore(phase, pendingWire, plaintext, sendSeq, recvSeq, clientWriteKey, serverWriteKey, draws, signings)
    }

    constructor (env: ServerEnv)
      ensures this.env == env && fresh(records)
      ensures View() == FRESH_SERVER && records.buffer == []
    {
      this.env := env;
      records := new RecordBuffer();
      phase := WaitClientHello;
      pendingWire, plaintext := [], [];
      sendSeq, recvSeq, draws := 0, 0, 0;
      clientWriteKey, serverWriteKey := None, None;
      signings := [];
    }

    method FeedWireData(data: Bytes) returns (error: Option<Error>)
      modifies this, records
      ensures Fed(View(), records.buffer, error)
        == Feed(ServerHandler(env), old(View()), old(records.buffer), data)
    {
      if data == [] {
        return None;
      }
      records.Feed(data);
      while true
        invariant Drain(ServerHandler(env), View(), records.buffer)
          == Drain(ServerHandler(env), old(View()), old(records.buffer) + data)
        decreases |records.buffer|
      {
        var popped := records.PopRecord();
        match popped {
          case NeedMore =>
            return None;
          case TooLarge(_) =>
            return Some(ValueError);
          case Popped(record, _) =>
            ghost var step := ServerHandler(env)(View(), record);
            var raised: Option<Error>;
            if phase == WaitClientHello {
              raised := OnClientHello(record);
            } else {
              raised := OnApplicationRecord(record);
            }
            assert Step(View(), raised) == step;
            if raised.Some? {
              return raised;
            }
        }
      }
    }

    method OnClientHello(record: Bytes) returns (error: Option<Error>)
      modifies this
      ensures Step(View(), error) == HandleClientHello(env, old(View()), record)
    {
      var fields := DecodeMessage(record);
      if fields.None? {
        return Some(ValueError);
      }
      var share := FirstField(fields.value, TAG_X25519_PUBLIC);
      if share.None? || |share.value| != 32 {
        return Some(ValueError);
      }
      error := AnswerShare(share.value);
    }

    /** The second half of _handle_client_hello, from the fresh ephemeral on. */
    method AnswerShare(clientPublic: Key32) returns (error: Option<Error>)
      modifies this
      ensures Step(View(), error) == AnswerHello(env, old(View()), clientPublic)
    {
      var eph := env.ephemeral(draws);
      draws := draws + 1;
      var serverPublic := env.suite.publicKey(eph.privateKey);
      var hello := Framed([Field(TAG_X25519_PUBLIC, serverPublic)]);
      if hello.None? {
        return Some(StructError);
      }
      pendingWire := pendingWire + hello.value;
      var signature := env.suite.sign(env.identity.privateKey, clientPublic + serverPublic, eph.salt);
      signings := signings + [Signing(clientPublic, eph)];
      var auth := FramedAuth(env.identity, signature);
      if auth.None? {
        return Some(StructError);
      }
      pendingWire := pendingWire + auth.value;
      error := Exchange(eph, clientPublic);
    }

    method Exchange(eph: Ephemeral, clientPublic: Key32) returns (error: Option<Error>)
      modifies this
      ensures Step(View(), error) == InstallKeys(env, old(View()), eph, clientPublic)
    {
      var secret := env.suite.exchange(eph.privateKey, clientPublic);
      if secret.None? {
        return Some(ValueError);
      }
      var keys := DeriveSessionKeys(env.suite, secret.value);
      clientWriteKey, serverWriteKey := Some(keys.clientWrite), Some(keys.serverWrite);
      phase := ServerEstablished;
      return None;
    }

    method OnApplicationRecord(record: Bytes) returns (error: Option<Error>)
      modifies this
      ensures Step(View(), error) == HandleClientRecord(env, old(View()), record)
    {
      if clientWriteKey.None? {
        return Some(ProtocolError);
      }
      var text := UnprotectRecord(env.suite, clientWriteKey.value, recvSeq, record);
      if text.Err? {
        return Some(text.error);
      }
      recvSeq := recvSeq + 1;
      plaintext := plaintext + text.value;
      return None;
    }

    method PopPendingWireData() returns (data: Bytes)
      modifies this
      ensures data == old(pendingWire) && View() == old(View()).(pendingWire := [])
    {
      data := pendingWire;
      pendingWire := [];
    }

    method ReadPlaintext() returns (data: Bytes)
      modifies this
      ensures data == old(plaintext) && View() == old(View()).(plaintext := [])
    {
      data := plaintext;
      plaintext := [];
    }

    method ProtectApplicationData(text: Bytes, nonce: Nonce) returns (wire: Result<Bytes, Error>)
      modifies this
      ensures (View(), wire) == ServerProtect(env, old(View()), text, nonce)
    {
      if phase != ServerEstablished || serverWriteKey.None? {
        return Err(ProtocolError);
      }
      var payload := ProtectRecord(env.suite, serverWriteKey.value, sendSeq, nonce, text);
      if payload.Err? {
        return payload;
      }
      sendSeq := sendSeq + 1;
      var framed := FramePayload(payload.value);
      return if framed.None? then Err(StructError) else Ok(framed.value);
    }
  }

  /** frame_payload around encode_message. */
  method Framed(fields: seq<Field>) returns (wire: Option<Bytes>)
    ensures wire == FramedMessage(fields)
  {
    var message := EncodeMessage(fields);
    if message.None? {
      return None;
    }
    return FramePayload(message.value);
  }

  /** ServerAuth: the leaf first, then the intermediates, then the signature. */
  method FramedAuth(identity: Identity, signature: Bytes) returns (wire: Option<Bytes>)
    ensures wire == FramedMessage(AuthFields(identity, signature))
  {
    var fields := CertificateList([identity.certificate] + identity.intermediates);
    fields := fields + [Field(TAG_CERTIFICATE_VERIFY, signature)];
    wire := Framed(fields);
  }

  /** The loop that lists the leaf and then the intermediates. */
  method CertificateList(certificates: seq<Bytes>) returns (fields: seq<Field>)
    ensures fields == CertificateFields(certificates)
  {
    fields := [];
    assert certificates[0..] == certificates && [] + CertificateFields(certificates) == CertificateFields(certificates);
    for i := 0 to |certificates|
      invariant fields + CertificateFields(certificates[i..]) == CertificateFields(certificates)
    {
      var field := Field(TAG_CERTIFICATE, certificates[i]);
      assert certificates[i..][1..] == certificates[i + 1..];
      ConcatAssoc(fields, [field], CertificateFields(certificates[i + 1..]));
      fields := fields + [field];
    }
    assert fields + [] == fields;
  }

  // ---- the client ----

  datatype ClientPhase = WaitServerHello | WaitServerAuth | ClientEstablished

  datatype ClientCore = ClientCore(
    phase: ClientPhase,
    pendingWire: Bytes,
    plaintext: Bytes,
    sendSeq: nat,
    recvSeq: nat,
    clientWriteKey: Option<Bytes>,
    serverWriteKey: Option<Bytes>,
    serverPublic: Option<Bytes>)

  function ClientShare(env: ClientEnv): Key32 {
    env.suite.publicKey(env.privateKey)
  }

  /** __init__ queues the ClientHello. */
  function FreshClient(env: ClientEnv): ClientCore {
    ClientCore(WaitServerHello, Frame(HelloMessage(ClientShare(env))), [], 0, 0, None, None, None)
  }

  /** _handle_server_hello: the share is stored as it came, whatever its length. */
  function HandleServerHello(s: ClientCore, record: Bytes): Step<ClientCore> {
    match Decode(record)
    case None => Step(s, Some(ValueError))
    case Some(fields) =>
      match First(fields, TAG_X25519_PUBLIC)
      case None => Step(s, Some(ValueError))
      case Some(share) => Step(s.(serverPublic := Some(share), phase := WaitServerAuth), None)
  }

  /** The checks of _handle_server_auth, in the order of the source; Ok is the shared secret. */
  function CheckServerAuth(env: ClientEnv, serverPublic: Bytes, record: Bytes): Result<Bytes, Error> {
    match Decode(record)
    case None => Err(ValueError)
    case Some(fields) =>
      var certificates := Select(fields, TAG_CERTIFICATE);
      var signatures := Select(fields, TAG_CERTIFICATE_VERIFY);
      if certificates == [] || signatures == [] then Err(ProtocolError)
      else if exists i :: 0 <= i < |certificates| && !env.suite.loads(certificates[i]) then Err(ValueError)
      else if !env.suite.chainAccepted(env.root, certificates[1..], certificates[0], env.dnsName)
      then Err(VerificationError)
      else
        match env.suite.rsaKey(certificates[0])
        case None => Err(ProtocolError)
        case Some(identityKey) =>
          if !env.suite.verify(identityKey, signatures[0], SignedMessage(ClientShare(env), serverPublic))
          then Err(InvalidSignature)
          else if |serverPublic| != 32 then Err(ValueError)
          else
            match env.suite.exchange(env.privateKey, serverPublic)
            case None => Err(ValueError)
            case Some(secret) => Ok(secret)
  }

  /** _handle_server_auth. */
  function HandleServerAuth(env: ClientEnv, s: ClientCore, record: Bytes): Step<ClientCore> {
    match s.serverPublic
    case None => Step(s, Some(ProtocolError))
    case Some(share) =>
      match CheckServerAuth(env, share, record)
      case Err(e) => Step(s, Some(e))
      case Ok(secret) =>
        var keys := DeriveSessionKeys(env.suite, secret);
        Step(s.(clientWriteKey := Some(keys.clientWrite),
                serverWriteKey := Some(keys.serverWrite),
                phase := ClientEstablished), None)
  }

  /** _handle_application_record of the client. */
  function HandleServerRecord(env: ClientEnv, s: ClientCore, record: Bytes): Step<ClientCore> {
    match s.serverWriteKey
    case None => Step(s, Some(ProtocolError))
    case Some(key) =>
      match UnprotectRecord(env.suite, key, s.recvSeq, record)
      case Err(e) => Step(s, Some(e))
      case Ok(text) => Step(s.(recvSeq := s.recvSeq + 1, plaintext := s.plaintext + text), None)
  }

  function ClientHandler(env: ClientEnv): Handler<ClientCore> {
    (s: ClientCore, record: Bytes) =>
      match s.phase
      case WaitServerHello => HandleServerHello(s, record)
      case WaitServerAuth => HandleServerAuth(env, s, record)
      case ClientEstablished => HandleServerRecord(env, s, record)
  }

  /** protect_application_data of the client. */
  function ClientProtect(env: ClientEnv, s: ClientCore, plaintext: Bytes, nonce: Nonce)
    : (ClientCore, Result<Bytes, Error>)
  {
    if s.phase != ClientEstablished || s.clientWriteKey.None? then (s, Err(ProtocolError))
    else
      match ProtectRecord(env.suite, s.clientWriteKey.value, s.sendSeq, nonce, plaintext)
      case Err(e) => (s, Err(e))
      case Ok(payload) =>
        var counted := s.(sendSeq := s.sendSeq + 1);
        match FramePayload(payload)
        case None => (counted, Err(StructError))
        case Some(wire) => (counted, Ok(wire))
  }

  class ToyTLSClientConnection {
    const env: ClientEnv
    const records: RecordBuffer
    var phase: ClientPhase
    var pendingWire: Bytes
    var plaintext: Bytes
    var sendSeq: nat
    var recvSeq: nat
    var clientWriteKey: Option<Bytes>
    var serverWriteKey: Option<Bytes>
    var serverPublic: Option<Bytes>

    ghost function View(): ClientCore
      reads this
    {
      ClientCore(phase, pendingWire, plaintext, sendSeq, recvSeq, clientWriteKey, serverWriteKey, serverPublic)
    }

    constructor (env: ClientEnv)
      ensures this.env == env && fresh(records)
      ensures View() == FreshClient(env) && records.buffer == []
    {
      this.env := env;
      records := new RecordBuffer();
      phase := WaitServerHello;
      plaintext := [];
      sendSeq, recvSeq := 0, 0;
      clientWriteKey, serverWriteKey, serverPublic := None, None, None;
      var share := env.suite.publicKey(env.privateKey);
      HelloFits(share);
      var hello := Framed([Field(TAG_X25519_PUBLIC, share)]);
      pendingWire := hello.value;
    }

    method FeedWireData(data: Bytes) returns (error: Option<Error>)
      modifies this, records
      ensures Fed(View(), records.buffer, error)
        == Feed(ClientHandler(env), old(View()), old(records.buffer), data)
    {
      if data == [] {
        return None;
      }
      records.Feed(data);
      while true
        invariant Drain(ClientHandler(env), View(), records.buffer)
          == Drain(ClientHandler(env), old(View()), old(records.buffer) + data)
        decreases |records.buffer|
      {
        var popped := records.PopRecord();
        match popped {
          case NeedMore =>
            return None;
          case TooLarge(_) =>
            return Some(ValueError);
          case Popped(record, _) =>
            ghost var step := ClientHandler(env)(View(), record);
            var raised: Option<Error>;
            if phase == WaitServerHello {
              raised := OnServerHello(record);
            } else if phase == WaitServerAuth {
              raised := OnServerAuth(record);
            } else {
              raised := OnApplicationRecord(record);
            }
            assert Step(View(), raised) == step;
            if raised.Some? {
              return raised;
            }
        }
      }
    }

    method OnServerHello(record: Bytes) returns (error: Option<Error>)
      modifies this
      ensures Step(View(), error) == HandleServerHello(old(View()), record)
    {
      var fields := DecodeMessage(record);
      if fields.None? {
        return Some(ValueError);
      }
      var share := FirstField(fields.value, TAG_X25519_PUBLIC);
      if share.None? {
        return Some(ValueError);
      }
      serverPublic := share;
      phase := WaitServerAuth;
      return None;
    }

    method OnServerAuth(record: Bytes) returns (error: Option<Error>)
      modifies this
      ensures Step(View(), error) == HandleServerAuth(env, old(View()), record)
    {
      if serverPublic.None? {
        return Some(ProtocolError);
      }
      var fields := DecodeMessage(record);
      if fields.None? {
        return Some(ValueError);
      }
      var certificates := Select(fields.value, TAG_CERTIFICATE);
      var signatures := Select(fields.value, TAG_CERTIFICATE_VERIFY);
      if certificates == [] || signatures == [] {
        return Some(ProtocolError);
      }
      for i := 0 to |certificates|
        invariant forall k :: 0 <= k < i ==> env.suite.loads(certificates[k])
      {
        if !env.suite.loads(certificates[i]) {
          return Some(ValueError);
        }
      }
      if !env.suite.chainAccepted(env.root, certificates[1..], certificates[0], env.dnsName) {
        return Some(VerificationError);
      }
      var identityKey := env.suite.rsaKey(certificates[0]);
      if identityKey.None? {
        return Some(ProtocolError);
      }
      if !env.suite.verify(identityKey.value, signatures[0], env.suite.publicKey(env.privateKey) + serverPublic.value) {
        return Some(InvalidSignature);
      }
      if |serverPublic.value| != 32 {
        return Some(ValueError);
      }
      var secret := env.suite.exchange(env.privateKey, serverPublic.value);
      if secret.None? {
        return Some(ValueError);
      }
      var keys := DeriveSessionKeys(env.suite, secret.value);
      clientWriteKey, serverWriteKey := Some(keys.clientWrite), Some(keys.serverWrite);
      phase := ClientEstablished;
      return None;
    }

    method OnApplicationRecord(record: Bytes) returns (error: Option<Error>)
      modifies this
      ensures Step(View(), error) == HandleServerRecord(env, old(View()), record)
    {
      if serverWriteKey.None? {
        return Some(ProtocolError);
      }
      var text := UnprotectRecord(env.suite, serverWriteKey.value, recvSeq, record);
      if text.Err? {
        return Some(text.error);
      }
      recvSeq := recvSeq + 1;
      plaintext := plaintext + text.value;
      return None;
    }

    method PopPendingWireData() returns (data: Bytes)
      modifies this
      ensures data == old(pendingWire) && View() == old(View()).(pendingWire := [])
    {
      data := pendingWire;
      pendingWire := [];
    }

    method ReadPlaintext() returns (data: Bytes)
      modifies this
      ensures data == old(plaintext) && View() == old(View()).(plaintext := [])
    {
      data := plaintext;
      plaintext := [];
    }

    method ProtectApplicationData(text: Bytes, nonce: Nonce) returns (wire: Result<Bytes, Error>)
      modifies this
      ensures (View(), wire) == ClientProtect(env, old(View()), text, nonce)
    {
      if phase != ClientEstablished || clientWriteKey.None? {
        return Err(ProtocolError);
      }
      var payload := ProtectRecord(env.suite, clientWriteKey.value, sendSeq, nonce, text);
      if payload.Err? {
        return payload;
      }
      sendSeq := sendSeq + 1;
      var framed := FramePayload(payload.value);
      return if framed.None? then Err(StructError) else Ok(framed.value);
    }
  }

  /** A hello is 38 bytes and always goes out. */
  lemma {:induction false} HelloFits(public: Key32)
    ensures AllEncodable([Field(TAG_X25519_PUBLIC, public)])
    ensures |HelloMessage(public)| == FIELD_HEADER + 32
    ensures FramedMessage([Field(TAG_X25519_PUBLIC, public)]) == Some(Frame(HelloMessage(public)))
  {
    var field := Field(TAG_X25519_PUBLIC, public);
    assert Encode([field]) == EncodeField(field) + Encode([]);
  }

  // ---- fragmentation independence ----

  /** For the server: any chunking of a stream is the stream fed whole. */
  lemma {:induction false} ServerChunkingIrrelevant(env: ServerEnv, s: ServerCore, buffer: Bytes, chunks: seq<Bytes>)
    requires PopFrom(buffer).NeedMore?
    ensures var parts := FeedChunks(ServerHandler(env), s, buffer, chunks);
      var whole := Feed(ServerHandler(env), s, buffer, Flatten(chunks));
      && parts.core == whole.core && parts.error == whole.error
      && (whole.error.None? ==> parts == whole)
  {
    ChunkingIrrelevant(ServerHandler(env), s, buffer, chunks);
  }

  /** For the client. */
  lemma {:induction false} ClientChunkingIrrelevant(env: ClientEnv, s: ClientCore, buffer: Bytes, chunks: seq<Bytes>)
    requires PopFrom(buffer).NeedMore?
    ensures var parts := FeedChunks(ClientHandler(env), s, buffer, chunks);
      var whole := Feed(ClientHandler(env), s, buffer, Flatten(chunks));
      && parts.core == whole.core && parts.error == whole.error
      && (whole.error.None? ==> parts == whole)
  {
    ChunkingIrrelevant(ClientHandler(env), s, buffer, chunks);
  }
}
