/** The protocol on the wire, byte by byte, and what each handshake message has to be to be
    accepted (tls_web_server/tls/messages.py, framing.py, record_protection.py, connection.py).
    Tags, lengths and the order of the signed shares are written out here as numbers and
    concatenations, and not taken from the model's own constants. */
module HandshakeBytes {
  import opened Wire
  import opened Framing
  import opened Messages
  import opened Crypto
  import opened RecordProtection
  import opened Connection

  // ---- numbers ----

  /** struct.pack("!H", n), "!I" and "!Q", digit by digit. */
  lemma {:induction false} BigEndian(n: nat)
    ensures n < 0x1_0000 ==> Pack(n, 2) == [n / 256, n % 256]
    ensures n < 0x1_0000_0000 ==> Pack(n, 4) == [n / 0x100_0000, n / 0x1_0000 % 256, n / 256 % 256, n % 256]
  {
    assert Pack(n, 2) == Pack(n / 256, 1) + [n % 256];
    assert Pack(n / 256, 1) == [] + [n / 256 % 256];
    assert Pack(n, 4) == Pack(n / 256, 3) + [n % 256];
    assert Pack(n / 256, 3) == Pack(n / 256 / 256, 2) + [n / 256 % 256];
    assert Pack(n / 256 / 256, 2) == Pack(n / 256 / 256 / 256, 1) + [n / 256 / 256 % 256];
    assert Pack(n / 256 / 256 / 256, 1) == [] + [n / 256 / 256 / 256 % 256];
  }

  /** A frame is four bytes of length and the payload. */
  lemma {:induction false} FrameBytes(payload: Bytes)
    requires |payload| < 0x1_0000_0000
    ensures var n := |payload|;
      FramePayload(payload) == Some([n / 0x100_0000, n / 0x1_0000 % 256, n / 256 % 256, n % 256] + payload)
  {
    BigEndian(|payload|);
  }

  /** A record is its number, the nonce, and the sealed text with that number as associated data. */
  lemma {:induction false} RecordBytes(s: Suite, key: Bytes, sequence: nat, nonce: Nonce, text: Bytes)
    requires sequence < 0x1_0000_0000_0000_0000
    ensures ProtectRecord(s, key, sequence, nonce, text).Ok?
    ensures var record := ProtectRecord(s, key, sequence, nonce, text).value;
      && |record| >= 20 && Unpack(record[..8]) == sequence && record[8..20] == nonce
      && record[20..] == s.seal(key, nonce, text, record[..8])
  {
    var record := Record(s, key, sequence, nonce, text);
    Capacities();
    UnpackPack(sequence, 8);
    assert record[..8] == Pack(sequence, 8);
  }

  // ---- the messages ----

  /** One field: a tag of two bytes, a length of four, the value. */
  function FieldBytes(high: byte, low: byte, value: Bytes): Bytes {
    [high, low] + (Pack(|value|, 4) + value)
  }

  /** ClientHello and ServerHello: tag 0x0010, length 32, the share; framed, 42 bytes. */
  lemma {:induction false} HelloBytes(public: Key32)
    ensures HelloMessage(public) == [0, 16, 0, 0, 0, 32] + public
    ensures Frame(HelloMessage(public)) == [0, 0, 0, 38] + ([0, 16, 0, 0, 0, 32] + public)
  {
    BigEndian(16);
    BigEndian(32);
    BigEndian(38);
    var field := Field(TAG_X25519_PUBLIC, public);
    assert [field][1..] == [];
    assert Encode([field]) == EncodeField(field) + [];
    assert EncodeField(field) == [0, 16, 0, 0, 0, 32] + public;
  }

  lemma CertificateField(certificate: Bytes)
    ensures EncodeField(Field(TAG_CERTIFICATE, certificate)) == FieldBytes(0, 32, certificate)
  {
    BigEndian(32);
    assert Pack(32, 2) == [0, 32];
    ConcatAssoc([0, 32], Pack(|certificate|, 4), certificate);
  }

  lemma VerifyField(signature: Bytes)
    ensures EncodeField(Field(TAG_CERTIFICATE_VERIFY, signature)) == FieldBytes(0, 33, signature)
  {
    BigEndian(33);
    assert Pack(33, 2) == [0, 33];
    ConcatAssoc([0, 33], Pack(|signature|, 4), signature);
  }

  /** The certificates of a ServerAuth, one field of tag 0x0020 after the other. */
  function CertificateBytes(certificates: seq<Bytes>): seq<Bytes> {
    seq(|certificates|, i requires 0 <= i < |certificates| => FieldBytes(0, 32, certificates[i]))
  }

  lemma {:induction false} CertificatesEncode(certificates: seq<Bytes>)
    ensures Encode(CertificateFields(certificates)) == Flatten(CertificateBytes(certificates))
  {
    if certificates != [] {
      CertificatesEncode(certificates[1..]);
      CertificateField(certificates[0]);
      assert CertificateBytes(certificates)[1..] == CertificateBytes(certificates[1..]);
      assert CertificateFields(certificates)[1..] == CertificateFields(certificates[1..]);
    }
  }

  lemma {:induction false} EncodeAppend(a: seq<Field>, b: seq<Field>)
    ensures Encode(a + b) == Encode(a) + Encode(b)
  {
    if a == [] {
      assert a + b == b;
    } else {
      assert (a + b)[1..] == a[1..] + b;
      EncodeAppend(a[1..], b);
      ConcatAssoc(EncodeField(a[0]), Encode(a[1..]), Encode(b));
    }
  }

  /** ServerAuth: the leaf, the intermediates, and last the signature under tag 0x0021. */
  lemma {:induction false} AuthBytes(identity: Identity, signature: Bytes)
    ensures Encode(AuthFields(identity, signature))
      == Flatten(CertificateBytes([identity.certificate] + identity.intermediates)) + FieldBytes(0, 33, signature)
  {
    var last := Field(TAG_CERTIFICATE_VERIFY, signature);
    var certificates := [identity.certificate] + identity.intermediates;
    EncodeAppend(CertificateFields(certificates), [last]);
    CertificatesEncode(certificates);
    VerifyField(signature);
    assert [last][1..] == [];
    assert Encode([last]) == EncodeField(last) + [];
  }

  // ---- the server's answer ----

  /** What a ClientHello with the share c is answered with, under the fresh share s: ServerHello,
      then ServerAuth with a signature over c followed by s, both queued whatever the exchange
      gives; and then the keys of the exchange, the client's write key for reading and the
      server's for writing, or a ValueError and no keys. */
  lemma {:induction false} AnswerBytes(env: ServerEnv, s: ServerCore, clientPublic: Key32)
    requires var eph := env.ephemeral(s.draws);
      var signature := env.suite.sign(env.identity.privateKey, clientPublic + env.suite.publicKey(eph.privateKey),
                                      eph.salt);
      FramedMessage(AuthFields(env.identity, signature)).Some?
    ensures var eph := env.ephemeral(s.draws);
      var serverPublic := env.suite.publicKey(eph.privateKey);
      var signature := env.suite.sign(env.identity.privateKey, clientPublic + serverPublic, eph.salt);
      var auth := Flatten(CertificateBytes([env.identity.certificate] + env.identity.intermediates))
        + FieldBytes(0, 33, signature);
      var step := AnswerHello(env, s, clientPublic);
      var t := step.core;
      var secret := env.suite.exchange(eph.privateKey, clientPublic);
      && t.pendingWire == s.pendingWire + ([0, 0, 0, 38] + ([0, 16, 0, 0, 0, 32] + serverPublic))
           + (Pack(|auth|, 4) + auth)
      && t.draws == s.draws + 1 && t.signings == s.signings + [Signing(clientPublic, eph)]
      && t.sendSeq == s.sendSeq && t.recvSeq == s.recvSeq && t.plaintext == s.plaintext
      && (secret.Some? ==>
            && step.error == None && t.phase == ServerEstablished
            && t.clientWriteKey == Some(env.suite.hkdf(secret.value, ClientWriteKeyLabel))
            && t.serverWriteKey == Some(env.suite.hkdf(secret.value, ServerWriteKeyLabel)))
      && (secret.None? ==>
            && step.error == Some(ValueError) && t.phase == s.phase
            && t.clientWriteKey == s.clientWriteKey && t.serverWriteKey == s.serverWriteKey)
  {
    var eph := env.ephemeral(s.draws);
    var serverPublic := env.suite.publicKey(eph.privateKey);
    var signature := env.suite.sign(env.identity.privateKey, clientPublic + serverPublic, eph.salt);
    HelloFits(serverPublic);
    HelloBytes(serverPublic);
    AuthBytes(env.identity, signature);
  }

  /** If ServerAuth cannot be encoded or framed, ServerHello is queued and a signature made all the
      same, and struct.error leaves the server without keys. */
  lemma {:induction false} AnswerUnframed(env: ServerEnv, s: ServerCore, clientPublic: Key32)
    requires var eph := env.ephemeral(s.draws);
      var signature := env.suite.sign(env.identity.privateKey, clientPublic + env.suite.publicKey(eph.privateKey),
                                      eph.salt);
      FramedMessage(AuthFields(env.identity, signature)).None?
    ensures var eph := env.ephemeral(s.draws);
      var serverPublic := env.suite.publicKey(eph.privateKey);
      AnswerHello(env, s, clientPublic)
        == Step(s.(pendingWire := s.pendingWire + ([0, 0, 0, 38] + ([0, 16, 0, 0, 0, 32] + serverPublic)),
                   draws := s.draws + 1,
                   signings := s.signings + [Signing(clientPublic, eph)]),
                Some(StructError))
  {
    var serverPublic := env.suite.publicKey(env.ephemeral(s.draws).privateKey);
    HelloFits(serverPublic);
    HelloBytes(serverPublic);
  }

  // ---- what is accepted ----

  /** The first field with a tag, if there is one. */
  lemma {:induction false} FirstIsFirst(fields: seq<Field>, tag: nat)
    ensures match First(fields, tag)
      case None => forall i :: 0 <= i < |fields| ==> fields[i].tag != tag
      case Some(value) =>
        exists i :: 0 <= i < |fields| && fields[i] == Field(tag, value)
          && forall j :: 0 <= j < i ==> fields[j].tag != tag
  {
    if fields != [] && fields[0].tag != tag {
      FirstIsFirst(fields[1..], tag);
      var rest := fields[1..];
      if First(rest, tag).Some? {
        var value := First(rest, tag).value;
        var i :| 0 <= i < |rest| && rest[i] == Field(tag, value) && forall j :: 0 <= j < i ==> rest[j].tag != tag;
        assert fields[i + 1] == Field(tag, value);
        assert forall j :: 0 < j < i + 1 ==> fields[j] == rest[j - 1];
      } else {
        assert forall j :: 0 < j < |fields| ==> fields[j] == rest[j - 1];
      }
    }
  }

  /** A record is a valid ClientHello for this server: it decodes, its first field of tag 0x0010
      is a share of 32 bytes, the exchange with it gives a secret, and the answer can be framed. */
  ghost predicate GoodHello(env: ServerEnv, s: ServerCore, record: Bytes, clientPublic: Key32) {
    var eph := env.ephemeral(s.draws);
    var serverPublic := env.suite.publicKey(eph.privateKey);
    var signature := env.suite.sign(env.identity.privateKey, clientPublic + serverPublic, eph.salt);
    && Decode(record).Some? && First(Decode(record).value, 0x0010) == Some(clientPublic)
    && env.suite.exchange(eph.privateKey, clientPublic).Some?
    && FramedMessage(AuthFields(env.identity, signature)).Some?
  }

  /** The server takes exactly those, and otherwise stays without keys where it was. */
  lemma {:induction false} HelloAcceptedIff(env: ServerEnv, s: ServerCore, record: Bytes)
    ensures var step := HandleClientHello(env, s, record);
      && (step.error.None? <==> exists share: Key32 :: GoodHello(env, s, record, share))
      && (step.error.Some? ==>
            && step.core.phase == s.phase && step.core.clientWriteKey == s.clientWriteKey
            && step.core.serverWriteKey == s.serverWriteKey && step.core.plaintext == s.plaintext)
  {
    HelloFits(env.suite.publicKey(env.ephemeral(s.draws).privateKey));
    if Decode(record).Some? && First(Decode(record).value, 0x0010).Some? {
      var share := First(Decode(record).value, 0x0010).value;
      if |share| == 32 {
        assert GoodHello(env, s, record, share) <==> HandleClientHello(env, s, record).error.None?;
      }
    }
  }

  /** Which exception a ClientHello meets: struct.error exactly if its share is good and the answer
      cannot be framed, and otherwise a ValueError. */
  lemma {:induction false} HelloRefused(env: ServerEnv, s: ServerCore, record: Bytes)
    ensures var error := HandleClientHello(env, s, record).error;
      && (error == Some(StructError) <==>
            && Decode(record).Some? && First(Decode(record).value, 0x0010).Some?
            && var share := First(Decode(record).value, 0x0010).value;
               |share| == 32 && !AnswerFits(env, s, share))
      && (error.Some? && error != Some(StructError) ==> error == Some(ValueError))
  {
    HelloFits(env.suite.publicKey(env.ephemeral(s.draws).privateKey));
  }

  /** The ServerAuth that answers a share can be encoded and framed. */
  predicate AnswerFits(env: ServerEnv, s: ServerCore, clientPublic: Bytes) {
    var eph := env.ephemeral(s.draws);
    var message := clientPublic + env.suite.publicKey(eph.privateKey);
    FramedMessage(AuthFields(env.identity, env.suite.sign(env.identity.privateKey, message, eph.salt))).Some?
  }

  /** A record is a valid ServerAuth for a client that was sent the share: certificates under tag
      0x0020 that all load, of which the first is the leaf and the chain is accepted for the root
      and the name; an RSA key in the leaf; under the first tag 0x0021 a signature of that key over
      the client's own share followed by the server's; and a secret. */
  ghost predicate GoodAuth(env: ClientEnv, share: Bytes, record: Bytes, secret: Bytes) {
    && Decode(record).Some?
    && var certificates := Select(Decode(record).value, 0x0020);
       var signatures := Select(Decode(record).value, 0x0021);
       && certificates != [] && signatures != []
       && (forall i :: 0 <= i < |certificates| ==> env.suite.loads(certificates[i]))
       && env.suite.chainAccepted(env.root, certificates[1..], certificates[0], env.dnsName)
       && env.suite.rsaKey(certificates[0]).Some?
       && env.suite.verify(env.suite.rsaKey(certificates[0]).value, signatures[0],
                           env.suite.publicKey(env.privateKey) + share)
       && |share| == 32 && env.suite.exchange(env.privateKey, share) == Some(secret)
  }

  /** The client takes exactly those, and takes the keys of that secret in their roles;
      otherwise nothing about it changes. */
  lemma {:induction false} AuthAcceptedIff(env: ClientEnv, s: ClientCore, record: Bytes)
    ensures var step := HandleServerAuth(env, s, record);
      && (step.error.None? <==>
            s.serverPublic.Some? && exists secret :: GoodAuth(env, s.serverPublic.value, record, secret))
      && (step.error.Some? ==> step.core == s)
      && (forall secret :: s.serverPublic.Some? && GoodAuth(env, s.serverPublic.value, record, secret) ==>
            step.core == s.(clientWriteKey := Some(env.suite.hkdf(secret, ClientWriteKeyLabel)),
                            serverWriteKey := Some(env.suite.hkdf(secret, ServerWriteKeyLabel)),
                            phase := ClientEstablished))
  {
    if s.serverPublic.Some? {
      var share := s.serverPublic.value;
      var checked := CheckServerAuth(env, share, record);
      forall secret
        ensures GoodAuth(env, share, record, secret) <==> checked == Ok(secret)
      {
        AuthCheckedIff(env, share, record, secret);
      }
    }
  }

  /** The certificates of a ServerAuth load and their chain is accepted. */
  predicate ChainGood(env: ClientEnv, certificates: seq<Bytes>) {
    && certificates != [] && (forall i :: 0 <= i < |certificates| ==> env.suite.loads(certificates[i]))
    && env.suite.chainAccepted(env.root, certificates[1..], certificates[0], env.dnsName)
  }

  /** Which check a ServerAuth fails first: ToyTLSProtocolError exactly if a certificate or the
      signature is missing or the leaf of a good chain has no RSA key; VerificationError exactly if
      the chain of loaded certificates is refused; InvalidSignature exactly if it is good and the
      signature is not one over the client's share followed by the server's. */
  lemma {:induction false} AuthRefused(env: ClientEnv, s: ClientCore, record: Bytes)
    requires s.serverPublic.Some? && Decode(record).Some?
    ensures var error := HandleServerAuth(env, s, record).error;
      var certificates := Select(Decode(record).value, 0x0020);
      var signatures := Select(Decode(record).value, 0x0021);
      var both := certificates != [] && signatures != [];
      var good := ChainGood(env, certificates);
      && (error == Some(ProtocolError) <==> !both || (good && env.suite.rsaKey(certificates[0]).None?))
      && (error == Some(VerificationError) <==>
            both && !good && forall i :: 0 <= i < |certificates| ==> env.suite.loads(certificates[i]))
      && (error == Some(InvalidSignature) <==>
            && both && good && env.suite.rsaKey(certificates[0]).Some?
            && !env.suite.verify(env.suite.rsaKey(certificates[0]).value, signatures[0],
                                 env.suite.publicKey(env.privateKey) + s.serverPublic.value))
  {
  }

  lemma AuthCheckedIff(env: ClientEnv, share: Bytes, record: Bytes, secret: Bytes)
    ensures GoodAuth(env, share, record, secret) <==> CheckServerAuth(env, share, record) == Ok(secret)
  {
  }

  /** The client takes any ServerHello with a share, of whatever length, and no other. */
  lemma {:induction false} ServerHelloIff(s: ClientCore, record: Bytes)
    ensures var step := HandleServerHello(s, record);
      var share := if Decode(record).Some? then First(Decode(record).value, 0x0010) else None;
      if share.Some? then step == Step(s.(serverPublic := share, phase := WaitServerAuth), None)
      else step == Step(s, Some(ValueError))
  {
  }

  /** Its 36 bytes at least, the expected number in the first eight, and behind the twelve bytes of
      nonce what the library opens with that number as associated data. */
  predicate Opens(s: Suite, key: Bytes, expected: nat, payload: Bytes, text: Bytes) {
    && |payload| >= 36 && Unpack(payload[..8]) == expected
    && s.open(key, payload[8..20], payload[20..], payload[..8]) == Some(text)
  }

  /** A record is accepted exactly if it opens so. */
  lemma {:induction false} OpensIff(s: Suite, key: Bytes, expected: nat, payload: Bytes, text: Bytes)
    ensures UnprotectRecord(s, key, expected, payload) == Ok(text) <==> Opens(s, key, expected, payload, text)
  {
  }

  /** Which exception a refused record meets: InvalidTag exactly if its size and its number are right
      and it does not open, and otherwise a ValueError. */
  lemma {:induction false} RecordRefused(s: Suite, key: Bytes, expected: nat, payload: Bytes)
    ensures var r := UnprotectRecord(s, key, expected, payload);
      && (r == Err(InvalidTag) <==>
            && |payload| >= 36 && Unpack(payload[..8]) == expected
            && s.open(key, payload[8..20], payload[20..], payload[..8]).None?)
      && (r.Err? && r != Err(InvalidTag) ==> r == Err(ValueError))
  {
  }

  /** So the counter of an end moves with what it accepts, the text is added behind what it has,
      and a record that is refused changes nothing. */
  lemma {:induction false} AcceptingCounts(env: ServerEnv, s: ServerCore, record: Bytes)
    requires s.clientWriteKey.Some?
    ensures var step := HandleClientRecord(env, s, record);
      && (step.error.Some? ==> step.core == s)
      && (step.error.None? <==> exists text :: Opens(env.suite, s.clientWriteKey.value, s.recvSeq, record, text))
      && (forall text :: Opens(env.suite, s.clientWriteKey.value, s.recvSeq, record, text) ==>
              step == Step(s.(recvSeq := s.recvSeq + 1, plaintext := s.plaintext + text), None))
  {
    var key := s.clientWriteKey.value;
    forall text
      ensures UnprotectRecord(env.suite, key, s.recvSeq, record) == Ok(text) <==>
        Opens(env.suite, key, s.recvSeq, record, text)
    {
      OpensIff(env.suite, key, s.recvSeq, record, text);
    }
  }

  lemma {:induction false} ClientAcceptingCounts(env: ClientEnv, s: ClientCore, record: Bytes)
    requires s.serverWriteKey.Some?
    ensures var step := HandleServerRecord(env, s, record);
      && (step.error.Some? ==> step.core == s)
      && (step.error.None? <==> exists text :: Opens(env.suite, s.serverWriteKey.value, s.recvSeq, record, text))
      && (forall text :: Opens(env.suite, s.serverWriteKey.value, s.recvSeq, record, text) ==>
              step == Step(s.(recvSeq := s.recvSeq + 1, plaintext := s.plaintext + text), None))
  {
    var key := s.serverWriteKey.value;
    forall text
      ensures UnprotectRecord(env.suite, key, s.recvSeq, record) == Ok(text) <==>
        Opens(env.suite, key, s.recvSeq, record, text)
    {
      OpensIff(env.suite, key, s.recvSeq, record, text);
    }
  }

  /** What protect_application_data does to the counter, and when it gives bytes: an end that is
      not established refuses; a number of 2^64 is not sealed; a record that cannot be framed has
      used its number up; otherwise the frame of the record goes out. */
  lemma {:induction false} ProtectingCounts(env: ServerEnv, s: ServerCore, text: Bytes, nonce: Nonce)
    requires SealOpens(env.suite)
    ensures var (t, wire) := ServerProtect(env, s, text, nonce);
      if s.phase != ServerEstablished || s.serverWriteKey.None? then t == s && wire == Err(ProtocolError)
      else if s.sendSeq >= 0x1_0000_0000_0000_0000 then t == s && wire == Err(StructError)
      else
        && t == s.(sendSeq := s.sendSeq + 1)
        && var record := Record(env.suite, s.serverWriteKey.value, s.sendSeq, nonce, text);
           wire == if |text| + 36 >= 0x1_0000_0000 then Err(StructError) else Ok(Frame(record))
  {
    if s.serverWriteKey.Some? && s.sendSeq < 0x1_0000_0000_0000_0000 {
      UnprotectProtected(env.suite, s.serverWriteKey.value, s.sendSeq, nonce, text, s.sendSeq);
    }
  }

  lemma {:induction false} ClientProtectingCounts(env: ClientEnv, s: ClientCore, text: Bytes, nonce: Nonce)
    requires SealOpens(env.suite)
    ensures var (t, wire) := ClientProtect(env, s, text, nonce);
      if s.phase != ClientEstablished || s.clientWriteKey.None? then t == s && wire == Err(ProtocolError)
      else if s.sendSeq >= 0x1_0000_0000_0000_0000 then t == s && wire == Err(StructError)
      else
        && t == s.(sendSeq := s.sendSeq + 1)
        && var record := Record(env.suite, s.clientWriteKey.value, s.sendSeq, nonce, text);
           wire == if |text| + 36 >= 0x1_0000_0000 then Err(StructError) else Ok(Frame(record))
  {
    if s.clientWriteKey.Some? && s.sendSeq < 0x1_0000_0000_0000_0000 {
      UnprotectProtected(env.suite, s.clientWriteKey.value, s.sendSeq, nonce, text, s.sendSeq);
    }
  }
}
