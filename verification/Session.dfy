/** One honest session: the messages its two ends exchange, and what each end
    does with any part of the other's stream. */
module Session {
  import opened Wire
  import opened Framing
  import opened Messages
  import opened Crypto
  import opened RecordProtection
  import opened Connection

  /** Everything two honest ends are configured with. */
  datatype Setup = Setup(
    suite: Suite,
    identity: Identity,
    ephemeral: nat -> Ephemeral,
    root: Bytes,
    dnsName: Bytes,
    clientKey: Bytes)
  {
    function ServerEnd(): ServerEnv {
      ServerEnv(suite, identity, ephemeral)
    }

    function ClientEnd(): ClientEnv {
      ClientEnv(suite, root, dnsName, clientKey)
    }

    function ClientShare(): Key32 {
      suite.publicKey(clientKey)
    }

    function ServerShare(): Key32 {
      suite.publicKey(ephemeral(0).privateKey)
    }

    function AuthList(): seq<Field> {
      AuthFields(identity, suite.sign(identity.privateKey, SignedMessage(ClientShare(), ServerShare()),
                                      ephemeral(0).salt))
    }

    function ClientHello(): Bytes {
      HelloMessage(ClientShare())
    }

    /** ServerHello and ServerAuth. */
    function Flight(): seq<Bytes> {
      [HelloMessage(ServerShare()), Encode(AuthList())]
    }

    ghost predicate Honest() {
      && ExchangeCommutes(suite) && HonestExchangeSucceeds(suite) && SealOpens(suite) && SignVerifies(suite)
      && (forall i :: 0 <= i < |identity.intermediates| ==> suite.loads(identity.intermediates[i]))
      && suite.loads(identity.certificate)
      && suite.chainAccepted(root, identity.intermediates, identity.certificate, dnsName)
      && suite.rsaKey(identity.certificate) == Some(suite.rsaPublic(identity.privateKey))
      && AllEncodable(AuthList())
      && |Encode(AuthList())| <= MAX_RECORD_SIZE
    }

    function Keys(): SessionKeys
      requires suite.exchange(ephemeral(0).privateKey, ClientShare()).Some?
    {
      DeriveSessionKeys(suite, suite.exchange(ephemeral(0).privateKey, ClientShare()).value)
    }
  }

  function ToySetup(): Setup {
    Setup(ToySuite(), Identity([], [], []), _ => Ephemeral([], []), [], [], [])
  }

  /** Honest setups exist: nothing that is proved about them is empty. */
  lemma {:induction false} ToySetupHonest()
    ensures ToySetup().Honest()
  {
    var h := ToySetup();
    LawsAreConsistent();
    var leaf, verify := Field(TAG_CERTIFICATE, []), Field(TAG_CERTIFICATE_VERIFY, []);
    assert CertificateFields([[]]) == [leaf] + CertificateFields([]);
    assert h.AuthList() == [leaf, verify];
    assert Encode([verify]) == EncodeField(verify) + Encode([]);
    EncodeCons(leaf, [verify]);
    assert [leaf] + [verify] == [leaf, verify];
  }

  // ---- application records of one direction ----

  /** One protect_application_data call: its plaintext and the nonce it drew. */
  datatype Sent = Sent(plaintext: Bytes, nonce: Nonce)

  function Records(s: Suite, key: Bytes, log: seq<Sent>): seq<Bytes> {
    seq(|log|, i requires 0 <= i < |log| => Record(s, key, i, log[i].nonce, log[i].plaintext))
  }

  function Texts(log: seq<Sent>): seq<Bytes> {
    seq(|log|, i requires 0 <= i < |log| => log[i].plaintext)
  }

  predicate Sendable(log: seq<Sent>) {
    |log| <= LIMIT_64 && forall i :: 0 <= i < |log| ==> |log[i].plaintext| <= MAX_PLAINTEXT
  }

  lemma RecordsAcceptable(s: Suite, key: Bytes, log: seq<Sent>)
    requires SealOpens(s) && Sendable(log)
    ensures Acceptable(Records(s, key, log))
  {
    forall i | 0 <= i < |log|
      ensures |Records(s, key, log)[i]| <= MAX_RECORD_SIZE
    {
      UnprotectProtected(s, key, i, log[i].nonce, log[i].plaintext, i);
    }
  }

  lemma RecordsSnoc(s: Suite, key: Bytes, log: seq<Sent>, entry: Sent)
    ensures Records(s, key, log + [entry])
        == Records(s, key, log) + [Record(s, key, |log|, entry.nonce, entry.plaintext)]
    ensures Texts(log + [entry]) == Texts(log) + [entry.plaintext]
  {
  }

  /** Reading the next record of the log at its own sequence number gives its plaintext. */
  lemma NextRecord(s: Suite, key: Bytes, log: seq<Sent>, n: nat)
    requires SealOpens(s) && Sendable(log) && n < |log|
    ensures UnprotectRecord(s, key, n, Records(s, key, log)[n]) == Ok(log[n].plaintext)
    ensures Records(s, key, log)[n..][1..] == Records(s, key, log)[n + 1..]
  {
    UnprotectProtected(s, key, n, log[n].nonce, log[n].plaintext, n);
  }

  lemma FlattenSlice(parts: seq<Bytes>, i: nat, j: nat)
    requires i < j <= |parts|
    ensures Flatten(parts[i..j]) == parts[i] + Flatten(parts[i + 1..j])
  {
    assert parts[i..j][1..] == parts[i + 1..j];
  }

  lemma SliceJoin(before: Bytes, parts: seq<Bytes>, i: nat, j: nat, k: nat)
    requires i <= j <= k <= |parts|
    ensures (before + Flatten(parts[i..j])) + Flatten(parts[j..k]) == before + Flatten(parts[i..k])
  {
    assert parts[i..k] == parts[i..j] + parts[j..k];
    FlattenAppend(parts[i..j], parts[j..k]);
    ConcatAssoc(before, Flatten(parts[i..j]), Flatten(parts[j..k]));
  }

  // ---- what an end has accepted of its peer's log ----

  /** Everything an end has accepted is exactly the first `taken` plaintexts that its peer protected. */
  predicate Prefixed(log: seq<Sent>, taken: nat, read: Bytes, plaintext: Bytes) {
    taken <= |log| && read + plaintext == Flatten(Texts(log)[..taken])
  }

  lemma NothingTaken(log: seq<Sent>)
    ensures Prefixed(log, 0, [], [])
  {
    assert Texts(log)[..0] == [];
  }

  lemma PrefixGrows(log: seq<Sent>, taken: nat, now: nat, read: Bytes, plaintext: Bytes)
    requires Prefixed(log, taken, read, plaintext) && taken <= now <= |log|
    ensures Prefixed(log, now, read, plaintext + Flatten(Texts(log)[taken..now]))
  {
    var texts := Texts(log);
    assert texts[..taken] + texts[taken..now] == texts[..now];
    FlattenAppend(texts[..taken], texts[taken..now]);
    ConcatAssoc(read, plaintext, Flatten(texts[taken..now]));
  }

  lemma OneMore(log: seq<Sent>, taken: nat, read: Bytes, plaintext: Bytes)
    requires Prefixed(log, taken, read, plaintext) && taken < |log|
    ensures Prefixed(log, taken + 1, read, plaintext + log[taken].plaintext)
  {
    assert Texts(log)[..taken + 1] == Texts(log)[..taken] + [log[taken].plaintext];
    FlattenSnoc(Texts(log)[..taken], log[taken].plaintext);
    ConcatAssoc(read, plaintext, log[taken].plaintext);
  }

  lemma PrefixReads(log: seq<Sent>, taken: nat, read: Bytes, plaintext: Bytes)
    requires Prefixed(log, taken, read, plaintext)
    ensures Prefixed(log, taken, read + plaintext, [])
  {
    assert (read + plaintext) + [] == read + plaintext;
  }

  lemma PrefixLogs(log: seq<Sent>, m: Sent, taken: nat, read: Bytes, plaintext: Bytes)
    requires Prefixed(log, taken, read, plaintext)
    ensures Prefixed(log + [m], taken, read, plaintext)
  {
    assert Texts(log + [m])[..taken] == Texts(log)[..taken];
  }

  /** One of the seal operations of a direction had this nonce, plaintext and associated data. */
  predicate Sealed(log: seq<Sent>, nonce: Bytes, text: Bytes, ad: Bytes) {
    exists i :: 0 <= i < |log| && log[i].plaintext == text && log[i].nonce == nonce && ad == Pack(i, SEQ_LEN)
  }

  /** Its number tells which. */
  lemma {:induction false} SealedNumber(log: seq<Sent>, nonce: Bytes, text: Bytes, n: nat)
    requires |log| <= LIMIT_64 && n < LIMIT_64 && Sealed(log, nonce, text, Pack(n, SEQ_LEN))
    ensures n < |log| && log[n].plaintext == text
  {
    var i :| 0 <= i < |log| && log[i].plaintext == text && log[i].nonce == nonce
        && Pack(n, SEQ_LEN) == Pack(i, SEQ_LEN);
    Capacities();
    PackInjective(n, i, SEQ_LEN);
  }

  // ---- the server end ----

  /** The server core has only ever seen this session's client. */
  ghost predicate ServerInSession(h: Setup, s: ServerCore)
    requires h.Honest()
  {
    match s.phase
    case WaitClientHello => s.draws == 0 && s.recvSeq == 0 && s.signings == [] && s.plaintext == []
    case ServerEstablished =>
      && s.clientWriteKey == Some(h.Keys().clientWrite)
      && s.serverWriteKey == Some(h.Keys().serverWrite)
      && s.signings == [Signing(h.ClientShare(), h.ephemeral(0))]
  }

  /** The payloads of the client's stream that the server has not taken yet. */
  ghost function AwaitedByServer(h: Setup, s: ServerCore, log: seq<Sent>): seq<Bytes>
    requires h.Honest() && s.recvSeq <= |log|
  {
    var records := Records(h.suite, h.Keys().clientWrite, log);
    if s.phase == WaitClientHello then [h.ClientHello()] + records else records[s.recvSeq..]
  }

  /** From `s` to `t` the server took the records `s.recvSeq .. t.recvSeq` of the
      log, in order, and the ClientHello first if it was still waiting for it. */
  ghost predicate ServerTook(h: Setup, s: ServerCore, t: ServerCore, log: seq<Sent>)
    requires h.Honest()
  {
    && ServerInSession(h, t)
    && s.recvSeq <= t.recvSeq <= |log|
    && (s.phase == ServerEstablished ==> t.phase == ServerEstablished)
    && t.sendSeq == s.sendSeq
    && t.plaintext == s.plaintext + Flatten(Texts(log)[s.recvSeq..t.recvSeq])
    && t.pendingWire == s.pendingWire + (if s.phase == t.phase then [] else FrameAll(h.Flight()))
  }

  lemma FlightFrames(h: Setup)
    requires h.Honest()
    ensures FramedMessage([Field(TAG_X25519_PUBLIC, h.ServerShare())]) == Some(Frame(h.Flight()[0]))
    ensures FramedMessage(h.AuthList()) == Some(Frame(h.Flight()[1]))
    ensures FrameAll(h.Flight()) == Frame(h.Flight()[0]) + Frame(h.Flight()[1])
    ensures Acceptable(h.Flight()) && Acceptable([h.ClientHello()])
  {
    HelloFits(h.ServerShare());
    HelloFits(h.ClientShare());
    FrameAllSnoc([h.Flight()[0]], h.Flight()[1]);
    assert [h.Flight()[0]] + [h.Flight()[1]] == h.Flight();
    assert FrameAll([h.Flight()[0]]) == Frame(h.Flight()[0]) + FrameAll([]);
  }

  lemma HelloDecodes(public: Key32)
    ensures Decode(HelloMessage(public)) == Some([Field(TAG_X25519_PUBLIC, public)])
    ensures First([Field(TAG_X25519_PUBLIC, public)], TAG_X25519_PUBLIC) == Some(public)
  {
    HelloFits(public);
    DecodeEncode([Field(TAG_X25519_PUBLIC, public)]);
  }

  lemma ServerTakesHello(h: Setup, s: ServerCore, log: seq<Sent>)
    requires h.Honest() && ServerInSession(h, s) && s.phase == WaitClientHello
    ensures var step := ServerHandler(h.ServerEnd())(s, h.ClientHello());
      step.error.None? && step.core.phase == ServerEstablished && step.core.recvSeq == 0
      && ServerTook(h, s, step.core, log)
  {
    var env := h.ServerEnd();
    HelloDecodes(h.ClientShare());
    FlightFrames(h);
    assert HandleClientHello(env, s, h.ClientHello()) == AnswerHello(env, s, h.ClientShare());
    assert Texts(log)[0..0] == [];
    ConcatAssoc(s.pendingWire, Frame(h.Flight()[0]), Frame(h.Flight()[1]));
  }

  lemma ServerTakesRecord(h: Setup, s: ServerCore, log: seq<Sent>)
    requires h.Honest() && ServerInSession(h, s) && s.phase == ServerEstablished
    requires Sendable(log) && s.recvSeq < |log|
    ensures var step := ServerHandler(h.ServerEnd())(s, Records(h.suite, h.Keys().clientWrite, log)[s.recvSeq]);
      step.error.None? && step.core.recvSeq == s.recvSeq + 1
      && step.core.phase == ServerEstablished && ServerTook(h, s, step.core, log)
  {
    NextRecord(h.suite, h.Keys().clientWrite, log, s.recvSeq);
    FlattenSlice(Texts(log), s.recvSeq, s.recvSeq + 1);
  }

  lemma ServerTookTwice(h: Setup, s: ServerCore, m: ServerCore, t: ServerCore, log: seq<Sent>)
    requires h.Honest() && ServerTook(h, s, m, log) && ServerTook(h, m, t, log)
    ensures ServerTook(h, s, t, log)
  {
    SliceJoin(s.plaintext, Texts(log), s.recvSeq, m.recvSeq, t.recvSeq);
    NothingAdded(s.pendingWire);
    NothingAdded(m.pendingWire);
  }

  lemma NothingAdded(x: Bytes)
    ensures x + [] == x
  {
  }

  lemma AwaitedByServerAcceptable(h: Setup, s: ServerCore, log: seq<Sent>)
    requires h.Honest() && s.recvSeq <= |log| && Sendable(log)
    ensures Acceptable(AwaitedByServer(h, s, log))
  {
    RecordsAcceptable(h.suite, h.Keys().clientWrite, log);
    FlightFrames(h);
  }

  lemma ServerTakesHead(h: Setup, s: ServerCore, log: seq<Sent>)
    requires h.Honest() && ServerInSession(h, s) && Sendable(log) && s.recvSeq <= |log|
    requires AwaitedByServer(h, s, log) != []
    ensures var step := ServerHandler(h.ServerEnd())(s, AwaitedByServer(h, s, log)[0]);
      step.error.None? && ServerTook(h, s, step.core, log)
      && AwaitedByServer(h, step.core, log) == AwaitedByServer(h, s, log)[1..]
  {
    var records := Records(h.suite, h.Keys().clientWrite, log);
    if s.phase == WaitClientHello {
      ServerTakesHello(h, s, log);
      assert ([h.ClientHello()] + records)[1..] == records[0..];
    } else {
      ServerTakesRecord(h, s, log);
      NextRecord(h.suite, h.Keys().clientWrite, log, s.recvSeq);
    }
  }

  /** Whatever part of the client's stream has arrived, feeding it does not raise,
      gives the plaintexts in order, and leaves exactly the frames not yet taken. */
  lemma {:induction false} ServerDrains(h: Setup, s: ServerCore, buffer: Bytes, later: Bytes, log: seq<Sent>)
    requires h.Honest() && ServerInSession(h, s) && s.recvSeq <= |log| && Sendable(log)
    requires buffer + later == FrameAll(AwaitedByServer(h, s, log))
    ensures var fed := Drain(ServerHandler(h.ServerEnd()), s, buffer);
      && fed.error.None?
      && ServerTook(h, s, fed.core, log)
      && fed.buffer + later == FrameAll(AwaitedByServer(h, fed.core, log))
    decreases |buffer|
  {
    var awaited := AwaitedByServer(h, s, log);
    AwaitedByServerAcceptable(h, s, log);
    PopOfFrames(buffer, later, awaited);
    var pop := PopFrom(buffer);
    if pop.Popped? {
      ServerTakesHead(h, s, log);
      var step := ServerHandler(h.ServerEnd())(s, pop.payload);
      ServerDrains(h, step.core, pop.rest, later, log);
      ServerTookTwice(h, s, step.core, Drain(ServerHandler(h.ServerEnd()), step.core, pop.rest).core, log);
    } else {
      assert Texts(log)[s.recvSeq..s.recvSeq] == [];
    }
  }

  // ---- the client end ----

  ghost predicate ClientInSession(h: Setup, c: ClientCore)
    requires h.Honest()
  {
    match c.phase
    case WaitServerHello => c.recvSeq == 0 && c.plaintext == []
    case WaitServerAuth => c.recvSeq == 0 && c.plaintext == [] && c.serverPublic == Some(h.ServerShare())
    case ClientEstablished =>
      && c.serverPublic == Some(h.ServerShare())
      && c.clientWriteKey == Some(h.Keys().clientWrite)
      && c.serverWriteKey == Some(h.Keys().serverWrite)
  }

  ghost function AwaitedByClient(h: Setup, c: ClientCore, log: seq<Sent>): seq<Bytes>
    requires h.Honest() && c.recvSeq <= |log|
  {
    var records := Records(h.suite, h.Keys().serverWrite, log);
    match c.phase
    case WaitServerHello => h.Flight() + records
    case WaitServerAuth => [h.Flight()[1]] + records
    case ClientEstablished => records[c.recvSeq..]
  }

  function Rank(p: ClientPhase): nat {
    match p case WaitServerHello => 0 case WaitServerAuth => 1 case ClientEstablished => 2
  }

  ghost predicate ClientTook(h: Setup, c: ClientCore, d: ClientCore, log: seq<Sent>)
    requires h.Honest()
  {
    && ClientInSession(h, d)
    && c.recvSeq <= d.recvSeq <= |log|
    && Rank(c.phase) <= Rank(d.phase)
    && d.sendSeq == c.sendSeq
    && d.plaintext == c.plaintext + Flatten(Texts(log)[c.recvSeq..d.recvSeq])
    && d.pendingWire == c.pendingWire
  }

  lemma {:induction false} SelectCertificates(certificates: seq<Bytes>)
    ensures Select(CertificateFields(certificates), TAG_CERTIFICATE) == certificates
    ensures Select(CertificateFields(certificates), TAG_CERTIFICATE_VERIFY) == []
  {
    if certificates != [] {
      SelectCertificates(certificates[1..]);
      var fields := CertificateFields(certificates);
      assert fields[1..] == CertificateFields(certificates[1..]);
      assert [certificates[0]] + certificates[1..] == certificates;
    }
  }

  lemma AuthDecodes(h: Setup)
    requires h.Honest()
    ensures Decode(h.Flight()[1]) == Some(h.AuthList())
    ensures Select(h.AuthList(), TAG_CERTIFICATE) == [h.identity.certificate] + h.identity.intermediates
    ensures Select(h.AuthList(), TAG_CERTIFICATE_VERIFY)
      == [h.suite.sign(h.identity.privateKey, SignedMessage(h.ClientShare(), h.ServerShare()), h.ephemeral(0).salt)]
  {
    var certificates := [h.identity.certificate] + h.identity.intermediates;
    var signature := h.suite.sign(h.identity.privateKey, SignedMessage(h.ClientShare(), h.ServerShare()),
                                  h.ephemeral(0).salt);
    var last := [Field(TAG_CERTIFICATE_VERIFY, signature)];
    DecodeEncode(h.AuthList());
    SelectCertificates(certificates);
    SelectAppend(CertificateFields(certificates), last, TAG_CERTIFICATE);
    SelectAppend(CertificateFields(certificates), last, TAG_CERTIFICATE_VERIFY);
    assert Select(last, TAG_CERTIFICATE) == [] && Select(last, TAG_CERTIFICATE_VERIFY) == [signature];
  }

  /** The client accepts the honest ServerAuth and derives the server's secret. */
  lemma {:induction false} AuthAccepted(h: Setup)
    requires h.Honest()
    ensures CheckServerAuth(h.ClientEnd(), h.ServerShare(), h.Flight()[1])
      == Ok(h.suite.exchange(h.ephemeral(0).privateKey, h.ClientShare()).value)
  {
    AuthDecodes(h);
    var certificates := [h.identity.certificate] + h.identity.intermediates;
    assert certificates[1..] == h.identity.intermediates && certificates[0] == h.identity.certificate;
    assert forall i :: 0 < i < |certificates| ==> certificates[i] == h.identity.intermediates[i - 1];
  }

  lemma ClientTakesHello(h: Setup, c: ClientCore, log: seq<Sent>)
    requires h.Honest() && ClientInSession(h, c) && c.phase == WaitServerHello
    ensures var step := ClientHandler(h.ClientEnd())(c, h.Flight()[0]);
      step.error.None? && step.core.phase == WaitServerAuth && ClientTook(h, c, step.core, log)
  {
    HelloDecodes(h.ServerShare());
    assert Texts(log)[0..0] == [];
  }

  lemma ClientTakesAuth(h: Setup, c: ClientCore, log: seq<Sent>)
    requires h.Honest() && ClientInSession(h, c) && c.phase == WaitServerAuth
    ensures var step := ClientHandler(h.ClientEnd())(c, h.Flight()[1]);
      step.error.None? && step.core.phase == ClientEstablished && step.core.recvSeq == 0
          && ClientTook(h, c, step.core, log)
  {
    AuthAccepted(h);
    assert Texts(log)[0..0] == [];
  }

  lemma ClientTakesRecord(h: Setup, c: ClientCore, log: seq<Sent>)
    requires h.Honest() && ClientInSession(h, c) && c.phase == ClientEstablished
    requires Sendable(log) && c.recvSeq < |log|
    ensures var step := ClientHandler(h.ClientEnd())(c, Records(h.suite, h.Keys().serverWrite, log)[c.recvSeq]);
      step.error.None? && step.core.recvSeq == c.recvSeq + 1
      && step.core.phase == ClientEstablished && ClientTook(h, c, step.core, log)
  {
    NextRecord(h.suite, h.Keys().serverWrite, log, c.recvSeq);
    FlattenSlice(Texts(log), c.recvSeq, c.recvSeq + 1);
  }

  lemma ClientTookTwice(h: Setup, c: ClientCore, m: ClientCore, d: ClientCore, log: seq<Sent>)
    requires h.Honest() && ClientTook(h, c, m, log) && ClientTook(h, m, d, log)
    ensures ClientTook(h, c, d, log)
  {
    SliceJoin(c.plaintext, Texts(log), c.recvSeq, m.recvSeq, d.recvSeq);
  }

  lemma AwaitedByClientAcceptable(h: Setup, c: ClientCore, log: seq<Sent>)
    requires h.Honest() && c.recvSeq <= |log| && Sendable(log)
    ensures Acceptable(AwaitedByClient(h, c, log))
  {
    RecordsAcceptable(h.suite, h.Keys().serverWrite, log);
    FlightFrames(h);
  }

  lemma FlightSplits(hello: Bytes, auth: Bytes, records: seq<Bytes>)
    ensures ([hello, auth] + records)[0] == hello && ([hello, auth] + records)[1..] == [auth] + records
    ensures ([auth] + records)[0] == auth && ([auth] + records)[1..] == records[0..]
  {
  }

  lemma ClientTakesHead(h: Setup, c: ClientCore, log: seq<Sent>)
    requires h.Honest() && ClientInSession(h, c) && Sendable(log) && c.recvSeq <= |log|
    requires AwaitedByClient(h, c, log) != []
    ensures var step := ClientHandler(h.ClientEnd())(c, AwaitedByClient(h, c, log)[0]);
      step.error.None? && ClientTook(h, c, step.core, log)
      && AwaitedByClient(h, step.core, log) == AwaitedByClient(h, c, log)[1..]
  {
    var records := Records(h.suite, h.Keys().serverWrite, log);
    FlightSplits(h.Flight()[0], h.Flight()[1], records);
    match c.phase {
      case WaitServerHello => ClientTakesHello(h, c, log);
      case WaitServerAuth => ClientTakesAuth(h, c, log);
      case ClientEstablished =>
        ClientTakesRecord(h, c, log);
        NextRecord(h.suite, h.Keys().serverWrite, log, c.recvSeq);
    }
  }

  /** The same for the client and any part of the server's stream. */
  lemma {:induction false} ClientDrains(h: Setup, c: ClientCore, buffer: Bytes, later: Bytes, log: seq<Sent>)
    requires h.Honest() && ClientInSession(h, c) && c.recvSeq <= |log| && Sendable(log)
    requires buffer + later == FrameAll(AwaitedByClient(h, c, log))
    ensures var fed := Drain(ClientHandler(h.ClientEnd()), c, buffer);
      && fed.error.None?
      && ClientTook(h, c, fed.core, log)
      && fed.buffer + later == FrameAll(AwaitedByClient(h, fed.core, log))
    decreases |buffer|
  {
    var awaited := AwaitedByClient(h, c, log);
    AwaitedByClientAcceptable(h, c, log);
    PopOfFrames(buffer, later, awaited);
    var pop := PopFrom(buffer);
    if pop.Popped? {
      ClientTakesHead(h, c, log);
      var step := ClientHandler(h.ClientEnd())(c, pop.payload);
      ClientDrains(h, step.core, pop.rest, later, log);
      ClientTookTwice(h, c, step.core, Drain(ClientHandler(h.ClientEnd()), step.core, pop.rest).core, log);
    } else {
      assert Texts(log)[c.recvSeq..c.recvSeq] == [];
    }
  }
}
