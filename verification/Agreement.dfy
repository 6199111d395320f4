/** Handshake agreement: what a client that reaches ESTABLISHED knows, against any
    network and beside any number of runs of the identity holder, when signatures
    under the identity key cannot be forged. */
module Agreement {
  import opened Wire
  import opened Framing
  import opened Messages
  import opened Crypto
  import opened Connection
  import opened Session

  /** One server connection of the identity holder, with its own randomness, the texts its
      application has protected and the bytes it has read. */
  datatype ServerRun = ServerRun(core: ServerCore, buffer: Bytes, ephemeral: nat -> Ephemeral, log: seq<Sent>,
                                 read: Bytes)

  /** One client and any number of server runs. Between them there is no channel: the
      network feeds each of them whatever it likes. */
  datatype World = World(client: ClientCore, clientBuffer: Bytes, clientLog: seq<Sent>, clientRead: Bytes,
                         servers: seq<ServerRun>)

  datatype Parties = Parties(client: ClientEnv, identity: Identity)
  {
    function Suite(): Suite {
      client.suite
    }

    function IdentityKey(): Bytes {
      client.suite.rsaPublic(identity.privateKey)
    }

    /** The laws used; the root vouches for the name only with the identity's key;
        and the identity's certificates fit into one frame. */
    ghost predicate Assumed() {
      && ExchangeCommutes(client.suite)
      && (forall others, leaf ::
            client.suite.chainAccepted(client.root, others, leaf, client.dnsName) && client.suite.rsaKey(leaf).Some?
            ==> client.suite.rsaKey(leaf).value == IdentityKey())
      && (forall message, salt ::
            FramedMessage(AuthFields(identity, client.suite.sign(identity.privateKey, message, salt))).Some?)
    }
  }

  /** A run of the identity holder has signed this message. */
  predicate Signed(s: Suite, servers: seq<ServerRun>, message: Bytes) {
    exists i, j :: 0 <= i < |servers| && 0 <= j < |servers[i].core.signings|
      && message == MessageOf(s, servers[i].core.signings[j])
  }

  function MessageOf(s: Suite, signing: Signing): Bytes {
    SignedMessage(signing.clientPublic, s.publicKey(signing.ephemeral.privateKey))
  }

  // ---- the ideal suite ----

  /** One of the two keys of the exchange between this client and an ephemeral of a run. */
  predicate KeyWith(p: Parties, ephemeral: Ephemeral, key: Bytes) {
    var secret := p.Suite().exchange(ephemeral.privateKey, ClientShare(p.client));
    secret.Some? &&
    (key == DeriveSessionKeys(p.Suite(), secret.value).clientWrite
     || key == DeriveSessionKeys(p.Suite(), secret.value).serverWrite)
  }

  /** A key that only this client and a run of the identity holder can know. */
  ghost predicate Guarded(p: Parties, w: World, key: Bytes) {
    exists i, n: nat :: 0 <= i < |w.servers| && KeyWith(p, w.servers[i].ephemeral(n), key)
  }

  /** The client or a run has sealed this under the key. */
  predicate SealedUnder(w: World, key: Bytes, nonce: Bytes, text: Bytes, ad: Bytes) {
    || (w.client.clientWriteKey == Some(key) && Sealed(w.clientLog, nonce, text, ad))
    || (exists i ::
          0 <= i < |w.servers| && w.servers[i].core.serverWriteKey == Some(key)
          && Sealed(w.servers[i].log, nonce, text, ad))
  }

  /** Ideal signatures: under the identity key only messages that some run has signed by
      now verify. Ideal integrity: under a guarded key only what has been sealed opens. */
  ghost function Ideal(p: Parties, w: World): Suite {
    p.Suite().(verify := IdealVerify(p, w), open := IdealOpen(p, w))
  }

  ghost function IdealVerify(p: Parties, w: World): (Bytes, Bytes, Bytes) -> bool {
    (key: Bytes, signature: Bytes, message: Bytes) =>
      p.Suite().verify(key, signature, message)
      && (key == p.IdentityKey() ==> Signed(p.Suite(), w.servers, message))
  }

  ghost function IdealOpen(p: Parties, w: World): (Bytes, Nonce, Bytes, Bytes) -> Option<Bytes> {
    (key: Bytes, nonce: Nonce, sealed: Bytes, ad: Bytes) =>
      match p.Suite().open(key, nonce, sealed, ad)
      case None => None
      case Some(text) => if Guarded(p, w, key) && !SealedUnder(w, key, nonce, text, ad) then None else Some(text)
  }

  // ---- runs ----

  datatype Event =
    | Accept(ephemeral: nat -> Ephemeral)     // the identity holder starts another run
    | FeedServer(run: nat, data: Bytes)
    | FeedClient(data: Bytes)
    | ClientProtects(message: Sent)
    | ServerProtects(run: nat, message: Sent)
    | ClientReads
    | ServerReads(run: nat)

  ghost function IdealServer(p: Parties, w: World, run: ServerRun): ServerEnv {
    ServerEnv(Ideal(p, w), p.identity, run.ephemeral)
  }

  ghost function IdealClient(p: Parties, w: World): ClientEnv {
    p.client.(suite := Ideal(p, w))
  }

  /** What one event does to the run it is about. */
  ghost function NextRun(p: Parties, w: World, run: ServerRun, event: Event): ServerRun {
    match event
    case FeedServer(_, data) =>
      var fed := Feed(ServerHandler(IdealServer(p, w, run)), run.core, run.buffer, data);
      run.(core := fed.core, buffer := fed.buffer)
    case ServerProtects(_, m) =>
      var core := ServerProtect(IdealServer(p, w, run), run.core, m.plaintext, m.nonce).0;
      run.(core := core, log := if core.sendSeq > run.core.sendSeq then run.log + [m] else run.log)
    case ServerReads(_) =>
      run.(read := run.read + run.core.plaintext, core := run.core.(plaintext := []))
    case _ => run
  }

  /** One event; exceptions are dropped and the caller goes on. A seal operation is logged
      when the counter moved, even if framing the record then failed. */
  ghost function Next(p: Parties, w: World, event: Event): World {
    match event
    case Accept(ephemeral) => w.(servers := w.servers + [ServerRun(FRESH_SERVER, [], ephemeral, [], [])])
    case FeedClient(data) =>
      var fed := Feed(ClientHandler(IdealClient(p, w)), w.client, w.clientBuffer, data);
      w.(client := fed.core, clientBuffer := fed.buffer)
    case ClientProtects(m) =>
      var core := ClientProtect(p.client, w.client, m.plaintext, m.nonce).0;
      w.(client := core, clientLog := if core.sendSeq > w.client.sendSeq then w.clientLog + [m] else w.clientLog)
    case ClientReads => w.(clientRead := w.clientRead + w.client.plaintext, client := w.client.(plaintext := []))
    case FeedServer(i, _) =>
      if i < |w.servers| then w.(servers := w.servers[i := NextRun(p, w, w.servers[i], event)]) else w
    case ServerProtects(i, _) =>
      if i < |w.servers| then w.(servers := w.servers[i := NextRun(p, w, w.servers[i], event)]) else w
    case ServerReads(i) =>
      if i < |w.servers| then w.(servers := w.servers[i := NextRun(p, w, w.servers[i], event)]) else w
  }

  ghost function Run(p: Parties, w: World, events: seq<Event>): World
    decreases |events|
  {
    if events == [] then w else Run(p, Next(p, w, events[0]), events[1..])
  }

  function Start(p: Parties): World {
    World(FreshClient(p.client), [], [], [], [])
  }

  // ---- the server side: a signature is followed by the keys it stands for ----

  /** For every signature made: if the exchange it announced succeeds at all, this
      connection is established with the keys of that exchange. */
  ghost predicate SigningsHonoured(s: Suite, core: ServerCore) {
    forall j :: 0 <= j < |core.signings| ==> Honoured(s, core, core.signings[j])
  }

  ghost predicate Honoured(s: Suite, core: ServerCore, signing: Signing) {
    var secret := s.exchange(signing.ephemeral.privateKey, signing.clientPublic);
    secret.Some? ==>
      && core.phase == ServerEstablished
      && core.clientWriteKey == Some(DeriveSessionKeys(s, secret.value).clientWrite)
      && core.serverWriteKey == Some(DeriveSessionKeys(s, secret.value).serverWrite)
  }

  /** An environment of the identity holder, whatever its `open` and `verify`. */
  ghost predicate Holds(p: Parties, env: ServerEnv) {
    env.identity == p.identity && env.suite == p.Suite().(open := env.suite.open, verify := env.suite.verify)
  }

  lemma HandlerHonours(p: Parties, env: ServerEnv, core: ServerCore, record: Bytes)
    requires p.Assumed() && Holds(p, env) && SigningsHonoured(p.Suite(), core)
    ensures var step := ServerHandler(env)(core, record);
      SigningsHonoured(p.Suite(), step.core) && core.signings <= step.core.signings
  {
    var next := ServerHandler(env)(core, record).core;
    forall j | 0 <= j < |next.signings|
      ensures Honoured(p.Suite(), next, next.signings[j])
    {
      if j < |core.signings| {
        assert Honoured(p.Suite(), core, core.signings[j]);
      }
    }
  }

  lemma {:induction false} DrainHonours(p: Parties, env: ServerEnv, core: ServerCore, buffer: Bytes)
    requires p.Assumed() && Holds(p, env) && SigningsHonoured(p.Suite(), core)
    ensures var fed := Drain(ServerHandler(env), core, buffer);
      SigningsHonoured(p.Suite(), fed.core) && core.signings <= fed.core.signings
    decreases |buffer|
  {
    var pop := PopFrom(buffer);
    if pop.Popped? {
      HandlerHonours(p, env, core, pop.payload);
      var step := ServerHandler(env)(core, pop.payload);
      if step.error.None? {
        DrainHonours(p, env, step.core, pop.rest);
      }
    }
  }

  lemma NextRunHonours(p: Parties, w: World, run: ServerRun, event: Event)
    requires p.Assumed() && SigningsHonoured(p.Suite(), run.core)
    ensures SigningsHonoured(p.Suite(), NextRun(p, w, run, event).core)
    ensures run.core.signings <= NextRun(p, w, run, event).core.signings
  {
    if event.FeedServer? {
      DrainHonours(p, IdealServer(p, w, run), run.core, run.buffer + event.data);
    } else {
      var next := NextRun(p, w, run, event);
      forall j | 0 <= j < |next.core.signings|
        ensures Honoured(p.Suite(), next.core, next.core.signings[j])
      {
        assert Honoured(p.Suite(), run.core, run.core.signings[j]);
      }
    }
  }

  // ---- the client side: ESTABLISHED means a checked signature ----

  /** What an established client has checked. */
  ghost predicate ClientChecked(p: Parties, servers: seq<ServerRun>, c: ClientCore) {
    c.phase == ClientEstablished ==>
      && c.serverPublic.Some? && |c.serverPublic.value| == 32
      && p.Suite().exchange(p.client.privateKey, c.serverPublic.value).Some?
      && (var keys := DeriveSessionKeys(p.Suite(), p.Suite().exchange(p.client.privateKey, c.serverPublic.value).value);
          c.clientWriteKey == Some(keys.clientWrite) && c.serverWriteKey == Some(keys.serverWrite))
      && Signed(p.Suite(), servers, SignedMessage(ClientShare(p.client), c.serverPublic.value))
  }

  lemma HandlerChecks(p: Parties, w: World, c: ClientCore, record: Bytes)
    requires p.Assumed() && ClientChecked(p, w.servers, c)
    ensures ClientChecked(p, w.servers, ClientHandler(IdealClient(p, w))(c, record).core)
  {
    var env := IdealClient(p, w);
    if c.phase == WaitServerAuth && c.serverPublic.Some? {
      var checked := CheckServerAuth(env, c.serverPublic.value, record);
      if checked.Ok? {
        var certificates := Select(Decode(record).value, TAG_CERTIFICATE);
        assert p.Suite().rsaKey(certificates[0]) == Some(p.IdentityKey());
      }
    }
  }

  lemma {:induction false} DrainChecks(p: Parties, w: World, c: ClientCore, buffer: Bytes)
    requires p.Assumed() && ClientChecked(p, w.servers, c)
    ensures ClientChecked(p, w.servers, Drain(ClientHandler(IdealClient(p, w)), c, buffer).core)
    decreases |buffer|
  {
    var pop := PopFrom(buffer);
    if pop.Popped? {
      HandlerChecks(p, w, c, pop.payload);
      var step := ClientHandler(IdealClient(p, w))(c, pop.payload);
      if step.error.None? {
        DrainChecks(p, w, step.core, pop.rest);
      }
    }
  }

  // ---- whole runs ----

  ghost predicate Inv(p: Parties, w: World) {
    && (forall i :: 0 <= i < |w.servers| ==> SigningsHonoured(p.Suite(), w.servers[i].core))
    && ClientChecked(p, w.servers, w.client)
  }

  /** Signatures are never unmade. */
  lemma SignedGrows(s: Suite, before: seq<ServerRun>, after: seq<ServerRun>, message: Bytes)
    requires |before| <= |after|
    requires forall i :: 0 <= i < |before| ==> before[i].core.signings <= after[i].core.signings
    requires Signed(s, before, message)
    ensures Signed(s, after, message)
  {
    var i, j :| 0 <= i < |before| && 0 <= j < |before[i].core.signings|
        && message == MessageOf(s, before[i].core.signings[j]);
    assert after[i].core.signings[j] == before[i].core.signings[j];
  }

  lemma NextKeepsInv(p: Parties, w: World, event: Event)
    requires p.Assumed() && Inv(p, w)
    ensures Inv(p, Next(p, w, event))
  {
    var t := Next(p, w, event);
    match event
    case FeedClient(data) =>
      DrainChecks(p, w, w.client, w.clientBuffer + data);
    case ClientProtects(_) =>
    case ClientReads =>
    case Accept(_) =>
      SignedStays(p, w, t);
    case FeedServer(i, _) => RunKeeps(p, w, i, event);
    case ServerProtects(i, _) => RunKeeps(p, w, i, event);
    case ServerReads(i) => RunKeeps(p, w, i, event);
  }

  lemma RunKeeps(p: Parties, w: World, i: nat, event: Event)
    requires p.Assumed() && Inv(p, w)
    ensures i < |w.servers| ==> Inv(p, w.(servers := w.servers[i := NextRun(p, w, w.servers[i], event)]))
  {
    if i < |w.servers| {
      NextRunHonours(p, w, w.servers[i], event);
      SignedStays(p, w, w.(servers := w.servers[i := NextRun(p, w, w.servers[i], event)]));
    }
  }

  lemma SignedStays(p: Parties, w: World, t: World)
    requires ClientChecked(p, w.servers, w.client) && t.client == w.client && |w.servers| <= |t.servers|
    requires forall i :: 0 <= i < |w.servers| ==> w.servers[i].core.signings <= t.servers[i].core.signings
    ensures ClientChecked(p, t.servers, t.client)
  {
    if w.client.phase == ClientEstablished {
      SignedGrows(p.Suite(), w.servers, t.servers, SignedMessage(ClientShare(p.client), w.client.serverPublic.value));
    }
  }

  lemma {:induction false} RunKeepsInv(p: Parties, w: World, events: seq<Event>)
    requires p.Assumed() && Inv(p, w)
    ensures Inv(p, Run(p, w, events))
    decreases |events|
  {
    if events != [] {
      NextKeepsInv(p, w, events[0]);
      RunKeepsInv(p, Next(p, w, events[0]), events[1..]);
    }
  }

  /** Two 32-byte shares are recovered from their concatenation. */
  lemma {:induction false} SharesUnambiguous(a: Key32, b: Bytes, c: Key32, d: Bytes)
    requires SignedMessage(a, b) == SignedMessage(c, d)
    ensures a == c && b == d
  {
    assert SignedMessage(a, b)[..32] == a && SignedMessage(a, b)[32..] == b;
    assert SignedMessage(c, d)[..32] == c && SignedMessage(c, d)[32..] == d;
  }

  /** The run's j-th signature answered this client's share with the share the client holds. */
  predicate Answered(p: Parties, c: ClientCore, core: ServerCore, j: int) {
    && 0 <= j < |core.signings|
    && core.signings[j].clientPublic == ClientShare(p.client)
    && c.serverPublic == Some(p.Suite().publicKey(core.signings[j].ephemeral.privateKey))
  }

  /** This run answered this client, its own exchange succeeded, and both hold the same
      keys in the same roles. */
  ghost predicate AgreesWith(p: Parties, c: ClientCore, run: ServerRun) {
    && (exists j :: Answered(p, c, run.core, j))
    && run.core.phase == ServerEstablished
    && c.clientWriteKey == run.core.clientWriteKey && c.clientWriteKey.Some?
    && c.serverWriteKey == run.core.serverWriteKey && c.serverWriteKey.Some?
  }

  /** Whatever an established client has checked, some run stands behind it. */
  lemma CheckedAgrees(p: Parties, w: World, c: ClientCore) returns (i: nat, j: nat)
    requires p.Assumed() && Inv(p, w) && ClientChecked(p, w.servers, c) && c.phase == ClientEstablished
    ensures i < |w.servers| && AgreesWith(p, c, w.servers[i]) && Answered(p, c, w.servers[i].core, j)
    ensures p.Suite().exchange(w.servers[i].core.signings[j].ephemeral.privateKey, ClientShare(p.client))
      == p.Suite().exchange(p.client.privateKey, c.serverPublic.value)
  {
    var share := c.serverPublic.value;
    i, j :| 0 <= i < |w.servers| && 0 <= j < |w.servers[i].core.signings|
      && SignedMessage(ClientShare(p.client), share) == MessageOf(p.Suite(), w.servers[i].core.signings[j]);
    var signing := w.servers[i].core.signings[j];
    SharesUnambiguous(ClientShare(p.client), share, signing.clientPublic,
                      p.Suite().publicKey(signing.ephemeral.privateKey));
    assert Honoured(p.Suite(), w.servers[i].core, signing);
    assert Answered(p, c, w.servers[i].core, j);
  }

  lemma StartInv(p: Parties)
    ensures Inv(p, Start(p))
  {
  }

  /** Handshake agreement: in every run, whatever the network feeds to whom, an
      established client agrees with some run of the identity holder. */
  lemma {:induction false} HandshakeAgreement(p: Parties, events: seq<Event>)
    requires p.Assumed()
    ensures var w := Run(p, Start(p), events);
      w.client.phase == ClientEstablished ==>
        exists i :: 0 <= i < |w.servers| && AgreesWith(p, w.client, w.servers[i])
  {
    StartInv(p);
    RunKeepsInv(p, Start(p), events);
    var w := Run(p, Start(p), events);
    if w.client.phase == ClientEstablished {
      var i, j := CheckedAgrees(p, w, w.client);
    }
  }
}
