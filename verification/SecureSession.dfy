/** From the handshake to the last byte: beside any number of server runs and against any
    network, what an established client has accepted is the beginning of what the run it
    agrees with has protected, and the other way round. */
module SecureSession {
  import opened Wire
  import opened Framing
  import opened Crypto
  import opened RecordProtection
  import opened Connection
  import opened Session
  import opened Agreement

  // ---- the one assumption on a run ----

  /** No key of one run seals for another: server-write keys of different runs differ, and
      no server-write key is a client-write key. */
  predicate KeysApart(servers: seq<ServerRun>) {
    forall i, j :: 0 <= i < |servers| && 0 <= j < |servers| && servers[i].core.serverWriteKey.Some? ==>
      && (i != j ==> servers[i].core.serverWriteKey != servers[j].core.serverWriteKey)
      && servers[i].core.serverWriteKey != servers[j].core.clientWriteKey
  }

  // ---- what each end has accepted ----

  /** The counters count the seal operations. */
  predicate Counted(w: World) {
    && |w.clientLog| == w.client.sendSeq <= LIMIT_64
    && (w.client.phase != ClientEstablished ==> w.clientLog == [] && w.client.clientWriteKey.None?)
    && forall i :: 0 <= i < |w.servers| ==> |w.servers[i].log| == w.servers[i].core.sendSeq <= LIMIT_64
  }

  /** Of the client: before ESTABLISHED nothing; then a prefix of the log of whatever run
      holds its server-write key. */
  predicate ClientAccepted(w: World, c: ClientCore, read: Bytes) {
    if c.phase != ClientEstablished then c.recvSeq == 0 && c.plaintext == [] && read == []
    else forall i :: 0 <= i < |w.servers| && w.servers[i].core.serverWriteKey == c.serverWriteKey ==>
      Prefixed(w.servers[i].log, c.recvSeq, read, c.plaintext)
  }

  /** This run has answered the client's share, with an exchange that succeeds. */
  ghost predicate Ours(p: Parties, core: ServerCore) {
    exists j :: OursBy(p, core, j)
  }

  predicate OursBy(p: Parties, core: ServerCore, j: int) {
    && 0 <= j < |core.signings|
    && core.signings[j].clientPublic == ClientShare(p.client)
    && p.Suite().exchange(core.signings[j].ephemeral.privateKey, ClientShare(p.client)).Some?
  }

  /** What the client has sealed under a key. */
  function SealedByClient(w: World, key: Option<Bytes>): seq<Sent> {
    if key.Some? && w.client.clientWriteKey == key then w.clientLog else []
  }

  /** Of a run: before ESTABLISHED nothing; and if it has answered the client, a prefix of
      what the client has sealed under its client-write key. */
  ghost predicate ServerAccepted(p: Parties, w: World, s: ServerCore, read: Bytes) {
    && (s.phase == WaitClientHello ==>
          s.recvSeq == 0 && s.plaintext == [] && read == [] && s.clientWriteKey.None? && s.serverWriteKey.None?)
    && (Ours(p, s) ==> Prefixed(SealedByClient(w, s.clientWriteKey), s.recvSeq, read, s.plaintext))
  }

  /** Every signature was made with an ephemeral of the run. */
  ghost predicate Drawn(ephemeral: nat -> Ephemeral, core: ServerCore) {
    forall j :: 0 <= j < |core.signings| ==> IsDrawn(ephemeral, core.signings[j])
  }

  ghost predicate IsDrawn(ephemeral: nat -> Ephemeral, signing: Signing) {
    exists n: nat :: signing.ephemeral == ephemeral(n)
  }

  ghost predicate SessionInv(p: Parties, w: World) {
    && Agreement.Inv(p, w) && Counted(w)
    && ClientAccepted(w, w.client, w.clientRead)
    && forall i :: 0 <= i < |w.servers| ==> RunOk(p, w, w.servers[i])
  }

  ghost predicate RunOk(p: Parties, w: World, run: ServerRun) {
    Drawn(run.ephemeral, run.core) && ServerAccepted(p, w, run.core, run.read)
  }

  // ---- opening under a guarded key ----

  /** Under a guarded key, what a record opens to has been sealed, with the expected number. */
  lemma OpenedWasSealed(p: Parties, w: World, key: Bytes, n: nat, payload: Bytes) returns (nonce: Bytes)
    requires Guarded(p, w, key) && UnprotectRecord(Ideal(p, w), key, n, payload).Ok?
    ensures n < LIMIT_64
    ensures SealedUnder(w, key, nonce, UnprotectRecord(Ideal(p, w), key, n, payload).value, Pack(n, SEQ_LEN))
  {
    AcceptedRecord(Ideal(p, w), key, n, payload);
    nonce := payload[SEQ_LEN..SEQ_LEN + NONCE_LEN];
  }

  lemma SigningGuards(p: Parties, w: World, i: nat, core: ServerCore, j: int)
    requires i < |w.servers| && Drawn(w.servers[i].ephemeral, core) && OursBy(p, core, j)
    requires Honoured(p.Suite(), core, core.signings[j])
    ensures core.clientWriteKey.Some? && Guarded(p, w, core.clientWriteKey.value)
    ensures core.serverWriteKey.Some? && Guarded(p, w, core.serverWriteKey.value)
  {
    assert IsDrawn(w.servers[i].ephemeral, core.signings[j]);
    var n: nat :| core.signings[j].ephemeral == w.servers[i].ephemeral(n);
    assert KeyWith(p, w.servers[i].ephemeral(n), core.clientWriteKey.value);
    assert KeyWith(p, w.servers[i].ephemeral(n), core.serverWriteKey.value);
  }

  // ---- the client's side ----

  /** The one run that holds an established client's server-write key. */
  lemma TheRun(p: Parties, w: World, c: ClientCore) returns (i: nat)
    requires p.Assumed() && SessionInv(p, w) && ClientChecked(p, w.servers, c) && c.phase == ClientEstablished
    ensures i < |w.servers| && AgreesWith(p, c, w.servers[i])
    ensures Ours(p, w.servers[i].core) && Guarded(p, w, c.serverWriteKey.value)
  {
    var j;
    i, j := CheckedAgrees(p, w, c);
    assert OursBy(p, w.servers[i].core, j);
    assert RunOk(p, w, w.servers[i]);
    assert SigningsHonoured(p.Suite(), w.servers[i].core);
    SigningGuards(p, w, i, w.servers[i].core, j);
  }

  /** The client seals under no run's server-write key. */
  lemma ClientSealsElsewhere(p: Parties, w: World, i: nat)
    requires p.Assumed() && SessionInv(p, w) && KeysApart(w.servers)
    requires i < |w.servers| && w.servers[i].core.serverWriteKey.Some?
    ensures w.client.clientWriteKey != w.servers[i].core.serverWriteKey
  {
    if w.client.phase == ClientEstablished {
      var k := TheRun(p, w, w.client);
      assert w.servers[i].core.serverWriteKey != w.servers[k].core.clientWriteKey;
    }
  }

  /** What has been sealed under an established client's server-write key, with the number
      it expects, is the next of that run's log. */
  lemma ClientTakesNext(p: Parties, w: World, c: ClientCore, nonce: Bytes, text: Bytes)
    requires p.Assumed() && SessionInv(p, w) && KeysApart(w.servers)
    requires ClientChecked(p, w.servers, c) && c.phase == ClientEstablished && ClientAccepted(w, c, w.clientRead)
    requires c.recvSeq < LIMIT_64 && SealedUnder(w, c.serverWriteKey.value, nonce, text, Pack(c.recvSeq, SEQ_LEN))
    ensures forall i :: 0 <= i < |w.servers| && w.servers[i].core.serverWriteKey == c.serverWriteKey ==>
      Prefixed(w.servers[i].log, c.recvSeq + 1, w.clientRead, c.plaintext + text)
  {
    var i := TheRun(p, w, c);
    ClientSealsElsewhere(p, w, i);
    var k :| 0 <= k < |w.servers| && w.servers[k].core.serverWriteKey == c.serverWriteKey
      && Sealed(w.servers[k].log, nonce, text, Pack(c.recvSeq, SEQ_LEN));
    SealedNumber(w.servers[k].log, nonce, text, c.recvSeq);
    OneMore(w.servers[k].log, c.recvSeq, w.clientRead, c.plaintext);
  }

  lemma ClientTakesRecord(p: Parties, w: World, c: ClientCore, record: Bytes)
    requires p.Assumed() && SessionInv(p, w) && KeysApart(w.servers)
    requires ClientChecked(p, w.servers, c) && c.phase == ClientEstablished && ClientAccepted(w, c, w.clientRead)
    ensures var outcome := UnprotectRecord(Ideal(p, w), c.serverWriteKey.value, c.recvSeq, record);
      outcome.Ok? ==>
        forall i :: 0 <= i < |w.servers| && w.servers[i].core.serverWriteKey == c.serverWriteKey ==>
          Prefixed(w.servers[i].log, c.recvSeq + 1, w.clientRead, c.plaintext + outcome.value)
  {
    var outcome := UnprotectRecord(Ideal(p, w), c.serverWriteKey.value, c.recvSeq, record);
    if outcome.Ok? {
      var i := TheRun(p, w, c);
      var nonce := OpenedWasSealed(p, w, c.serverWriteKey.value, c.recvSeq, record);
      ClientTakesNext(p, w, c, nonce, outcome.value);
    }
  }

  lemma ClientStep(p: Parties, w: World, c: ClientCore, record: Bytes)
    requires p.Assumed() && SessionInv(p, w) && KeysApart(w.servers)
    requires ClientChecked(p, w.servers, c) && ClientAccepted(w, c, w.clientRead)
    ensures ClientAccepted(w, ClientHandler(IdealClient(p, w))(c, record).core, w.clientRead)
  {
    if c.phase == ClientEstablished {
      ClientTakesRecord(p, w, c, record);
    } else {
      forall i | 0 <= i < |w.servers|
        ensures Prefixed(w.servers[i].log, 0, [], [])
      {
        NothingTaken(w.servers[i].log);
      }
    }
  }

  /** What a feed leaves as it is. */
  predicate ClientKept(c: ClientCore, d: ClientCore) {
    && d.sendSeq == c.sendSeq
    && (d.phase != ClientEstablished ==> d.clientWriteKey == c.clientWriteKey)
    && (c.phase == ClientEstablished ==> d.phase == ClientEstablished && d.clientWriteKey == c.clientWriteKey)
  }

  lemma {:induction false} ClientDrains(p: Parties, w: World, c: ClientCore, buffer: Bytes)
    requires p.Assumed() && SessionInv(p, w) && KeysApart(w.servers)
    requires ClientChecked(p, w.servers, c) && ClientAccepted(w, c, w.clientRead)
    ensures var d := Drain(ClientHandler(IdealClient(p, w)), c, buffer).core;
      ClientAccepted(w, d, w.clientRead) && ClientKept(c, d)
    decreases |buffer|
  {
    var pop := PopFrom(buffer);
    if pop.Popped? {
      var step := ClientHandler(IdealClient(p, w))(c, pop.payload);
      HandlerChecks(p, w, c, pop.payload);
      ClientStep(p, w, c, pop.payload);
      if step.error.None? {
        ClientDrains(p, w, step.core, pop.rest);
      }
    }
  }

  // ---- a run's side ----

  /** Keys once set stay, and what has been signed. */
  predicate ServerKept(s: ServerCore, t: ServerCore) {
    && t.sendSeq == s.sendSeq && s.signings <= t.signings
    && (s.phase == ServerEstablished ==>
          && t.phase == ServerEstablished && t.signings == s.signings
          && t.clientWriteKey == s.clientWriteKey && t.serverWriteKey == s.serverWriteKey)
  }

  /** No run seals under this key. */
  predicate NoRunSeals(w: World, key: Option<Bytes>) {
    forall k :: 0 <= k < |w.servers| && w.servers[k].core.serverWriteKey.Some? ==>
        w.servers[k].core.serverWriteKey != key
  }

  /** What has been sealed under such a run's client-write key, with the number it expects,
      is the next of the client's log. */
  lemma ServerTakesNext(p: Parties, w: World, s: ServerCore, read: Bytes, nonce: Bytes, text: Bytes)
    requires SessionInv(p, w) && ServerAccepted(p, w, s, read) && Ours(p, s)
    requires NoRunSeals(w, s.clientWriteKey) && s.clientWriteKey.Some?
    requires s.recvSeq < LIMIT_64 && SealedUnder(w, s.clientWriteKey.value, nonce, text, Pack(s.recvSeq, SEQ_LEN))
    ensures Prefixed(SealedByClient(w, s.clientWriteKey), s.recvSeq + 1, read, s.plaintext + text)
  {
    assert w.client.clientWriteKey == s.clientWriteKey && Sealed(w.clientLog, nonce, text, Pack(s.recvSeq, SEQ_LEN));
    SealedNumber(w.clientLog, nonce, text, s.recvSeq);
    OneMore(w.clientLog, s.recvSeq, read, s.plaintext);
  }

  lemma OursGuarded(p: Parties, w: World, i: nat, s: ServerCore)
    requires i < |w.servers| && Drawn(w.servers[i].ephemeral, s) && SigningsHonoured(p.Suite(), s) && Ours(p, s)
    ensures s.clientWriteKey.Some? && Guarded(p, w, s.clientWriteKey.value)
  {
    var j :| OursBy(p, s, j);
    SigningGuards(p, w, i, s, j);
  }

  lemma ServerTakesRecord(p: Parties, w: World, i: nat, s: ServerCore, read: Bytes, record: Bytes)
    requires SessionInv(p, w) && i < |w.servers| && Drawn(w.servers[i].ephemeral, s)
    requires SigningsHonoured(p.Suite(), s) && ServerAccepted(p, w, s, read) && s.phase == ServerEstablished
    requires NoRunSeals(w, s.clientWriteKey)
    ensures var t := ServerHandler(IdealServer(p, w, w.servers[i]))(s, record).core;
      Drawn(w.servers[i].ephemeral, t) && ServerAccepted(p, w, t, read) && ServerKept(s, t)
  {
    var t := ServerHandler(IdealServer(p, w, w.servers[i]))(s, record).core;
    OursStays(p, s, t);
    DrawnStays(w.servers[i].ephemeral, s, t);
    if Ours(p, s) {
      OursGuarded(p, w, i, s);
      var outcome := UnprotectRecord(Ideal(p, w), s.clientWriteKey.value, s.recvSeq, record);
      if outcome.Ok? {
        var nonce := OpenedWasSealed(p, w, s.clientWriteKey.value, s.recvSeq, record);
        ServerTakesNext(p, w, s, read, nonce, outcome.value);
      }
    }
  }

  lemma ServerTakesHello(p: Parties, w: World, i: nat, s: ServerCore, read: Bytes, record: Bytes)
    requires i < |w.servers| && Drawn(w.servers[i].ephemeral, s)
    requires ServerAccepted(p, w, s, read) && s.phase == WaitClientHello
    ensures var t := ServerHandler(IdealServer(p, w, w.servers[i]))(s, record).core;
      Drawn(w.servers[i].ephemeral, t) && ServerAccepted(p, w, t, read) && ServerKept(s, t)
  {
    var t := ServerHandler(IdealServer(p, w, w.servers[i]))(s, record).core;
    NothingTaken(SealedByClient(w, t.clientWriteKey));
    forall j | 0 <= j < |t.signings|
      ensures IsDrawn(w.servers[i].ephemeral, t.signings[j])
    {
      if j < |s.signings| {
        assert IsDrawn(w.servers[i].ephemeral, s.signings[j]);
      } else {
        assert t.signings[j].ephemeral == w.servers[i].ephemeral(s.draws);
      }
    }
  }

  lemma {:induction false} ServerDrains(p: Parties, w: World, i: nat, s: ServerCore, read: Bytes, buffer: Bytes)
    requires p.Assumed() && SessionInv(p, w) && i < |w.servers| && Drawn(w.servers[i].ephemeral, s)
    requires SigningsHonoured(p.Suite(), s) && ServerAccepted(p, w, s, read)
    requires NoRunSeals(w, Drain(ServerHandler(IdealServer(p, w, w.servers[i])), s, buffer).core.clientWriteKey)
    ensures var t := Drain(ServerHandler(IdealServer(p, w, w.servers[i])), s, buffer).core;
      Drawn(w.servers[i].ephemeral, t) && ServerAccepted(p, w, t, read) && ServerKept(s, t)
    decreases |buffer|
  {
    var env := IdealServer(p, w, w.servers[i]);
    KeptByDrain(env, s, buffer);
    var pop := PopFrom(buffer);
    if pop.Popped? {
      var step := ServerHandler(env)(s, pop.payload);
      HandlerHonours(p, env, s, pop.payload);
      if s.phase == WaitClientHello {
        ServerTakesHello(p, w, i, s, read, pop.payload);
      } else {
        ServerTakesRecord(p, w, i, s, read, pop.payload);
      }
      if step.error.None? {
        ServerDrains(p, w, i, step.core, read, pop.rest);
      }
    }
  }

  lemma {:induction false} KeptByDrain(env: ServerEnv, s: ServerCore, buffer: Bytes)
    ensures ServerKept(s, Drain(ServerHandler(env), s, buffer).core)
    decreases |buffer|
  {
    var pop := PopFrom(buffer);
    if pop.Popped? {
      var step := ServerHandler(env)(s, pop.payload);
      if step.error.None? {
        KeptByDrain(env, step.core, pop.rest);
      }
    }
  }

  // ---- one event ----

  /** The runs of one world are those of the next, with their keys and their pasts. */
  predicate Later(w: World, t: World) {
    && |w.servers| <= |t.servers|
    && forall i :: 0 <= i < |w.servers| ==> KeysStay(w.servers[i].core, t.servers[i].core)
  }

  predicate KeysStay(s: ServerCore, t: ServerCore) {
    && (s.serverWriteKey.Some? ==> t.serverWriteKey == s.serverWriteKey)
    && (s.clientWriteKey.Some? ==> t.clientWriteKey == s.clientWriteKey)
  }

  lemma ApartBefore(w: World, t: World)
    requires Later(w, t) && KeysApart(t.servers)
    ensures KeysApart(w.servers)
  {
    forall i, j | 0 <= i < |w.servers| && 0 <= j < |w.servers| && w.servers[i].core.serverWriteKey.Some?
      ensures i != j ==> w.servers[i].core.serverWriteKey != w.servers[j].core.serverWriteKey
      ensures w.servers[i].core.serverWriteKey != w.servers[j].core.clientWriteKey
    {
      assert KeysStay(w.servers[i].core, t.servers[i].core) && KeysStay(w.servers[j].core, t.servers[j].core);
    }
  }

  /** Keys come with ESTABLISHED. */
  predicate Keyless(core: ServerCore) {
    core.phase == WaitClientHello ==> core.clientWriteKey.None? && core.serverWriteKey.None?
  }

  predicate AllKeyless(w: World) {
    forall i :: 0 <= i < |w.servers| ==> Keyless(w.servers[i].core)
  }

  lemma {:induction false} DrainKeyless(env: ServerEnv, s: ServerCore, buffer: Bytes)
    requires Keyless(s)
    ensures Keyless(Drain(ServerHandler(env), s, buffer).core) && KeysStay(s, Drain(ServerHandler(env), s, buffer).core)
    decreases |buffer|
  {
    var pop := PopFrom(buffer);
    if pop.Popped? {
      var step := ServerHandler(env)(s, pop.payload);
      if step.error.None? {
        DrainKeyless(env, step.core, pop.rest);
      }
    }
  }

  lemma NextLater(p: Parties, w: World, event: Event)
    requires AllKeyless(w)
    ensures Later(w, Next(p, w, event)) && AllKeyless(Next(p, w, event))
  {
    var t := Next(p, w, event);
    forall i | 0 <= i < |w.servers|
      ensures KeysStay(w.servers[i].core, t.servers[i].core) && Keyless(t.servers[i].core)
    {
      assert Keyless(w.servers[i].core);
      if event.FeedServer? && event.run == i {
        DrainKeyless(IdealServer(p, w, w.servers[i]), w.servers[i].core, w.servers[i].buffer + event.data);
      }
    }
  }

  lemma {:induction false} RunLater(p: Parties, w: World, events: seq<Event>)
    requires AllKeyless(w)
    ensures Later(w, Run(p, w, events))
    decreases |events|
  {
    if events != [] {
      var t := Next(p, w, events[0]);
      NextLater(p, w, events[0]);
      RunLater(p, t, events[1..]);
      LaterTwice(w, t, Run(p, t, events[1..]));
    }
  }

  lemma LaterTwice(w: World, t: World, u: World)
    requires Later(w, t) && Later(t, u)
    ensures Later(w, u)
  {
    forall i | 0 <= i < |w.servers|
      ensures KeysStay(w.servers[i].core, u.servers[i].core)
    {
      assert KeysStay(w.servers[i].core, t.servers[i].core) && KeysStay(t.servers[i].core, u.servers[i].core);
    }
  }

  // ---- every event keeps the invariant ----

  lemma AcceptKeeps(p: Parties, w: World, ephemeral: nat -> Ephemeral)
    requires p.Assumed() && SessionInv(p, w)
    ensures SessionInv(p, Next(p, w, Accept(ephemeral)))
  {
    var t := Next(p, w, Accept(ephemeral));
    Agreement.NextKeepsInv(p, w, Accept(ephemeral));
    forall i | 0 <= i < |t.servers|
      ensures RunOk(p, t, t.servers[i])
    {
      if i < |w.servers| {
        assert RunOk(p, w, w.servers[i]);
      }
    }
  }

  lemma FeedClientKeeps(p: Parties, w: World, data: Bytes)
    requires p.Assumed() && SessionInv(p, w) && KeysApart(w.servers)
    ensures SessionInv(p, Next(p, w, FeedClient(data)))
  {
    var t := Next(p, w, FeedClient(data));
    Agreement.NextKeepsInv(p, w, FeedClient(data));
    ClientDrains(p, w, w.client, w.clientBuffer + data);
    if data == [] {
      assert t == w;
    }
    forall i | 0 <= i < |t.servers|
      ensures RunOk(p, t, t.servers[i])
    {
      assert RunOk(p, w, w.servers[i]);
      assert SealedByClient(t, t.servers[i].core.clientWriteKey) == SealedByClient(w, w.servers[i].core.clientWriteKey);
    }
  }

  lemma ClientProtectsKeeps(p: Parties, w: World, m: Sent)
    requires p.Assumed() && SessionInv(p, w)
    ensures SessionInv(p, Next(p, w, ClientProtects(m)))
  {
    var t := Next(p, w, ClientProtects(m));
    Agreement.NextKeepsInv(p, w, ClientProtects(m));
    forall i | 0 <= i < |t.servers|
      ensures RunOk(p, t, t.servers[i])
    {
      var run := w.servers[i];
      assert RunOk(p, w, run);
      if Ours(p, run.core) {
        PrefixLogs(SealedByClient(w, run.core.clientWriteKey), m, run.core.recvSeq, run.read, run.core.plaintext);
      }
    }
  }

  lemma ClientReadsKeeps(p: Parties, w: World)
    requires p.Assumed() && SessionInv(p, w)
    ensures SessionInv(p, Next(p, w, ClientReads))
  {
    var t := Next(p, w, ClientReads);
    Agreement.NextKeepsInv(p, w, ClientReads);
    forall i | 0 <= i < |t.servers|
      ensures RunOk(p, t, t.servers[i])
      ensures w.client.phase == ClientEstablished && w.servers[i].core.serverWriteKey == w.client.serverWriteKey ==>
        Prefixed(t.servers[i].log, t.client.recvSeq, t.clientRead, t.client.plaintext)
    {
      assert RunOk(p, w, w.servers[i]);
      assert SealedByClient(t, t.servers[i].core.clientWriteKey) == SealedByClient(w, w.servers[i].core.clientWriteKey);
      if w.client.phase == ClientEstablished && w.servers[i].core.serverWriteKey == w.client.serverWriteKey {
        PrefixReads(w.servers[i].log, w.client.recvSeq, w.clientRead, w.client.plaintext);
      }
    }
  }

  /** A change of one run that leaves its agreement, its counter and its acceptance in order. */
  lemma OneRunKeeps(p: Parties, w: World, t: World, i: nat)
    requires p.Assumed() && SessionInv(p, w) && Agreement.Inv(p, t) && i < |w.servers|
    requires |t.servers| == |w.servers| && t == w.(servers := w.servers[i := t.servers[i]])
    requires |t.servers[i].log| == t.servers[i].core.sendSeq <= LIMIT_64
    requires Drawn(t.servers[i].ephemeral, t.servers[i].core)
    requires ServerAccepted(p, w, t.servers[i].core, t.servers[i].read)
    requires t.client.phase == ClientEstablished && t.servers[i].core.serverWriteKey == t.client.serverWriteKey ==>
      Prefixed(t.servers[i].log, t.client.recvSeq, t.clientRead, t.client.plaintext)
    ensures SessionInv(p, t)
  {
    forall k | 0 <= k < |t.servers|
      ensures RunOk(p, t, t.servers[k])
    {
      assert SealedByClient(t, t.servers[k].core.clientWriteKey) == SealedByClient(w, t.servers[k].core.clientWriteKey);
      if k != i {
        assert RunOk(p, w, w.servers[k]);
      }
    }
  }

  lemma FeedServerKeeps(p: Parties, w: World, i: nat, data: Bytes)
    requires p.Assumed() && SessionInv(p, w) && i < |w.servers| && data != []
    requires KeysApart(Next(p, w, FeedServer(i, data)).servers)
    ensures SessionInv(p, Next(p, w, FeedServer(i, data)))
  {
    var t := Next(p, w, FeedServer(i, data));
    var run := w.servers[i];
    var env := IdealServer(p, w, run);
    Agreement.NextKeepsInv(p, w, FeedServer(i, data));
    assert RunOk(p, w, run) && SigningsHonoured(p.Suite(), run.core);
    KeptByDrain(env, run.core, run.buffer + data);
    DrainKeyless(env, run.core, run.buffer + data);
    assert t.servers[i].core == Drain(ServerHandler(env), run.core, run.buffer + data).core;
    forall k | 0 <= k < |w.servers| && w.servers[k].core.serverWriteKey.Some?
      ensures w.servers[k].core.serverWriteKey != t.servers[i].core.clientWriteKey
    {
      assert t.servers[k].core.serverWriteKey == w.servers[k].core.serverWriteKey;
    }
    ServerDrains(p, w, i, run.core, run.read, run.buffer + data);
    if w.client.phase == ClientEstablished && t.servers[i].core.serverWriteKey == w.client.serverWriteKey {
      var k := TheRun(p, w, w.client);
      assert t.servers[k].core.serverWriteKey == w.client.serverWriteKey;
      assert k == i;
    }
    OneRunKeeps(p, w, t, i);
  }

  lemma ServerProtectsKeeps(p: Parties, w: World, i: nat, m: Sent)
    requires p.Assumed() && SessionInv(p, w) && i < |w.servers|
    ensures SessionInv(p, Next(p, w, ServerProtects(i, m)))
  {
    var t := Next(p, w, ServerProtects(i, m));
    Agreement.NextKeepsInv(p, w, ServerProtects(i, m));
    assert RunOk(p, w, w.servers[i]);
    OursStays(p, w.servers[i].core, t.servers[i].core);
    DrawnStays(w.servers[i].ephemeral, w.servers[i].core, t.servers[i].core);
    if w.client.phase == ClientEstablished && w.servers[i].core.serverWriteKey == w.client.serverWriteKey {
      PrefixLogs(w.servers[i].log, m, w.client.recvSeq, w.clientRead, w.client.plaintext);
    }
    OneRunKeeps(p, w, t, i);
  }

  lemma OursStays(p: Parties, s: ServerCore, t: ServerCore)
    requires t.signings == s.signings
    ensures Ours(p, t) == Ours(p, s)
  {
    if Ours(p, s) {
      var j :| OursBy(p, s, j);
      assert OursBy(p, t, j);
    }
    if Ours(p, t) {
      var j :| OursBy(p, t, j);
      assert OursBy(p, s, j);
    }
  }

  lemma DrawnStays(ephemeral: nat -> Ephemeral, s: ServerCore, t: ServerCore)
    requires t.signings == s.signings && Drawn(ephemeral, s)
    ensures Drawn(ephemeral, t)
  {
    forall j | 0 <= j < |t.signings|
      ensures IsDrawn(ephemeral, t.signings[j])
    {
      assert IsDrawn(ephemeral, s.signings[j]);
    }
  }

  lemma ServerReadsKeeps(p: Parties, w: World, i: nat)
    requires p.Assumed() && SessionInv(p, w) && i < |w.servers|
    ensures SessionInv(p, Next(p, w, ServerReads(i)))
  {
    var t := Next(p, w, ServerReads(i));
    var run := w.servers[i];
    Agreement.NextKeepsInv(p, w, ServerReads(i));
    assert RunOk(p, w, run);
    OursStays(p, run.core, t.servers[i].core);
    DrawnStays(run.ephemeral, run.core, t.servers[i].core);
    if Ours(p, run.core) {
      PrefixReads(SealedByClient(w, run.core.clientWriteKey), run.core.recvSeq, run.read, run.core.plaintext);
    }
    OneRunKeeps(p, w, t, i);
  }

  lemma NextKeepsSession(p: Parties, w: World, event: Event)
    requires p.Assumed() && SessionInv(p, w) && KeysApart(w.servers) && KeysApart(Next(p, w, event).servers)
    ensures SessionInv(p, Next(p, w, event))
  {
    match event
    case Accept(ephemeral) => AcceptKeeps(p, w, ephemeral);
    case FeedClient(data) => FeedClientKeeps(p, w, data);
    case ClientProtects(m) => ClientProtectsKeeps(p, w, m);
    case ClientReads => ClientReadsKeeps(p, w);
    case FeedServer(i, data) =>
      if i < |w.servers| {
        if data == [] {
          assert Next(p, w, event) == w by {
            assert NextRun(p, w, w.servers[i], event) == w.servers[i];
          }
        } else {
          FeedServerKeeps(p, w, i, data);
        }
      }
    case ServerProtects(i, m) =>
      if i < |w.servers| {
        ServerProtectsKeeps(p, w, i, m);
      }
    case ServerReads(i) =>
      if i < |w.servers| {
        ServerReadsKeeps(p, w, i);
      }
  }

  lemma KeylessRuns(p: Parties, w: World)
    requires SessionInv(p, w)
    ensures AllKeyless(w)
  {
    forall i | 0 <= i < |w.servers|
      ensures Keyless(w.servers[i].core)
    {
      assert RunOk(p, w, w.servers[i]);
    }
  }

  lemma {:induction false} RunKeepsSession(p: Parties, w: World, events: seq<Event>)
    requires p.Assumed() && SessionInv(p, w) && KeysApart(Run(p, w, events).servers)
    ensures SessionInv(p, Run(p, w, events))
    decreases |events|
  {
    if events != [] {
      var t := Next(p, w, events[0]);
      KeylessRuns(p, w);
      NextLater(p, w, events[0]);
      RunLater(p, t, events[1..]);
      ApartBefore(t, Run(p, t, events[1..]));
      ApartBefore(w, t);
      NextKeepsSession(p, w, events[0]);
      RunKeepsSession(p, t, events[1..]);
    }
  }

  // ---- the theorem ----

  /** The secure session, from the first byte on: in every run in which no key of one
      server run seals for another, an established client agrees with a run of the identity
      holder; what the client has accepted is exactly the first so-many texts that this run
      has protected; and what the run has accepted is exactly the first so-many texts that
      the client has protected. Whatever the network fed to whom, exceptions or not. */
  lemma {:induction false} SessionAgreement(p: Parties, events: seq<Event>)
    requires p.Assumed() && KeysApart(Run(p, Start(p), events).servers)
    ensures var w := Run(p, Start(p), events);
      w.client.phase == ClientEstablished ==>
        exists i ::
          && 0 <= i < |w.servers| && AgreesWith(p, w.client, w.servers[i])
          && Prefixed(w.servers[i].log, w.client.recvSeq, w.clientRead, w.client.plaintext)
          && Prefixed(w.clientLog, w.servers[i].core.recvSeq, w.servers[i].read, w.servers[i].core.plaintext)
  {
    Agreement.StartInv(p);
    RunKeepsSession(p, Start(p), events);
    var w := Run(p, Start(p), events);
    if w.client.phase == ClientEstablished {
      var i := TheRun(p, w, w.client);
      assert RunOk(p, w, w.servers[i]);
    }
  }

  /** A client that is not established has accepted and protected nothing. */
  lemma {:induction false} NothingBefore(p: Parties, events: seq<Event>)
    requires p.Assumed() && KeysApart(Run(p, Start(p), events).servers)
    ensures var w := Run(p, Start(p), events);
      w.client.phase != ClientEstablished ==> w.client.plaintext == [] && w.clientRead == [] && w.clientLog == []
  {
    Agreement.StartInv(p);
    RunKeepsSession(p, Start(p), events);
  }

  // ---- there are such sessions ----

  /** The ideal suite changes nothing in how a hello is answered. */
  lemma HelloAnswered(p: Parties, w: World, h: Setup, run: ServerRun)
    requires h.Honest() && p == Parties(h.ClientEnd(), h.identity)
        && run == ServerRun(FRESH_SERVER, [], h.ephemeral, [], [])
    ensures var t := NextRun(p, w, run, FeedServer(0, Frame(h.ClientHello())));
      t.core.signings == [Signing(h.ClientShare(), h.ephemeral(0))] && t.ephemeral == h.ephemeral
      && t.core.serverWriteKey == Some(h.Keys().serverWrite) && t.core.clientWriteKey == Some(h.Keys().clientWrite)
  {
    HelloFits(h.ClientShare());
    DrainLastFrame(ServerHandler(IdealServer(p, w, run)), FRESH_SERVER, h.ClientHello());
    assert [] + Frame(h.ClientHello()) == Frame(h.ClientHello());
    Session.ServerTakesHello(h, FRESH_SERVER, []);
    assert HandleClientHello(IdealServer(p, w, run), FRESH_SERVER, h.ClientHello())
      == HandleClientHello(h.ServerEnd(), FRESH_SERVER, h.ClientHello());
  }

  /** Nor, once the server has signed, in how its ServerAuth is checked. */
  lemma AuthChecked(p: Parties, w: World, h: Setup)
    requires h.Honest() && p == Parties(h.ClientEnd(), h.identity)
    requires |w.servers| > 0 && w.servers[0].core.signings == [Signing(h.ClientShare(), h.ephemeral(0))]
    ensures CheckServerAuth(IdealClient(p, w), h.ServerShare(), h.Flight()[1])
      == Ok(h.suite.exchange(h.ephemeral(0).privateKey, h.ClientShare()).value)
  {
    AuthAccepted(h);
    assert SignedMessage(h.ClientShare(), h.ServerShare()) == MessageOf(p.Suite(), w.servers[0].core.signings[0]);
    assert Signed(p.Suite(), w.servers, SignedMessage(h.ClientShare(), h.ServerShare()));
  }

  lemma FlightTaken(p: Parties, w: World, h: Setup)
    requires h.Honest() && p == Parties(h.ClientEnd(), h.identity)
    requires |w.servers| > 0 && w.servers[0].core.signings == [Signing(h.ClientShare(), h.ephemeral(0))]
    ensures Drain(ClientHandler(IdealClient(p, w)), FreshClient(p.client), FrameAll(h.Flight())).core.phase
        == ClientEstablished
  {
    var handle, c := ClientHandler(IdealClient(p, w)), FreshClient(p.client);
    var hello, auth := h.Flight()[0], h.Flight()[1];
    FlightFrames(h);
    HelloDecodes(h.ServerShare());
    AuthChecked(p, w, h);
    DrainFrame(handle, c, hello, Frame(auth));
    DrainLastFrame(handle, handle(c, hello).core, auth);
  }

  /** The same parties, with other ephemerals. */
  function Other(h: Setup, ephemeral: nat -> Ephemeral): Setup {
    h.(ephemeral := ephemeral)
  }

  /** The keys of the two sessions have nothing in common. */
  ghost predicate TwoApart(h: Setup, k: Setup)
    requires h.Honest() && k.Honest()
  {
    && h.Keys().serverWrite != k.Keys().serverWrite
    && h.Keys().serverWrite != h.Keys().clientWrite && h.Keys().serverWrite != k.Keys().clientWrite
    && k.Keys().serverWrite != h.Keys().clientWrite && k.Keys().serverWrite != k.Keys().clientWrite
  }

  lemma {:induction false} RunFive(p: Parties, w: World, a: Event, b: Event, c: Event, d: Event, e: Event)
    ensures Run(p, w, [a, b, c, d, e]) == Next(p, Next(p, Next(p, Next(p, Next(p, w, a), b), c), d), e)
  {
    var w1 := Next(p, w, a);
    var w2 := Next(p, w1, b);
    var w3 := Next(p, w2, c);
    var w4 := Next(p, w3, d);
    assert [a, b, c, d, e][1..] == [b, c, d, e] && [b, c, d, e][1..] == [c, d, e];
    assert [c, d, e][1..] == [d, e] && [d, e][1..] == [e] && [e][1..] == [];
    assert Run(p, w4, [e]) == Run(p, Next(p, w4, e), []);
    assert Run(p, w3, [d, e]) == Run(p, w4, [e]);
    assert Run(p, w2, [c, d, e]) == Run(p, w3, [d, e]);
    assert Run(p, w1, [b, c, d, e]) == Run(p, w2, [c, d, e]);
  }

  /** Both runs have answered the hello. */
  lemma TwoAnswered(p: Parties, h: Setup, other: nat -> Ephemeral) returns (w: World)
    requires h.Honest() && Other(h, other).Honest() && p == Parties(h.ClientEnd(), h.identity)
    requires TwoApart(h, Other(h, other))
    ensures var hello := Frame(h.ClientHello());
      w == Next(p, Next(p, Next(p, Next(p, Start(p), Accept(h.ephemeral)), Accept(other)),
                        FeedServer(0, hello)), FeedServer(1, hello))
    ensures |w.servers| == 2 && KeysApart(w.servers)
    ensures w.client == FreshClient(p.client) && w.clientBuffer == []
    ensures w.servers[0].core.signings == [Signing(h.ClientShare(), h.ephemeral(0))]
    ensures w.servers[0].core.serverWriteKey.Some? && w.servers[1].core.serverWriteKey.Some?
  {
    var k := Other(h, other);
    var w1 := Next(p, Start(p), Accept(h.ephemeral));
    var w2 := Next(p, w1, Accept(other));
    var w3 := Next(p, w2, FeedServer(0, Frame(h.ClientHello())));
    HelloAnswered(p, w2, h, w2.servers[0]);
    HelloAnswered(p, w3, k, w3.servers[1]);
    w := Next(p, w3, FeedServer(1, Frame(h.ClientHello())));
    var keys, others := h.Keys(), k.Keys();
    assert w.servers[0].core.serverWriteKey == Some(keys.serverWrite)
        && w.servers[0].core.clientWriteKey == Some(keys.clientWrite);
    assert w.servers[1].core.serverWriteKey == Some(others.serverWrite)
        && w.servers[1].core.clientWriteKey == Some(others.clientWrite);
  }

  /** Honest parties that meet the assumptions have a run in which two server runs are
      established with keys apart, and the client with one of them. */
  lemma {:induction false} HonestSessions(h: Setup, other: nat -> Ephemeral) returns (p: Parties, events: seq<Event>)
    requires h.Honest() && Other(h, other).Honest() && Parties(h.ClientEnd(), h.identity).Assumed()
    requires TwoApart(h, Other(h, other))
    ensures p.Assumed()
    ensures var w := Run(p, Start(p), events);
      && KeysApart(w.servers) && w.client.phase == ClientEstablished
      && |w.servers| == 2 && w.servers[0].core.serverWriteKey.Some? && w.servers[1].core.serverWriteKey.Some?
  {
    p := Parties(h.ClientEnd(), h.identity);
    var hello, flight := Frame(h.ClientHello()), FeedClient(FrameAll(h.Flight()));
    events := [Accept(h.ephemeral), Accept(other), FeedServer(0, hello), FeedServer(1, hello), flight];
    var w := TwoAnswered(p, h, other);
    RunFive(p, Start(p), Accept(h.ephemeral), Accept(other), FeedServer(0, hello), FeedServer(1, hello), flight);
    FlightTaken(p, w, h);
    assert [] + FrameAll(h.Flight()) == FrameAll(h.Flight());
    FrameAllNotEmpty(h);
  }

  lemma FrameAllNotEmpty(h: Setup)
    ensures FrameAll(h.Flight()) != []
  {
  }

  /** And there are such parties. */
  lemma {:induction false} ToyParties() returns (other: nat -> Ephemeral)
    ensures ToySetup().Honest() && Parties(ToySetup().ClientEnd(), ToySetup().identity).Assumed()
    ensures Other(ToySetup(), other).Honest() && TwoApart(ToySetup(), Other(ToySetup(), other))
  {
    other := _ => Ephemeral([1], []);
    ToySetupHonest();
    ToyAssumed();
    OtherHonest(other);
    OthersApart(other);
  }

  lemma OtherHonest(other: nat -> Ephemeral)
    ensures Other(ToySetup(), other).Honest()
  {
    ToySetupHonest();
    assert Other(ToySetup(), other).AuthList() == ToySetup().AuthList();
  }

  lemma OthersApart(other: nat -> Ephemeral)
    requires ToySetup().Honest() && Other(ToySetup(), other).Honest() && other(0).privateKey == [1]
    ensures TwoApart(ToySetup(), Other(ToySetup(), other))
  {
    ToyKeys(ToySetup());
    ToyKeys(Other(ToySetup(), other));
  }

  lemma ToyAssumed()
    ensures Parties(ToySetup().ClientEnd(), ToySetup().identity).Assumed()
  {
    ToySetupHonest();
    LawsAreConsistent();
    assert FramedMessage(ToySetup().AuthList()).Some?;
  }

  /** The first byte of a toy key is its label, and the second the sum of the shares. */
  lemma ToyKeys(h: Setup)
    requires h.Honest() && h.suite == ToySuite()
    ensures h.Keys().clientWrite[0] == 0 && h.Keys().serverWrite[0] == 1
    ensures h.Keys().serverWrite[1] == (Pad(h.ephemeral(0).privateKey)[0] as int + Pad(h.clientKey)[0] as int) % 256
  {
    var secret := Sum(Pad(h.ephemeral(0).privateKey), h.ClientShare());
    assert h.suite.exchange(h.ephemeral(0).privateKey, h.ClientShare()) == Some(secret);
  }
}
