# Proofs about the toy TLS web server

This project models a single-threaded HTTP server with an optional, self-written TLS-like layer, and proves
properties of whole runs of it. The model has three parts.

**The channel.** `ToyTLSServerConnection` and `ToyTLSClientConnection` are buffer-oriented state machines: they take
TCP chunks of any size, cut them into length-prefixed records, run a three-message handshake and then exchange
sequence-numbered AEAD records. They appear here as classes with the fields of the source. Each method is proved equal
to a step on the value that `View()` reads off the object, and the theorems are about runs of those steps: two honest
ends over byte channels (`HonestRun`, `EarlyRecords`), two ends over a network that does what it likes
(`ArbitraryNetwork`), one client beside any number of server runs, from the handshake (`Agreement`) to the last byte
(`SecureSession`). `HandshakeBytes` says what is on the wire, byte by byte, and which bytes each end accepts.

**The server.** `ConnectionContext` and `WebServer` are modelled the same way: reads of any size, partial sends,
close-after-write, pipelined requests in a buffer, with and without TLS. The design claim of the repository, that HTTP
cannot tell which path its bytes took (README.md:32), is proved as a refinement: both paths implement one function from
the plaintext request stream to the plaintext response stream (`Pipeline`, `Transparency`, `SteadyRuns`). What every
run keeps is in `ConnectionRuns` and `LayerRuns`, when a connection asks for writing, closes and ends in `LinkRuns`, the
exact rule for the responses of any run in `ReplyRule`, what a failing record costs in `RecordFailures`, the site of
static files in `StaticSite`, requests and responses as texts in `HttpTexts` and `Rejections`. The client's two read
loops are in `ClientLoop`, and the whole client joined to the whole server in `EndToEnd`.

**The configuration.** Lexer, recursive-descent parser, untyped accumulators and typed conversion, with one end-to-end
theorem from text to server blocks (`Lexer`, `Parser`, `Typed`, `ConfigMeaning`), the exact language of the parser, with
its unbalanced braces (`ParsedTrees`), and the repository's own file (`DemoConfig`).

## How to read it

- Cryptography is a record of functions, `Crypto.Suite`; the laws used are named predicates on it: X25519 commutes
  (section 6.1 of RFC 7748), AES-256-GCM opens what it sealed (sections 2.1 and 2.2 of RFC 5116), RSASSA-PSS verifies
  what it signed (section 8.1 of RFC 8017), HKDF separates its labels (section 2 of RFC 5869). A suite that obeys all
  of them is given, with keys that depend on both shares (`Crypto.LawsAreConsistent`), an honest setup with it
  (`Session.ToySetupHonest`), and a world that meets the assumptions of `SecureSession` in which two server runs are
  established under different keys and the client with one of them (`SecureSession.HonestSessions`, `ToyParties`).
- Randomness (ephemeral keys, nonces, salts) is an argument everywhere. Ideal integrity and ideal signatures replace
  `open` and `verify` by versions that also consult the history of seal or sign operations.
- `Drain` is the `while True` record loop over any handler; `Feed` is `feed_wire_data`. Exceptions are values.
- `Serve` is the request loop as a function of a buffer. `Answers` is what a list of requests is owed, without a parser.
- The site is a parameter of the server: a function from a request to response bytes and a close flag. That of the
  repository, `build_http_response` over any way to find files, is `StaticSite.SiteOf`.
- A chunk is the plaintext that one read hands to HTTP. `Refold` makes one pass of the request loop for each chunk,
  over what the pass before it left; `PassesEnd` says that each of them returns.
- A written configuration (`Lexer.Source`) is any layout and comments, any tokens with layout behind each, and perhaps a
  last comment without a newline. Every text that lexes is one (`Lexer.EveryTextIsPrinted`).
- `Conn` carries histories (bytes received, responses, bytes queued, bytes sent) beside the fields of the source.

## What holds only under a condition

- A message taken from the HTTP buffer is final whatever follows it **if and only if** its declared length is not
  negative; `int()` lets negative lengths through, against section 8.6 of RFC 9110 (`Http.ParseStableIff`).
- A parsed request stays in the buffer as it is **if and only if** its declared length is exactly minus the size of its
  header block, or at most minus the sizes of header block and buffer together (`Pipeline.NoProgressIff`). The request
  loop fails to end **if and only if** it comes to such a request and the site keeps the connection alive
  (`Pipeline.SpinsIff`), which build_http_response does **if and only if** a GET or HEAD asks for it and finds its file
  (`StaticSite.StaysOpenIff`). For a GET with `connection: keep-alive` and length minus n this means n equal to its own
  size or at least twice that (`Pipeline.KeptRequestSpins`). Every file has such a request (`StaticSite.StuckRequest`),
  and a server that reads it does not come back from it (`SteadyRuns.OneRequestSpins`).
- A connection that has read any part of an honest stream, in any pieces, is still in its event loop **if and only if**
  every pass of the request loop returns and, on TLS, every response that they make can be numbered below 2^64 and
  framed (`SteadyRuns.TlsLoopExact`, `PlainLoopExact`).
- Over TLS the same holds of every peer, whatever bytes it sends, **if** the server's certificates fit into one message
  (`LinkRuns.AnyPeerLoopExact`): no handshake and no record can make the event loop end.
- The selector is asked for write events **if and only if** the connection is open and has output
  (`LinkRuns.WriteInterestIff`). One event closes a connection, or marks it closing, **if and only if** one of the
  causes named is there (`LinkRuns.ClosedIff`, `ClosingIff`).
- The server takes a ClientHello, the client a ServerHello, a ServerAuth and a record **if and only if** the checks named
  hold of its bytes (`HandshakeBytes.HelloAcceptedIff`, `ServerHelloIff`, `AuthAcceptedIff`, `OpensIff`).
- Once flushed, the honest client decrypts without an exception **if and only if** no response is above 16,777,180
  bytes, and holds those before the first that is (`Transparency.DecryptsIffFits`). So of two runs on which nothing is
  read behind a closing request, the TLS client and the plain peer hold the same bytes **if and only if** all responses
  fit (`SteadyRuns.TransparentOnceClosed`).
- A plaintext comes through protect, frame, pop and unprotect **if and only if** it has at most 16,777,180 bytes and its
  sequence number is expected and below 2^64. Longer ones are framed by the sender, which does not check
  `MAX_RECORD_SIZE`, and refused by the receiver (`RecordProtection.SharpSizeBound`, `OversizeRefused`).
- `_append_repeated` then `_directive_values` gives back all occurrences of a directive **if and only if** the first of
  several is not empty; a leading empty one is forgotten (`ConfigMeaning.AccumulatorExact`, `LeadingEmptyIsLost`).
- A response says `Connection: close` **if and only if** the server closes (`HttpTexts.ConnectionSays`).
- The parser accepts a token list **if and only if** it is that of a well-kinded tree, that of one without its last
  closing braces, or that of one with a closing brace and anything behind it (`ParsedTrees.ParsesIff`).
- A configuration, of braces that balance, is refused with a SyntaxError **if and only if** at some depth a block with
  an argument stands behind a statement of its key that is neither such a block nor, as the key's first, a block without
  one (`Parser.DenotesIff`, `ConfigMeaning.LoadRefused`).
- Where the server's caller may send at any time, a run that has come to rest has raised **if and only if** application
  data was sent while handshake bytes were pending (`EarlyRecords.RaisesIffEarly`); a record in front of the flight
  makes every honest client raise (`EarlyRecords.EarlyRecordRaises`). The runs of `HonestRun` send only after the
  pending bytes have been taken, as tls_web_server/server.py:209-213 does.
- `_read_from_connection` does not look at `closing_after_write`. While the event loop runs, the responses of a
  connection are those of one pass of the request loop for each plaintext chunk, in order, closing or not
  (`ReplyRule.RepliesExact`). They begin with the responses of one pass over the whole stream, and are those when none
  closes (`ReplyRule.RefoldExtends`) or only the last chunk does (`SteadyRuns.OnceClosedEnds`); two reads that draw a
  second response behind a closing one are given (`ReplyRule.RejectedTwice`).
- A TLS error closes the connection before `read_plaintext`, which drops what the same chunk had decrypted
  (`RecordFailures.FailureDrops`). So of bytes that end in a failure a cut changes the responses **if and only if** the
  records decrypted before the cut complete a request (`RecordFailures.CutMatters`, `CutWitness`). At the TLS object
  itself chunking is irrelevant in all cases, and honest input is proved to cause no failure.

## Model

| member | source | states |
|---|---|---|
| Wire.UnpackPack | tls_web_server/tls/framing.py:10 | big-endian integers that fit their width are read back |
| Wire.PackUnpack | tls_web_server/tls/framing.py:29 | and every byte string of the width is the packing of the integer it holds |
| Framing.RecordBuffer.Feed | tls_web_server/tls/framing.py:23-24 | appends to the buffer |
| Framing.RecordBuffer.PopRecord | tls_web_server/tls/framing.py:26-36 | the outcome (need more, too large, a payload) and the bytes left, for every buffer |
| Framing.RecordBuffer.PopAll | tls_web_server/tls/framing.py:38-44 | all complete records and the residue, or the ValueError with the records popped before it gone |
| Framing.PopStable | tls_web_server/tls/framing.py:26-36 | more bytes never change a popped record or an oversize verdict |
| Framing.PopOfFrames | tls_web_server/tls/framing.py:9-36 | a buffer that starts a stream of acceptable frames waits for more or gives exactly the first payload |
| Framing.DeframeConserves | tls_web_server/tls/framing.py:26-44 | the records framed again, then the residue, are all bytes fed; the residue holds no complete frame |
| Framing.DeframeFrames | tls_web_server/tls/framing.py:9-44 | frames of payloads within the limit come back as exactly those payloads, whatever follows |
| Framing.DrainAppend | tls_web_server/tls/connection.py:103-118 | feeding a then b is feeding a ++ b, for any handler, with failure absorbing |
| Framing.ChunkingIrrelevant | tls_web_server/tls/connection.py:103-118 | every chunking of a stream gives the state, the error and, on success, the buffer of the stream fed whole |
| Messages.EncodeMessage | tls_web_server/tls/messages.py:13-18 | the loop builds the encoding, or fails exactly when a tag or a length does not fit |
| Messages.DecodeMessage | tls_web_server/tls/messages.py:21-33 | the loop decodes exactly the field lists of the recursive reading, and fails on every truncation |
| Messages.FirstField | tls_web_server/tls/messages.py:36-40 | the value of the first field with the tag, or the error |
| Messages.DecodeEncode | tls_web_server/tls/messages.py:13-33 | decoding an encoded field list gives it back |
| Messages.EncodeDecode | tls_web_server/tls/messages.py:13-33 | whatever decodes is the encoding of its fields, bit for bit |
| Crypto.LawsAreConsistent | tls_web_server/tls/key_schedule.py:11-24 | the laws assumed of the library, label separation included, hold together of one suite, whose keys depend on both shares |
| RecordProtection.UnprotectProtected | tls_web_server/tls/record_protection.py:13-30 | a protected record opens to its plaintext under its own sequence number and under no other |
| RecordProtection.AcceptedRecord | tls_web_server/tls/record_protection.py:20-30 | acceptance of any payload means the expected number, bound as associated data, and an opening under the key |
| RecordProtection.SharpSizeBound | tls_web_server/tls/record_protection.py:13-30 | protect, frame, pop and unprotect recover a plaintext exactly up to 16,777,180 bytes |
| RecordProtection.OversizeRefused | tls_web_server/tls/framing.py:26-31 | a longer frame is refused as soon as its four header bytes are in |
| Connection.ToyTLSServerConnection.constructor | tls_web_server/tls/connection.py:88-97 | the initial state |
| Connection.ToyTLSServerConnection.FeedWireData | tls_web_server/tls/connection.py:103-118 | state, buffer and exception after any chunk, for the whole record loop |
| Connection.ToyTLSServerConnection.OnClientHello | tls_web_server/tls/connection.py:137-140 | every way a ClientHello is refused, and the hand-over of a 32-byte share |
| Connection.ToyTLSServerConnection.AnswerShare | tls_web_server/tls/connection.py:145-168 | both flights are queued, and one signature made, before the exchange may fail |
| Connection.ToyTLSServerConnection.Exchange | tls_web_server/tls/connection.py:164-168 | both keys in their roles and ESTABLISHED, or an exception and neither |
| Connection.ToyTLSServerConnection.OnApplicationRecord | tls_web_server/tls/connection.py:170-175 | counter and plaintext move together, and only on acceptance |
| Connection.ToyTLSServerConnection.PopPendingWireData | tls_web_server/tls/connection.py:120-123 | takes the pending bytes and changes nothing else |
| Connection.ToyTLSServerConnection.ReadPlaintext | tls_web_server/tls/connection.py:125-128 | takes the plaintext and changes nothing else |
| Connection.ToyTLSServerConnection.ProtectApplicationData | tls_web_server/tls/connection.py:130-135 | a framed record under the server-write key and the next number, or an exception; the counter moves before framing may fail |
| Connection.Framed | tls_web_server/tls/connection.py:148-149 | a framed message, or a struct.error of either step |
| Connection.FramedAuth | tls_web_server/tls/connection.py:156-162 | ServerAuth: leaf, intermediates, signature |
| Connection.CertificateList | tls_web_server/tls/connection.py:156-160 | the loop lists the certificates in order |
| Connection.HelloFits | tls_web_server/tls/connection.py:148-149 | a hello has 38 bytes and can always be framed |
| Connection.ToyTLSClientConnection.constructor | tls_web_server/tls/connection.py:183-201 | the initial state, with the framed ClientHello pending |
| Connection.ToyTLSClientConnection.FeedWireData | tls_web_server/tls/connection.py:207-224 | state, buffer and exception after any chunk |
| Connection.ToyTLSClientConnection.OnServerHello | tls_web_server/tls/connection.py:243-246 | the share is stored as it came, whatever its length |
| Connection.ToyTLSClientConnection.OnServerAuth | tls_web_server/tls/connection.py:248-278 | the checks in their order, each with its exception, then keys and ESTABLISHED |
| Connection.ToyTLSClientConnection.OnApplicationRecord | tls_web_server/tls/connection.py:280-285 | counter and plaintext move together, and only on acceptance |
| Connection.ToyTLSClientConnection.PopPendingWireData | tls_web_server/tls/connection.py:226-229 | takes the pending bytes and changes nothing else |
| Connection.ToyTLSClientConnection.ReadPlaintext | tls_web_server/tls/connection.py:231-234 | takes the plaintext and changes nothing else |
| Connection.ToyTLSClientConnection.ProtectApplicationData | tls_web_server/tls/connection.py:236-241 | a framed record under the client-write key and the next number, or an exception |
| Connection.ServerChunkingIrrelevant | tls_web_server/tls/connection.py:103-118 | fragmentation independence of the server, failures included |
| Connection.ClientChunkingIrrelevant | tls_web_server/tls/connection.py:207-224 | fragmentation independence of the client, failures included |
| HandshakeBytes.BigEndian | tls_web_server/tls/framing.py:10 | the three integer formats, digit by digit |
| HandshakeBytes.FrameBytes | tls_web_server/tls/framing.py:9-10 | four bytes of length, then the payload |
| HandshakeBytes.RecordBytes | tls_web_server/tls/record_protection.py:13-17 | eight bytes of number, the nonce, and the text sealed with those eight bytes as associated data |
| HandshakeBytes.HelloBytes | tls_web_server/tls/connection.py:148-149 | a hello is the bytes 0 16 0 0 0 32 and the share, behind 0 0 0 38 on the wire |
| HandshakeBytes.AuthBytes | tls_web_server/tls/connection.py:156-162 | ServerAuth: each certificate behind 0 32 and its length, then the signature behind 0 33 and its length |
| HandshakeBytes.AnswerBytes | tls_web_server/tls/connection.py:137-168 | what a ClientHello is answered with, byte by byte: both messages whatever the exchange gives, the signature over the client share followed by the fresh share, one signature, and keys exactly if the exchange gives a secret |
| HandshakeBytes.AnswerUnframed | tls_web_server/tls/connection.py:137-162 | if ServerAuth cannot be framed, ServerHello is queued and a signature made all the same, and struct.error leaves no keys |
| HandshakeBytes.FirstIsFirst | tls_web_server/tls/messages.py:36-40 | the first field with the tag, and no field of the tag before it, or there is none |
| HandshakeBytes.HelloAcceptedIff | tls_web_server/tls/connection.py:137-168 | the server is established by exactly the records that hold a 32-byte share first under tag 16 and whose exchange and messages succeed; by any other it is left without keys |
| HandshakeBytes.HelloRefused | tls_web_server/tls/connection.py:137-168 | which exception a ClientHello meets, exactly |
| HandshakeBytes.ServerHelloIff | tls_web_server/tls/connection.py:243-246 | the client goes on to ServerAuth exactly for records with a share, which it stores |
| HandshakeBytes.AuthAcceptedIff | tls_web_server/tls/connection.py:248-278 | the client is established by exactly the records whose certificates load and chain to the root and whose signature verifies over its own share followed by the share it was sent, with the keys of that exchange in their roles; otherwise nothing changes |
| HandshakeBytes.AuthRefused | tls_web_server/tls/connection.py:248-271 | which exception a ServerAuth meets, exactly: the first check it fails |
| HandshakeBytes.OpensIff | tls_web_server/tls/record_protection.py:20-30 | a record is accepted exactly if it has 36 bytes, the expected number in the first eight, and opens under the next twelve with them as associated data |
| HandshakeBytes.RecordRefused | tls_web_server/tls/record_protection.py:20-30 | InvalidTag exactly for size and number right and no opening, and otherwise a ValueError |
| HandshakeBytes.AcceptingCounts | tls_web_server/tls/connection.py:170-175 | the server counts and appends exactly what opens, and otherwise stays as it was |
| HandshakeBytes.ClientAcceptingCounts | tls_web_server/tls/connection.py:280-285 | so does the client |
| HandshakeBytes.ProtectingCounts | tls_web_server/tls/connection.py:130-135 | when the server gives a record, when it refuses, and that the counter moves with every one sealed, framed or not |
| HandshakeBytes.ClientProtectingCounts | tls_web_server/tls/connection.py:236-241 | the same of the client |
| Session.ToySetupHonest | tls_web_server/tls/connection.py:88-201 | an honest setup exists |
| Session.AuthAccepted | tls_web_server/tls/connection.py:248-274 | the client accepts an honest ServerAuth and derives the server's secret |
| Session.ServerDrains | tls_web_server/tls/connection.py:103-175 | any part of an honest client's stream is taken without an exception, in order, leaving exactly the frames not yet taken |
| Session.ClientDrains | tls_web_server/tls/connection.py:207-285 | the same for the client and the server's stream |
| HonestRun.NextKeepsInv | tls_web_server/tls/connection.py:103-285 | every step of the two-party system keeps the invariant |
| HonestRun.HonestRunSafe | tls_web_server/tls/connection.py:103-285 | no interleaving raises, and in both directions what is delivered is a prefix of what was sent |
| HonestRun.InFlightDecomposes | tls_web_server/tls/connection.py:103-285 | buffered, in-flight and pending bytes are exactly the frames not yet accepted; counters count deliveries |
| HonestRun.DeliveryAtQuiescence | tls_web_server/tls/connection.py:137-285 | with nothing pending or in flight, both ends are established with equal keys, empty buffers, equal counters and everything delivered |
| HonestRun.AlwaysCompletable | tls_web_server/tls/connection.py:103-285 | from every reachable state four steps complete the session |
| EarlyRecords.EarlyRaises | tls_web_server/tls/connection.py:207-278 | any payloads in front of the flight make the client raise by the end of the flight at the latest |
| EarlyRecords.EarlyRecordRaises | tls_web_server/tls/connection.py:120-135 | in every honest setup a record that overtakes the pending flight makes the client raise, whatever it says and whatever follows |
| EarlyRecords.RaisesIffEarly | tls_web_server/tls/connection.py:103-285 | a run come to rest has raised if and only if application data was sent while handshake bytes were pending |
| ArbitraryNetwork.OnlyTheNextRecord | tls_web_server/tls/record_protection.py:20-30 | under ideal integrity and distinct keys only the peer's next record is ever accepted |
| ArbitraryNetwork.PrefixDelivery | tls_web_server/tls/connection.py:170-175 | for any bytes fed to either end, exceptions ignored, what was accepted is the first `_recv_seq` plaintexts the peer protected |
| Agreement.DrainHonours | tls_web_server/tls/connection.py:151-168 | a server run that has signed is established with the keys of that exchange, if the exchange succeeds at all |
| Agreement.DrainChecks | tls_web_server/tls/connection.py:248-278 | an established client has a 32-byte share that some run signed together with its own |
| Agreement.SharesUnambiguous | tls_web_server/tls/connection.py:56-57 | the concatenation of the two shares determines both |
| Agreement.HandshakeAgreement | tls_web_server/tls/connection.py:248-278 | whenever a client is established, some run signed exactly its pair of shares, succeeded itself, and holds the same keys in the same roles |
| SecureSession.SessionAgreement | tls_web_server/tls/connection.py:103-285 | from the first byte on, beside any number of runs and over any network: what an established client accepted is a prefix of what its agreeing run protected, and the converse |
| SecureSession.NothingBefore | tls_web_server/tls/connection.py:236-285 | a client that is not established has accepted and protected nothing |
| SecureSession.HonestSessions | tls_web_server/tls/connection.py:88-285 | honest parties have a world in which two server runs are established with keys apart, and the client with one of them |
| SecureSession.ToyParties | tls_web_server/tls/key_schedule.py:11-24 | parties that meet all assumptions, with two sessions whose keys have nothing in common, exist |
| Text.FindIsFirst | tls_web_server/http.py:46 | find gives an occurrence and none before it, or there is none |
| Text.FindStable | tls_web_server/http.py:46 | more data does not move the first occurrence |
| Text.SplitJoin | tls_web_server/http.py:52 | splitting joined lines gives the lines |
| Text.JoinSplit | tls_web_server/http.py:52 | joining a split gives the data |
| Text.ParseDecimal | tls_web_server/http.py:137-140 | int() inverts decimal printing, also behind the space of a header line |
| Text.FindHeaderEnd | tls_web_server/http.py:45-52 | the first CRLFCRLF behind lines without CR is the blank line itself |
| Text.NoZeroInFront | tls_web_server/http.py:137-140 | a printed number has no zero in front |
| Text.SpacesExactly | tls_web_server/http.py:68 | the whitespace of text and of bytes, by its codes |
| Text.StripExactly | tls_web_server/http.py:68 | strip takes all whitespace at both ends and nothing else |
| Text.LowerExactly | tls_web_server/http.py:68 | lower moves A to Z, and in Latin-1 the capitals of its upper half, by 32, and changes nothing else |
| Text.ParseIntIff | tls_web_server/http.py:76-79 | int() takes exactly whitespace, a sign or none, digits with single underscores between, whitespace, and gives their value |
| Http.HTTPParser.ParseMessage | tls_web_server/http.py:40-84 | the outcome for every buffer: nothing, incomplete, one of four rejections, or message and count |
| Http.HTTPParser.ParseHeaderBlock | tls_web_server/http.py:50-79 | the header loop, with the first malformed line rejected and the last field of a name kept |
| Http.DataProvider.Append | tls_web_server/http.py:95-99 | appends |
| Http.DataProvider.ReduceData | tls_web_server/http.py:101-102 | Python's slice, negative sizes included |
| Http.SlicesExactly | tls_web_server/http.py:82-102 | what the two slices take and leave, for every integer |
| Http.ParseStable | tls_web_server/http.py:40-84 | rejections are final; messages of non-negative length are final with their count |
| Http.ParseStableIff | tls_web_server/http.py:76-83 | a message is final for every continuation if and only if its length is not negative |
| Http.ParseProgress | tls_web_server/http.py:40-84 | 4 < consumed <= len(data), the measure of the request loop |
| Http.RequestRoundTrip | tls_web_server/http.py:50-84 | a printed request parses to itself and consumes exactly its bytes, whatever follows |
| Http.NegativeRequestParses | tls_web_server/http.py:77-83 | a GET with length minus n parses, with a body that depends on what follows and a count of size minus n |
| Http.NegativeLengthUnstable | tls_web_server/http.py:77-83 | a concrete request whose message changes when bytes arrive |
| Rejections.StartLineIff | tls_web_server/http.py:53-57 | a first line has its three parts exactly if it has two blanks, and which parts |
| Rejections.RejectsStart | tls_web_server/http.py:55-56 | a first line without them is named as malformed |
| Rejections.RejectsVersion | tls_web_server/http.py:58-59 | a version that does not start with HTTP/ is named as unsupported |
| Rejections.RejectsHeader | tls_web_server/http.py:62-66 | the first header line without a colon is named as malformed |
| Rejections.EmptyLinesPass | tls_web_server/http.py:62-64 | empty header lines are passed over |
| Rejections.RejectsLength | tls_web_server/http.py:75-79 | a Content-Length that is no number is named, stripped |
| HttpTexts.AsciiName | tls_web_server/http.py:67-68 | an ASCII header name, whatever whitespace is around it, is stored with A to Z moved by 32 and the rest as it is |
| HttpTexts.UsualNames | tls_web_server/http.py:68-70 | Content-Length, Connection and Host are stored as content-length, connection and host |
| HttpTexts.CaseIrrelevant | tls_web_server/http.py:50-84 | requests that differ in the case of header names only have one message and one count |
| HttpTexts.KeepAliveText | tls_web_server/http.py:40-84 | GET / with Connection: keep-alive: its header map, no body, 42 bytes, and it asks to stay |
| HttpTexts.ContentLengthText | tls_web_server/http.py:70-84 | GET / with Content-Length and a body: its header map, that body, all of it consumed |
| Pipeline.ServeConserves | tls_web_server/server.py:219-241 | the loop ends, and request texts taken followed by the rest are all bytes |
| Pipeline.ServeAppend | tls_web_server/server.py:219-241 | serving a part and then more is serving everything at once |
| Pipeline.RegularPrefix | tls_web_server/server.py:219-241 | a part of a stream without negative lengths has none, nor has what the loop leaves of it |
| Pipeline.ChunkedServe | tls_web_server/server.py:219-241 | over any chunking the responses are those of the whole stream, up to the first closing one |
| Pipeline.ServePrinted | tls_web_server/server.py:219-241 | pipelined printed requests are answered one by one, each as itself |
| Pipeline.NoProgressIff | tls_web_server/http.py:70-102 | a parsed request leaves the buffer as it is exactly for the declared lengths named |
| Pipeline.SpinsIff | tls_web_server/server.py:219-241 | the loop does not end exactly when it comes to a kept-alive request that leaves the buffer as it is |
| Pipeline.KeptRequestSpins | tls_web_server/server.py:219-241 | a GET that asks to keep the connection alive and declares minus n is stuck exactly if the site does keep it and n is its size or at least twice that, and then it is answered for ever |
| Pipeline.StuckLength | tls_web_server/http.py:76-83 | such an n exists for every target |
| StaticSite.SiteSpeaks | tls_web_server/http.py:137-183 | no response of the site is empty |
| StaticSite.StaysOpenIff | tls_web_server/http.py:165-183 | the connection stays open exactly after a GET or HEAD that asks for it and finds its file |
| StaticSite.StuckAsksToStay | tls_web_server/http.py:165-183 | the loop is stuck only on requests that ask to keep the connection alive |
| StaticSite.StuckRequest | tls_web_server/server.py:219-241 | for every file of every site there is a request on which the loop does not end |
| HttpTexts.HttpResponseText | tls_web_server/http.py:128-145 | every byte of a response: status line, length, type, connection, blank line, body |
| HttpTexts.AnswerTexts | tls_web_server/http.py:165-183 | every answer of every site as the bytes it is: 405, 403, 404, and a file after GET or, without its body, after HEAD |
| HttpTexts.RejectionText | tls_web_server/server.py:229-232 | and that to a bad request |
| HttpTexts.ConnectionSays | tls_web_server/http.py:136-143 | the last header line is Connection: close exactly if the server closes, and Connection: keep-alive otherwise |
| Server.ConnectionContext.constructor | tls_web_server/server.py:61-78 | the state after accept |
| Server.WebServer.CloseConnection | tls_web_server/server.py:294-302 | closes once, drops the registration |
| Server.WebServer.QueueOutput | tls_web_server/server.py:256-263 | output grows and write interest is set, unless empty or closed |
| Server.WebServer.SendApplicationBytes | tls_web_server/server.py:243-254 | plain bytes or one record queued; only a ToyTLSProtocolError is caught |
| Server.WebServer.HandleHttpMessages | tls_web_server/server.py:219-241 | the whole state after the request loop, for every buffer; or that the loop repeats one turn for ever |
| Server.WebServer.RespondTo | tls_web_server/server.py:236-241 | one turn of it |
| Server.WebServer.AppendInput | tls_web_server/server.py:212-217 | plaintext appended, then the loop |
| Server.WebServer.ReadFromConnection | tls_web_server/server.py:183-217 | all outcomes of recv, on both paths |
| Server.WebServer.ReadFromTls | tls_web_server/server.py:199-213 | close on a caught exception, otherwise pending bytes queued and then plaintext handled |
| Server.WebServer.ModifyReadOnly | tls_web_server/server.py:286-292 | drops write interest |
| Server.WebServer.FlushOutput | tls_web_server/server.py:265-284 | partial sends, would-block and errors; close or go read-only when empty |
| Server.WebServer.ServiceConnection | tls_web_server/server.py:176-181 | one selector event |
| Server.AnswerShrinks | tls_web_server/server.py:236-241 | one turn of the loop leaves what the slice leaves, and never more input than before |
| ConnectionRuns.HandleKeeps | tls_web_server/server.py:219-241 | on a connection that can send, the loop queues exactly the pipeline's responses and leaves its rest |
| ConnectionRuns.DrainMoves | tls_web_server/tls/connection.py:103-175 | any bytes either leave a waiting server end as it was or establish it by its first signature with that flight pending; an established end only receives |
| ConnectionRuns.ServiceKeeps | tls_web_server/server.py:176-302 | every event keeps the invariant of a connection |
| ConnectionRuns.OutputConserved | tls_web_server/server.py:176-302 | sent then waiting is queued; open with output means write interest; open and closing means output; a close not caused by an error has empty output |
| LinkRuns.WriteInterestIff | tls_web_server/server.py:256-292 | in every state of every run write events are asked for exactly while an open connection has output |
| LinkRuns.SendMoves | tls_web_server/server.py:273-284 | send moves exactly the bytes it took, from the front |
| LinkRuns.ClosedIff | tls_web_server/server.py:176-302 | one event closes a connection exactly for a recv or send error, a caught TLS exception, the end of the stream with nothing waiting, or the last byte sent of a connection marked closing |
| LinkRuns.ClosingIff | tls_web_server/server.py:183-241 | one event marks a connection closing exactly if it makes a closing response, or is the end of the stream with output waiting |
| LinkRuns.FinishedPeerIsLetGo | tls_web_server/server.py:192-197 | a peer that has finished is let go at once or with the last byte |
| LinkRuns.RefusedSendCloses | tls_web_server/server.py:243-252 | a response on a TLS connection that is not established closes it, with nothing queued |
| LinkRuns.AnyPeerLoopExact | tls_web_server/server.py:199-217 | for every TLS peer and any bytes the event loop runs exactly if every pass returns and every response has its record; if each has one, it otherwise spins |
| LayerRuns.DrainLayered | tls_web_server/tls/connection.py:103-175 | whatever bytes arrive and whatever they raise, keys and ESTABLISHED come together and stay |
| LayerRuns.LayerSafety | tls_web_server/server.py:210-254 | in every state of every run, crashed and failed ones included: the refusing branch is never taken, keys exist exactly when established and never change, nothing is received, decrypted or answered before |
| ConnectionRuns.ServerWireShape | tls_web_server/server.py:204-213 | everything queued is ServerHello, ServerAuth and the records of the responses numbered from zero |
| ConnectionRuns.RecordsNeverRepeat | tls_web_server/tls/connection.py:130-135 | whatever a TLS connection has queued is two messages and then one payload for each response under its one key, no two with one sequence number |
| ReplyRule.RepliesExact | tls_web_server/server.py:183-241 | in every run the plaintext is the chunks; while the event loop runs, the responses are those of one pass for each chunk, over what the pass before it left, and all passes have returned; a loop that spins is in a pass that does not |
| ReplyRule.RefoldExtends | tls_web_server/server.py:219-241 | these begin with the responses of one pass over everything, and are those while none closes |
| ReplyRule.RejectedTwice | tls_web_server/server.py:229-232 | two reads that draw a second response behind a closing one |
| RecordFailures.FailureDrops | tls_web_server/server.py:200-208 | a caught exception closes and leaves all that HTTP has seen and said as it was |
| RecordFailures.CutMatters | tls_web_server/server.py:199-213 | of bytes that end in a failure, a cut changes the responses exactly when the records before it complete a request |
| RecordFailures.CutWitness | tls_web_server/server.py:199-213 | in every honest session two ways to cut the same bytes that are answered differently |
| Transparency.PlaintextArrives | tls_web_server/server.py:199-213 | any part of an honest stream, in any pieces, causes no failure and hands up exactly its whole messages |
| Transparency.ResponsesDecrypt | tls_web_server/server.py:243-284 | the honest client decrypts what was sent to the first so-many responses, all of them once the buffer is empty |
| Transparency.DecryptsIffFits | tls_web_server/tls/framing.py:9-31 | once flushed, it decrypts without an exception exactly if all responses fit into a record, and holds those before the first that does not |
| Transparency.RepliesAgree | tls_web_server/server.py:219-241 | the responses of a connection agree with the pipeline on the whole stream up to the first closing one |
| Transparency.TlsTransparency | tls_web_server/server.py:183-263 | at every moment of any two runs, however they went, both paths show the pipeline's responses up to the first closing one; what is sent and what waits are all responses made, and at least those of the plaintext read |
| Transparency.TlsTransparencyComplete | tls_web_server/server.py:183-263 | once everything has been heard, wherever the last read ended, and flushed, both paths show all responses up to and including the first closing one |
| SteadyRuns.SettledPrefix | tls_web_server/server.py:219-241 | before the last byte of a settled stream nothing closes |
| SteadyRuns.PrintedSettles | client_side.py:30 | pipelined requests of which only the last may close are a settled stream, answered one by one |
| SteadyRuns.TlsLoopExact | tls_web_server/server.py:183-263 | on any part of an honest stream, in any pieces, the event loop runs exactly if every pass returns and every response has its record; if each has one, it otherwise spins |
| SteadyRuns.PlainLoopExact | tls_web_server/server.py:183-263 | a plain connection runs exactly if every pass returns, and otherwise spins, with no bound on anything |
| SteadyRuns.OnceClosedEnds | tls_web_server/server.py:219-241 | if only the last chunk closes, also one that goes on behind the closing request, every pass returns and the responses are those of one pass over everything |
| SteadyRuns.TlsStaysRunning | tls_web_server/server.py:183-263 | on any part of an honest stream, in reads of which only the last may bring a closing request, no exception escapes, the loop returns and the responses are exactly those due |
| SteadyRuns.PlainStaysRunning | tls_web_server/server.py:183-263 | the same on the plain path, with no bound on anything |
| SteadyRuns.TransparentOnceClosed | tls_web_server/server.py:183-263 | with nothing read behind the read that brought a closing request, and no assumption on how the runs went: the plain peer holds the responses of the pipeline, the TLS client those up to the first that does not fit, and both the same bytes exactly if all fit |
| SteadyRuns.OneRequestSpins | tls_web_server/server.py:219-241 | for every file of every site one read from which the server does not come back |
| SteadyRuns.SpinsBehindClosing | tls_web_server/server.py:219-241 | read behind any closing request, before its response has left, the same request keeps that response from ever leaving |
| SteadyRuns.TlsCompletable | tls_web_server/server.py:176-284 | from every open state an honest stream can lead to, reading the rest and flushing completes the run |
| SteadyRuns.PlainCompletable | tls_web_server/server.py:176-284 | the same on the plain path |
| ClientLoop.CheckResponse | client_side.py:69-75 | whether a response is complete, by the first Content-Length line that says so |
| HttpTexts.CheckLinesExactly | client_side.py:71-75 | the header is decided by its first length line, in any case, that is no number or has been reached |
| ClientLoop.RecvTlsHttpResponse | client_side.py:44-76 | what the read loop returns over any sequence of recv results |
| ClientLoop.Handshake | client_side.py:101-108 | where the handshake loop ends over any sequence of recv results |
| ClientLoop.ReadLoopEnds | client_side.py:44-76 | for any peer the loop goes on exactly to the first chunk that ends it, and what each ending gives |
| ClientLoop.EofReturnsWhatCame | client_side.py:54-55 | the end of the stream returns what was read |
| ClientLoop.EofFailsHandshake | client_side.py:102-104 | during the handshake it is an error |
| ClientLoop.LengthLineReads | client_side.py:71-73 | the loop reads the number that http_response printed |
| ClientLoop.CheckOfPrefix | client_side.py:69-75 | of a response with its own length, no strict prefix is complete and the whole is |
| ClientLoop.ReadLoopExact | client_side.py:44-76 | over any records and chunks the loop never raises, never returns a strict prefix, and returns exactly the response |
| ClientLoop.HandshakeLoopCompletes | client_side.py:101-108 | over any chunking of the flight the loop never fails and ends exactly when all is in |
| ClientLoop.ClientSessionExact | client_side.py:98-111 | handshake, one request, one response: exactly that response |
| EndToEnd.AskedText | client_side.py:30 | the request of the model is HTTP_REQUEST, line by line |
| EndToEnd.AskedAnswer | tls_web_server/http.py:165-183 | the site answers it with what the files hold for "/", as the bytes it is, and closes |
| EndToEnd.ToyEnds | client_side.py:87-111 | a client and a server to join exist |
| EndToEnd.NextKeeps | client_side.py:87-111 | every move of the joined system, a server's event or a client's recv, keeps the invariant of the talk |
| EndToEnd.NoEarlyEof | client_side.py:101-104 | the server never ends the stream before the client has read its response |
| EndToEnd.RequestOverTls | client_side.py:87-111 | under any cutting of both directions neither end raises, what the client returns is exactly the response of the site to HTTP_REQUEST, and with nothing on the way and nothing waiting it has returned |
| EndToEnd.RequestCompletable | client_side.py:87-111 | every moment of every talk can be continued until it has |
| Lexer.ConfigLexer.Tokenize | tls_web_server/config.py:80-98 | all tokens, or the position of the first unexpected character |
| Lexer.ClassesExactly | tls_web_server/config.py:73-74 | the characters of words and of layout, by their codes |
| Lexer.UnmatchedIff | tls_web_server/config.py:67-88 | no alternative matches exactly at a quote that nothing closes and at a character that starts none |
| ConfigMeaning.BadCharacterThere | tls_web_server/config.py:86-88 | the position reported is that of such a character, and all before it lexes |
| Lexer.LexPrinted | tls_web_server/config.py:67-98 | lexing a written file gives its tokens, whatever the layout and the comments before, between and behind them |
| Lexer.EveryTextIsPrinted | tls_web_server/config.py:67-98 | every text that lexes is a written file of just those tokens |
| Lexer.LexedTokensOk | tls_web_server/config.py:67-98 | every token that comes out can be written down again |
| Parser.ConfigParser.constructor | tls_web_server/config.py:109-111 | starts at the first token |
| Parser.ConfigParser.Parse | tls_web_server/config.py:113-114 | the dictionary and the position after it, or the SyntaxError |
| Parser.ConfigParser.Block | tls_web_server/config.py:116-159 | the same from any position |
| Parser.ConfigParser.Statement | tls_web_server/config.py:126-158 | one statement, and progress |
| Parser.ParseTokens | tls_web_server/config.py:116-170 | the tokens of any tree parse to what it denotes, with the position just past its brace whatever follows, or to the error for which it is refused |
| Parser.ParseWhole | tls_web_server/config.py:113-170 | the same at the end of the file |
| Parser.DenotesIff | tls_web_server/config.py:136-143 | a tree is refused exactly if it is not well-kinded |
| ParsedTrees.ParsesIff | tls_web_server/config.py:116-159 | the language of the parser: the tokens of a well-kinded tree, lacking its last braces or with a brace too many and anything behind it |
| ParsedTrees.TextParsesIff | tls_web_server/config.py:116-159 | the same of the tokens of any text |
| ParsedTrees.ReadingIsParsed | tls_web_server/config.py:116-159 | any reading of the tokens as such a tree is what the parser makes of them |
| ParsedTrees.FaultIsReported | tls_web_server/config.py:122-158 | behind statements that parse, the first fault is the error: no name where one is due, an end or a brace inside a directive, a block with two arguments |
| ParsedTrees.FaultInside | tls_web_server/config.py:136-137 | an error inside a block is the error of the whole |
| Typed.ParseListen | tls_web_server/config.py:192-202 | the loop over the occurrences, with the first bad port reported |
| Typed.ParseConfigDict | tls_web_server/config.py:228-253 | the loop over the server items, with the first error reported |
| Typed.ParsedShaped | tls_web_server/config.py:116-170 | the shapes a parsed dictionary can have |
| Typed.OccurrencesReadable | tls_web_server/config.py:173-189 | so reading an occurrence fails only on a block |
| ConfigMeaning.GetDenoted | tls_web_server/config.py:116-170 | under a key lies exactly the fold of its occurrences, in order, whatever stands around them |
| ConfigMeaning.AccumulatorExact | tls_web_server/config.py:161-182 | what reading back a directive gives, and exactly when that is everything; non-empty argument lists always survive in order |
| ConfigMeaning.LeadingEmptyIsLost | tls_web_server/config.py:161-189 | a concrete directive that is read back differently |
| ConfigMeaning.ListensMatchSource | tls_web_server/config.py:192-202 | typed listeners are those written, in source order |
| ConfigMeaning.FirstMeans | tls_web_server/config.py:185-189 | a single-valued directive is its first kept occurrence |
| ConfigMeaning.MixedReadBack | tls_web_server/config.py:161-182 | with unnamed blocks among the directives: one block alone is an error, otherwise all occurrences come back but a leading empty directive |
| ConfigMeaning.FirstMixed | tls_web_server/config.py:185-189 | and what the first argument then is |
| ConfigMeaning.EmptyBlocksArePassedOver | tls_web_server/config.py:192-197 | where arguments are expected an empty block is passed over |
| ConfigMeaning.FullBlockFails | tls_web_server/config.py:192-197 | and any other is an error |
| ConfigMeaning.TlsMeans | tls_web_server/config.py:217-225 | the TLS settings are those that the tree means |
| ConfigMeaning.TlsExactly | tls_web_server/config.py:217-225 | nothing exactly without both paths, an error exactly with one of them, and otherwise certificate, key and chain each in its field |
| ConfigMeaning.LocationsMean | tls_web_server/config.py:205-214 | the location map is that of the blocks written, the last of a path winning |
| ConfigMeaning.LocationsWithoutBlocks | tls_web_server/config.py:205-214 | without a location the default one; with directives under that name none |
| ConfigMeaning.ServerItemsExact | tls_web_server/config.py:233-239 | one, several or no server blocks come back one for one |
| ConfigMeaning.DirectivesArePassedOver | tls_web_server/config.py:241-243 | server directives among the blocks are passed over |
| ConfigMeaning.DictionaryMeans | tls_web_server/config.py:228-253 | the typed reading of a tree's dictionary is the tree's own meaning |
| ConfigMeaning.LoadConfig | tls_web_server/config.py:256-261 | the three stages in sequence, each with its error |
| ConfigMeaning.LoadPrinted | tls_web_server/config.py:256-261 | a conventional configuration, written in any layout and with any comments, loads as exactly the servers in it, in source order |
| ConfigMeaning.LoadWithoutHttp | tls_web_server/config.py:228-252 | without http no server, and with a directive of that name no http block |
| DemoConfig.DemoLoads | server_side.py:75-95 | the file that the repository writes for two ports, character by character, loads as one server: two listeners, localhost, its three certificate paths, html |
| ConfigMeaning.LoadRefused | tls_web_server/config.py:256-261 | and any tree, conventional or not, fails with the SyntaxError that names a key exactly if it is not well-kinded |

## Left out

- Certificates: generation, PEM and DER loading and X.509 path validation are predicates of the suite.
- The insides of X25519, HKDF, AES-GCM and RSA-PSS, and the library's limit of 2^31 - 1 bytes on one AES-GCM call.
- Probability: ideal integrity and ideal signatures are idealised functions, with no bound on an adversary's chance.
- Sockets, selectors, threads, accept, listener setup and cleanup: only what recv and send give and the interest mask.
- Reads are of any size, not at most 4096 bytes, so the theorems cover more chunkings than recv makes.
- The site: file lookup, path safety and location matching are one parameter (a target leads outside, nowhere or to a file), the text of 400 responses another, and the files do not change during a run.
- The 4300-digit limit of int(): longer decimal texts are parsed here and refused by Python.
- Characters of configuration files are compared as they are; int() of a listen port is a parameter.
- Order of locations: the map keeps the last location of each path, not the insertion order.
- Configurations that mix kinds under a key the typed reading looks at (a block named listen, say): MixedReadBack, FirstMixed and FullBlockFails say how they are read, LoadPrinted does not speak of them.
- Conformance to TLS 1.3 (RFC 8446): the wire format is the repository's own (README.md:34).
- scripts/demo.py, server_side.py and the plain client: scripts.
- EndToEnd.RequestOverTls: the response has to fit into one record; the network keeps the order and loses nothing, and the client closes its socket only after it has returned.
- Server.WebServer.HandleHttpMessages: where the loop of the source repeats one turn for ever, the method stops after that turn and reports `Spins`; in truth it would end when memory or, on TLS, sequence numbers run out.
- Server.ConnectionContext.constructor: a close that fails inside the operating system is not modelled; a closed connection stays closed.
- HonestRun.NextKeepsInv: the server's caller takes the pending flight before it sends application data; EarlyRecords drops that and says exactly what follows.
- Transparency.TlsTransparency: asks that the responses queued fit into one record; DecryptsIffFits says what the client holds when they do not.
- Transparency.TlsTransparencyComplete: asks that the event loop is running, because bytes read behind a closing response, before it has been flushed, can make the request loop repeat itself, and then that response never leaves (SteadyRuns.SpinsBehindClosing). TransparentOnceClosed asks nothing of the kind, for runs that read nothing behind the read that brought a closing request.
- LinkRuns.AnyPeerLoopExact: asks that the certificates fit into one message; otherwise AnswerHello raises struct.error, which the server does not catch.
- SteadyRuns.TlsStaysRunning: needs at most 2^64 responses on one connection, none above 4,294,967,259 bytes, which cannot be framed; without that TlsLoopExact says that the loop does not run on.
- SecureSession.SessionAgreement: assumes that no server-write key of a run is a key of another run or the run's own client-write key; the source leaves that to HKDF and fresh ephemerals.
