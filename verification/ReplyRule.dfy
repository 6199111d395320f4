/** Which responses a connection makes, said exactly: the request loop is started again
    on what is left at every read, also behind a response that closes. */
module ReplyRule {
  import opened Wire
  import opened Text
  import opened Framing
  import opened Connection
  import opened Http
  import opened Pipeline
  import opened Server
  import opened ConnectionRuns

  // ---- the plaintext chunks of a run ----

  /** The plaintext that one event hands to HTTP, if any. */
  function ChunkOf(env: Setting, c: Conn, e: Event): seq<Bytes> {
    var d := Service(env, c, e);
    if |d.appended| > |c.appended| then [d.appended[|c.appended|..]] else []
  }

  function Chunks(env: Setting, c: Conn, events: seq<Event>): seq<Bytes>
    decreases |events|
  {
    if events == [] then [] else ChunkOf(env, c, events[0]) + Chunks(env, Service(env, c, events[0]), events[1..])
  }

  // ---- the rule ----

  datatype Folded = Folded(replies: seq<Bytes>, rest: Bytes)

  /** One pass of the request loop for each chunk, whatever the pass before ended with. */
  function Refold(site: Site, input: Bytes, chunks: seq<Bytes>): Folded
    decreases |chunks|
  {
    if chunks == [] then Folded([], input)
    else
      var served := Serve(site, input + chunks[0]);
      var later := Refold(site, served.rest, chunks[1..]);
      Folded(served.replies + later.replies, later.rest)
  }

  /** Every pass returns. */
  predicate PassesEnd(site: Site, input: Bytes, chunks: seq<Bytes>)
    decreases |chunks|
  {
    chunks != [] ==>
      var served := Serve(site, input + chunks[0]);
      served.ending != Spinning && PassesEnd(site, served.rest, chunks[1..])
  }

  lemma {:induction false} PassesEndAppend(site: Site, input: Bytes, first: seq<Bytes>, later: seq<Bytes>)
    ensures PassesEnd(site, input, first + later)
      <==> PassesEnd(site, input, first) && PassesEnd(site, Refold(site, input, first).rest, later)
    decreases |first|
  {
    if first == [] {
      assert first + later == later;
    } else {
      assert (first + later)[1..] == first[1..] + later;
      PassesEndAppend(site, Serve(site, input + first[0]).rest, first[1..], later);
    }
  }

  lemma {:induction false} RefoldAppend(site: Site, input: Bytes, first: seq<Bytes>, later: seq<Bytes>)
    ensures var a := Refold(site, input, first);
      var b := Refold(site, a.rest, later);
      Refold(site, input, first + later) == Folded(a.replies + b.replies, b.rest)
    decreases |first|
  {
    if first == [] {
      var b := Refold(site, input, later);
      assert first + later == later && [] + b.replies == b.replies;
    } else {
      var served := Serve(site, input + first[0]);
      assert (first + later)[1..] == first[1..] + later;
      RefoldAppend(site, served.rest, first[1..], later);
      var a := Refold(site, served.rest, first[1..]);
      ConcatAssoc(served.replies, a.replies, Refold(site, a.rest, later).replies);
    }
  }

  lemma {:induction false} RefoldOne(site: Site, input: Bytes, chunk: Bytes)
    ensures Refold(site, input, [chunk]) == Folded(Serve(site, input + chunk).replies, Serve(site, input + chunk).rest)
    ensures PassesEnd(site, input, [chunk]) <==> Serve(site, input + chunk).ending != Spinning
  {
    var served := Serve(site, input + chunk);
    assert [chunk][1..] == [];
    assert served.replies + [] == served.replies;
  }

  /** What one event does: the plaintext grows by its chunk, and unless an exception
      escapes, one pass of the loop is made over it, or not finished. */
  predicate Passed(env: Setting, c: Conn, d: Conn, chunk: seq<Bytes>) {
    && d.appended == c.appended + Flatten(chunk)
    && (d.loop == Running ==>
          var f := Refold(env.site, c.httpInput, chunk);
          d.replies == c.replies + f.replies && d.httpInput == f.rest && PassesEnd(env.site, c.httpInput, chunk))
    && (d.loop == Spins ==> !PassesEnd(env.site, c.httpInput, chunk))
  }

  lemma NothingPassed(env: Setting, c: Conn, d: Conn)
    requires d.appended == c.appended && d.replies == c.replies && d.httpInput == c.httpInput && d.loop != Spins
    ensures Passed(env, c, d, [])
  {
    assert c.appended + [] == c.appended && c.replies + [] == c.replies;
  }

  lemma AppendPasses(env: Setting, c: Conn, text: Bytes)
    requires Speaks(env.site) && c.link.Open? && c.loop == Running && OutputOk(c) && Sending(env, c)
    ensures Passed(env, c, Append(env, c, text), [text])
  {
    HandleKeeps(env, c.(httpInput := c.httpInput + text, appended := c.appended + text));
    RefoldOne(env.site, c.httpInput, text);
    assert Flatten([text]) == text + Flatten([]);
    assert text + [] == text;
  }

  lemma SameChunk(env: Setting, c: Conn, d: Conn, text: Bytes)
    requires text != [] && Passed(env, c, d, [text])
    ensures d.appended == c.appended + text
    ensures |d.appended| > |c.appended| && d.appended[|c.appended|..] == text
  {
    assert Flatten([text]) == text + Flatten([]);
    assert text + [] == text;
  }

  lemma DecryptedNothing(env: Setting, c: Conn, fed: Fed<ServerCore>)
    requires c.loop == Running && c.tls.Some? && Handed(fed) == []
    ensures Passed(env, c, Decrypted(env, c, fed), [])
  {
    NothingPassed(env, c, Decrypted(env, c, fed));
  }

  lemma DecryptedText(env: Setting, c: Conn, fed: Fed<ServerCore>)
    requires Speaks(env.site) && Inv(env, c) && c.link.Open? && c.loop == Running && c.tls.Some?
    requires Moved(env.tls, c.tls.value.core, fed.core, false) && fed.error.None? && fed.core.plaintext != []
    ensures Passed(env, Emptied(c, fed), Decrypted(env, c, fed), [fed.core.plaintext])
  {
    QueuedFlight(env, c, fed);
    AppendPasses(env, Emptied(c, fed), fed.core.plaintext);
  }

  lemma DecryptedPasses(env: Setting, c: Conn, fed: Fed<ServerCore>)
    requires Speaks(env.site) && Inv(env, c) && c.link.Open? && c.loop == Running && c.tls.Some?
    requires Moved(env.tls, c.tls.value.core, fed.core, fed.error.Some?)
    ensures Passed(env, c, Decrypted(env, c, fed), Handed(fed))
  {
    if Handed(fed) == [] {
      DecryptedNothing(env, c, fed);
    } else {
      DecryptedText(env, c, fed);
    }
  }

  /** A feed that raised hands nothing up, whatever it had decrypted. */
  function Handed(fed: Fed<ServerCore>): seq<Bytes> {
    if fed.error.None? && fed.core.plaintext != [] then [fed.core.plaintext] else []
  }

  lemma ReadPasses(env: Setting, c: Conn, r: Recv) returns (chunk: seq<Bytes>)
    requires Speaks(env.site) && Inv(env, c) && c.link.Open? && c.loop == Running
    ensures Passed(env, c, Read(env, c, r), chunk)
    ensures |chunk| <= 1 && (chunk != [] ==> chunk[0] != [])
  {
    if !r.Data? || r.bytes == [] {
      chunk := [];
      NothingPassed(env, c, Read(env, c, r));
    } else if c.tls.None? {
      chunk := [r.bytes];
      AppendPasses(env, c.(wireIn := c.wireIn + r.bytes), r.bytes);
    } else {
      var end := c.tls.value;
      var fed := Feed(ServerHandler(env.tls), end.core, end.buffer, r.bytes);
      DrainMoves(env.tls, end.core, end.buffer + r.bytes);
      chunk := Handed(fed);
      DecryptedPasses(env, c.(wireIn := c.wireIn + r.bytes), fed);
    }
  }

  lemma FlushPasses(c: Conn, r: SendResult)
    ensures var d := Flush(c, r);
      d.appended == c.appended && d.replies == c.replies && d.httpInput == c.httpInput && d.loop == c.loop
  {
  }

  lemma ServicePasses(env: Setting, c: Conn, e: Event)
    requires Speaks(env.site) && Inv(env, c) && c.loop == Running
    ensures Passed(env, c, Service(env, c, e), ChunkOf(env, c, e))
  {
    var d := Service(env, c, e);
    if Reported(c, e) {
      var m := c;
      var chunk: seq<Bytes> := [];
      if e.read.Some? {
        m := Read(env, c, e.read.value);
        chunk := ReadPasses(env, c, e.read.value);
      } else {
        NothingPassed(env, c, m);
      }
      if m.loop == Running && m.link.Open? && e.write.Some? {
        FlushPasses(m, e.write.value);
      }
      assert Passed(env, c, d, chunk);
      if chunk != [] {
        assert chunk == [chunk[0]];
        SameChunk(env, c, d, chunk[0]);
      } else {
        assert c.appended + [] == c.appended;
      }
    } else {
      NothingPassed(env, c, d);
    }
  }

  lemma {:induction false} StoppedStays(env: Setting, c: Conn, events: seq<Event>)
    requires c.loop != Running
    ensures Run(env, c, events) == c && Chunks(env, c, events) == []
    decreases |events|
  {
    if events != [] {
      StoppedStays(env, c, events[1..]);
    }
  }

  lemma {:induction false} RunPasses(env: Setting, c: Conn, events: seq<Event>)
    requires Speaks(env.site) && Inv(env, c) && c.loop == Running
    ensures Passed(env, c, Run(env, c, events), Chunks(env, c, events))
    decreases |events|
  {
    if events == [] {
      NothingPassed(env, c, c);
    } else {
      var d := Service(env, c, events[0]);
      var first := ChunkOf(env, c, events[0]);
      ServiceKeeps(env, c, events[0]);
      ServicePasses(env, c, events[0]);
      if d.loop == Running {
        RunPasses(env, d, events[1..]);
        PassedTwice(env, c, d, Run(env, c, events), first, Chunks(env, d, events[1..]));
      } else {
        StoppedStays(env, d, events[1..]);
        assert first + [] == first;
      }
    }
  }

  lemma PassedTwice(env: Setting, c: Conn, m: Conn, d: Conn, first: seq<Bytes>, later: seq<Bytes>)
    requires Passed(env, c, m, first) && Passed(env, m, d, later) && m.loop == Running
    ensures Passed(env, c, d, first + later)
  {
    FlattenAppend(first, later);
    ConcatAssoc(c.appended, Flatten(first), Flatten(later));
    RefoldAppend(env.site, c.httpInput, first, later);
    PassesEndAppend(env.site, c.httpInput, first, later);
    ConcatAssoc(c.replies, Refold(env.site, c.httpInput, first).replies,
                Refold(env.site, Refold(env.site, c.httpInput, first).rest, later).replies);
  }

  /** The rule, for every connection and every run, closing or not: the plaintext is the
      chunks as they were read; while the event loop is running, the responses are those of
      one pass of the request loop for each chunk, in order, each over what the pass before
      it left, and every pass has returned; and if the loop spins, some pass does not return. */
  lemma {:induction false} RepliesExact(env: Setting, ssl: bool, events: seq<Event>)
    requires Speaks(env.site)
    ensures var c := Run(env, Accepted(ssl), events);
      var chunks := Chunks(env, Accepted(ssl), events);
      && c.appended == Flatten(chunks)
      && (c.loop == Running ==>
            Folded(c.replies, c.httpInput) == Refold(env.site, [], chunks) && PassesEnd(env.site, [], chunks))
      && (c.loop == Spins ==> !PassesEnd(env.site, [], chunks))
  {
    AcceptedInv(env, ssl);
    RunPasses(env, Accepted(ssl), events);
    var chunks := Chunks(env, Accepted(ssl), events);
    assert [] + Flatten(chunks) == Flatten(chunks);
    assert [] + Refold(env.site, [], chunks).replies == Refold(env.site, [], chunks).replies;
  }

  /** No chunk is empty. */
  lemma {:induction false} ChunksNonempty(env: Setting, c: Conn, events: seq<Event>)
    ensures forall i :: 0 <= i < |Chunks(env, c, events)| ==> Chunks(env, c, events)[i] != []
    decreases |events|
  {
    if events != [] {
      ChunksNonempty(env, Service(env, c, events[0]), events[1..]);
    }
  }

  // ---- against one pass over the whole stream ----

  /** The passes begin with the responses of one pass over everything, and make no more
      than those as long as none of them closes. */
  lemma {:induction false} RefoldExtends(site: Site, input: Bytes, chunks: seq<Bytes>)
    requires Regular(site, input + Flatten(chunks))
    ensures var whole := Serve(site, input + Flatten(chunks));
      && whole.replies <= Serve(site, input).replies + Refold(site, Serve(site, input).rest, chunks).replies
      && (whole.ending == Waiting ==>
            whole.replies == Serve(site, input).replies + Refold(site, Serve(site, input).rest, chunks).replies)
    decreases |chunks|
  {
    var first := Serve(site, input);
    var later := Flatten(chunks);
    RegularPrefix(site, input, later);
    ServeAppend(site, input, later);
    ServeConserves(site, input);
    if chunks == [] {
      assert input + [] == input;
      assert first.replies + [] == first.replies;
    } else if first.ending == Waiting {
      var tail := Flatten(chunks[1..]);
      ConcatAssoc(first.rest, chunks[0], tail);
      RefoldExtends(site, first.rest + chunks[0], chunks[1..]);
      AddFront(first.replies, Serve(site, first.rest + later).replies,
               Serve(site, first.rest + chunks[0]).replies
                   + Refold(site, Serve(site, first.rest + chunks[0]).rest, chunks[1..]).replies);
    }
  }

  lemma AddFront(front: seq<Bytes>, a: seq<Bytes>, b: seq<Bytes>)
    requires a <= b
    ensures front + a <= front + b
  {
  }

  /** Responses behind a closing one do happen: on a plain connection of any site, a blank
      line alone is rejected, and whatever is read next is rejected once more, while one
      pass over all of it makes a single, closing response. */
  lemma {:induction false} RejectedTwice(env: Setting, more: Bytes)
    requires Speaks(env.site) && more != []
    ensures var c := Run(env, Accepted(false), [Arrives(HEADER_END), Arrives(more)]);
      var refused := env.site.reject(MalformedStartLine([]));
      && c.loop == Running && c.link.Open? && c.closing
      && c.appended == HEADER_END + more
      && c.replies == [refused, refused]
      && Serve(env.site, c.appended).replies == [refused] && Serve(env.site, c.appended).ending == Closing
  {
    var start := Accepted(false);
    var events := [Arrives(HEADER_END), Arrives(more)];
    BlankLineRefused([]);
    BlankLineRefused(more);
    assert HEADER_END + [] == HEADER_END && [] + HEADER_END == HEADER_END;
    AcceptedInv(env, false);
    RejectsOnce(env, start, HEADER_END);
    var mid := Service(env, start, events[0]);
    RejectsOnce(env, mid, more);
    assert events[1..] == [events[1]] && [events[1]][1..] == [];
    assert Run(env, mid, [events[1]]) == Run(env, Service(env, mid, events[1]), []);
    assert Run(env, start, events) == Run(env, mid, [events[1]]);
  }

  lemma BlankLineRefused(more: Bytes)
    ensures Parse(HEADER_END + more) == Invalid(MalformedStartLine([]))
  {
    var data := HEADER_END + more;
    assert Find(data, HEADER_END) == Some(0);
    assert data[..0] == [];
    assert Split([], CRLF) == [[]];
    assert Cut([], SPACE) == None;
  }

  /** A read event with these bytes. */
  function Arrives(bytes: Bytes): Event {
    Event(Some(Data(bytes)), None)
  }

  lemma RejectsOnce(env: Setting, c: Conn, bytes: Bytes)
    requires Speaks(env.site) && c.link.Open? && c.loop == Running && c.tls.None? && bytes != []
    requires Parse(c.httpInput + bytes).Invalid?
    ensures var d := Service(env, c, Arrives(bytes));
      && d.link.Open? && d.loop == Running && d.tls.None? && d.closing
      && d.httpInput == c.httpInput + bytes && d.appended == c.appended + bytes
      && d.replies == c.replies + [env.site.reject(Parse(c.httpInput + bytes).reason)]
  {
  }
}
