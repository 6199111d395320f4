/** The repository's own configuration, as server_side.py writes it and tests/test_config.py
    reads it: its text, character by character, and the servers that it loads as. */
module DemoConfig {
  import opened Wire
  import opened Lexer
  import opened Parser
  import opened Typed
  import opened ConfigMeaning

  /** The file for two ports, line by line. */
  function DemoText(plain: string, tls: string): string {
    "\nhttp {\n    "
      + ("server {\n        "
         + (("listen " + plain + ";\n        ")
            + (("listen " + tls + " ssl;\n        ")
               + ("server_name localhost;\n\n        "
                  + ("ssl_certificate certs/server_cert.pem;\n        "
                     + ("ssl_certificate_key certs/server_key.pem;\n        "
                        + (("ssl_certificate_chain " + "certs/intermediate_cert.pem;\n\n        ")
                           + "location / {\n            root html;\n        }\n    "))))))
         + "}\n")
      + "}\n"
  }

  /** What its author means. */
  function DemoBody(plain: string, tls: string): seq<Stmt> {
    [Plain("listen", plain),
     Directive("listen", [Arg(false, tls), Arg(false, "ssl")]),
     Plain("server_name", "localhost"),
     Plain("ssl_certificate", "certs/server_cert.pem"),
     Plain("ssl_certificate_key", "certs/server_key.pem"),
     Plain("ssl_certificate_chain", "certs/intermediate_cert.pem"),
     Block("location", Some(Arg(false, "/")), [Plain("root", "html")])]
  }

  function Plain(key: string, value: string): Stmt {
    Directive(key, [Arg(false, value)])
  }

  function DemoTree(plain: string, tls: string): seq<Stmt> {
    [Block("http", None, [Block("server", None, DemoBody(plain, tls))])]
  }

  // ---- writing trees down ----

  /** Blank text as layout. */
  function Gap(text: string): seq<Layout> {
    seq(|text|, i requires 0 <= i < |text| => Blank(text[i]))
  }

  predicate BlankText(text: string) {
    forall i :: 0 <= i < |text| ==> IsBlank(text[i])
  }

  lemma {:induction false} PrintGap(text: string)
    ensures PrintLayout(Gap(text)) == text
  {
    if text != "" {
      PrintGap(text[1..]);
      assert Gap(text)[1..] == Gap(text[1..]);
      assert [text[0]] + text[1..] == text;
    }
  }

  function Put(kind: Kind, value: string, gap: string): Spaced {
    Spaced(Token(kind, value), Gap(gap))
  }

  lemma PutOk(kind: Kind, value: string, gap: string)
    requires TokenOk(Token(kind, value)) && BlankText(gap)
    ensures SpacedOk(Put(kind, value, gap))
  {
    forall i | 0 <= i < |gap|
      ensures LayoutOk(Gap(gap)[i])
    {
      assert Gap(gap)[i] == Blank(gap[i]);
    }
  }

  lemma PrintOne(s: Spaced)
    ensures Print([s]) == PrintToken(s.token) + PrintLayout(s.gap) && Bare([s]) == [s.token]
  {
    assert [s][1..] == [];
    assert PrintToken(s.token) + PrintLayout(s.gap) + "" == PrintToken(s.token) + PrintLayout(s.gap);
  }

  lemma {:induction false} PrintAppend(a: seq<Spaced>, b: seq<Spaced>)
    ensures Print(a + b) == Print(a) + Print(b) && Bare(a + b) == Bare(a) + Bare(b)
  {
    if a == [] {
      assert a + b == b && "" + Print(b) == Print(b) && Bare([]) + Bare(b) == Bare(b);
    } else {
      assert (a + b)[1..] == a[1..] + b;
      PrintAppend(a[1..], b);
      ConcatAssoc(PrintToken(a[0].token) + PrintLayout(a[0].gap), Print(a[1..]), Print(b));
    }
  }

  /** These tokens, which a word does not end, are written as this text. */
  predicate Prints(ts: seq<Spaced>, text: string, bare: seq<Token>) {
    && Written(ts) && Print(ts) == text && Bare(ts) == bare
    && (ts != [] ==> ts[|ts| - 1].token.kind != Word || ts[|ts| - 1].gap != [])
  }

  lemma WrittenBoth(a: seq<Spaced>, b: seq<Spaced>)
    requires Written(a) && Written(b)
    requires a != [] ==> a[|a| - 1].token.kind != Word || a[|a| - 1].gap != []
    ensures Written(a + b)
  {
    var ts := a + b;
    forall i | 0 < i < |ts| && ts[i - 1].gap == [] && ts[i - 1].token.kind == Word
      ensures ts[i].token.kind != Word
    {
      if i < |a| {
        assert ts[i - 1] == a[i - 1] && ts[i] == a[i];
      } else if i > |a| {
        assert ts[i - 1] == b[i - |a| - 1] && ts[i] == b[i - |a|];
      }
    }
  }

  lemma PrintsBoth(a: seq<Spaced>, b: seq<Spaced>, textA: string, textB: string, bareA: seq<Token>, bareB: seq<Token>)
    requires Prints(a, textA, bareA) && Prints(b, textB, bareB)
    ensures Prints(a + b, textA + textB, bareA + bareB)
  {
    PrintAppend(a, b);
    WrittenBoth(a, b);
    if b != [] {
      assert (a + b)[|a + b| - 1] == b[|b| - 1];
    } else {
      assert a + b == a;
    }
  }

  lemma PrintsOne(kind: Kind, value: string, gap: string)
    requires TokenOk(Token(kind, value)) && kind != Quoted && BlankText(gap) && (kind == Word ==> gap != "")
    ensures Prints([Put(kind, value, gap)], value + gap, [Token(kind, value)])
  {
    PutOk(kind, value, gap);
    PrintGap(gap);
    PrintOne(Put(kind, value, gap));
  }

  predicate WordText(word: string) {
    word != "" && forall i :: 0 <= i < |word| ==> IsWordChar(word[i])
  }

  /** The last word of a directive and its semicolon. */
  lemma PrintsEnd(value: string, gap: string)
    requires WordText(value) && BlankText(gap)
    ensures Prints([Put(Word, value, ""), Put(Semicolon, ";", gap)], value + (";" + gap), [Token(Word, value), END])
  {
    PutOk(Word, value, "");
    PutOk(Semicolon, ";", gap);
    PrintGap("");
    PrintGap(gap);
    PrintOne(Put(Word, value, ""));
    PrintOne(Put(Semicolon, ";", gap));
    PrintAppend([Put(Word, value, "")], [Put(Semicolon, ";", gap)]);
    assert value + "" == value;
  }

  lemma PrintsPlain(key: string, value: string, gap: string) returns (ts: seq<Spaced>)
    requires WordText(key) && WordText(value) && BlankText(gap)
    ensures Prints(ts, key + " " + (value + (";" + gap)), StmtTokens(Plain(key, value)))
  {
    ts := [Put(Word, key, " ")] + [Put(Word, value, ""), Put(Semicolon, ";", gap)];
    PrintsOne(Word, key, " ");
    PrintsEnd(value, gap);
    PrintsBoth([Put(Word, key, " ")], [Put(Word, value, ""), Put(Semicolon, ";", gap)], key + " ", value + (";" + gap),
               [Token(Word, key)], [Token(Word, value), END]);
    assert ArgTokens([Arg(false, value)]) == [Token(Word, value)];
  }

  lemma PrintsFlagged(key: string, value: string, flag: string, gap: string) returns (ts: seq<Spaced>)
    requires WordText(key) && WordText(value) && WordText(flag) && BlankText(gap)
    ensures Prints(ts, key + " " + (value + " " + (flag + (";" + gap))),
                   StmtTokens(Directive(key, [Arg(false, value), Arg(false, flag)])))
  {
    var last := [Put(Word, flag, ""), Put(Semicolon, ";", gap)];
    var later := [Put(Word, value, " ")] + last;
    ts := [Put(Word, key, " ")] + later;
    PrintsOne(Word, key, " ");
    PrintsOne(Word, value, " ");
    PrintsEnd(flag, gap);
    PrintsBoth([Put(Word, value, " ")], last, value + " ", flag + (";" + gap), [Token(Word, value)],
               [Token(Word, flag), END]);
    PrintsBoth([Put(Word, key, " ")], later, key + " ", value + " " + (flag + (";" + gap)), [Token(Word, key)],
               [Token(Word, value)] + [Token(Word, flag), END]);
    assert ArgTokens([Arg(false, value), Arg(false, flag)]) == [Token(Word, value), Token(Word, flag)];
  }

  /** Two runs of statements. */
  lemma {:induction false} PrintsMore(a: seq<Spaced>, b: seq<Spaced>, textA: string, textB: string, s: Stmt,
                                      rest: seq<Stmt>)
    requires Prints(a, textA, StmtTokens(s)) && Prints(b, textB, Tokens(rest))
    ensures Prints(a + b, textA + textB, Tokens([s] + rest))
  {
    PrintsBoth(a, b, textA, textB, StmtTokens(s), Tokens(rest));
    assert ([s] + rest)[1..] == rest;
  }

  lemma {:induction false} PrintsLast(a: seq<Spaced>, text: string, s: Stmt)
    requires Prints(a, text, StmtTokens(s))
    ensures Prints(a, text, Tokens([s]))
  {
    assert [s][1..] == [];
    assert StmtTokens(s) + [] == StmtTokens(s);
  }

  /** A block: what opens it, its body, what closes it. */
  lemma PrintsBlock(key: string, name: Option<Arg>, body: seq<Stmt>, opening: seq<Spaced>, inner: seq<Spaced>,
                    open: string, text: string, gap: string) returns (ts: seq<Spaced>)
    requires Prints(opening, open, [Token(Word, key)] + ((if name.Some? then [ArgToken(name.value)] else []) + [OPEN]))
    requires Prints(inner, text, Tokens(body)) && BlankText(gap)
    ensures Prints(ts, open + text + ("}" + gap), StmtTokens(Block(key, name, body)))
  {
    var head := [Token(Word, key)] + ((if name.Some? then [ArgToken(name.value)] else []) + [OPEN]);
    var close := [Put(RBrace, "}", gap)];
    PrintsOne(RBrace, "}", gap);
    PrintsBoth(opening, inner, open, text, head, Tokens(body));
    PrintsBoth(opening + inner, close, open + text, "}" + gap, head + Tokens(body), [CLOSE]);
    ts := (opening + inner) + close;
    BlockTokensFlat([Token(Word, key)], if name.Some? then [ArgToken(name.value)] else [], Tokens(body));
  }

  lemma BlockTokensFlat(key: seq<Token>, name: seq<Token>, body: seq<Token>)
    ensures (key + (name + [OPEN])) + body + [CLOSE] == key + (name + ([OPEN] + (body + [CLOSE])))
  {
  }

  // ---- the file, statement by statement ----

  lemma {:induction false} WordsOk()
    ensures WordText("listen") && WordText("ssl") && WordText("server_name") && WordText("localhost")
    ensures WordText("location") && WordText("/") && WordText("root") && WordText("html")
    ensures WordText("http") && WordText("server")
  {
  }

  lemma {:induction false} PathWordsOk()
    ensures WordText("ssl_certificate") && WordText("certs/server_cert.pem")
    ensures WordText("ssl_certificate_key") && WordText("certs/server_key.pem")
  {
  }

  lemma {:induction false} ChainWordsOk()
    ensures WordText("ssl_certificate_chain") && WordText("certs/intermediate_cert.pem")
  {
  }

  lemma {:induction false} GapsOk()
    ensures BlankText("\n") && BlankText("\n    ") && BlankText("\n        ") && BlankText("\n\n        ")
    ensures BlankText("\n            ") && BlankText(" ")
  {
  }

  lemma {:induction false} ListenText(plain: string)
    ensures "listen" + " " + (plain + (";" + "\n        ")) == "listen " + plain + ";\n        "
  {
    assert "listen" + " " == "listen " && ";" + "\n        " == ";\n        ";
    ConcatAssoc("listen ", plain, ";\n        ");
  }

  lemma {:induction false} ListenSslText(tls: string)
    ensures "listen" + " " + (tls + " " + ("ssl" + (";" + "\n        "))) == "listen " + tls + " ssl;\n        "
  {
    assert "listen" + " " == "listen " && " " + ("ssl" + (";" + "\n        ")) == " ssl;\n        ";
    ConcatAssoc(tls, " ", "ssl" + (";" + "\n        "));
    ConcatAssoc("listen ", tls, " ssl;\n        ");
  }

  lemma {:induction false} NameText()
    ensures "server_name" + " " + ("localhost" + (";" + "\n\n        ")) == "server_name localhost;\n\n        "
  {
  }

  lemma {:induction false} CertificateText()
    ensures "ssl_certificate" + " " + ("certs/server_cert.pem" + (";" + "\n        "))
      == "ssl_certificate certs/server_cert.pem;\n        "
  {
  }

  lemma {:induction false} KeyText()
    ensures "ssl_certificate_key" + " " + ("certs/server_key.pem" + (";" + "\n        "))
      == "ssl_certificate_key certs/server_key.pem;\n        "
  {
  }

  lemma {:induction false} ChainEndText()
    ensures "certs/intermediate_cert.pem" + (";" + "\n\n        ") == "certs/intermediate_cert.pem;\n\n        "
  {
  }

  lemma {:induction false} ChainText()
    ensures "ssl_certificate_chain" + " " + ("certs/intermediate_cert.pem" + (";" + "\n\n        "))
      == ("ssl_certificate_chain " + "certs/intermediate_cert.pem;\n\n        ")
  {
    ChainEndText();
    assert "ssl_certificate_chain" + " " == "ssl_certificate_chain ";
  }

  lemma {:induction false} LocationText()
    ensures ("location" + " " + ("/" + " " + ("{" + "\n            ")))
        + ("root" + " " + ("html" + (";" + "\n        "))) + ("}" + "\n    ")
      == "location / {\n            root html;\n        }\n    "
  {
    assert "location" + " " + ("/" + " " + ("{" + "\n            ")) == "location / {\n            ";
    assert "root" + " " + ("html" + (";" + "\n        ")) == "root html;\n        ";
    assert "}" + "\n    " == "}\n    ";
    assert "location / {\n            " + "root html;\n        " == "location / {\n            root html;\n        ";
  }

  lemma {:induction false} OpeningText()
    ensures "http" + " " + ("{" + "\n    ") == "http {\n    "
    ensures "server" + " " + ("{" + "\n        ") == "server {\n        "
  {
  }

  lemma {:induction false} PrintsOpening(key: string, gap: string) returns (ts: seq<Spaced>)
    requires WordText(key) && BlankText(gap)
    ensures Prints(ts, key + " " + ("{" + gap), [Token(Word, key)] + ([] + [OPEN]))
  {
    GapsOk();
    PrintsOne(Word, key, " ");
    PrintsOne(LBrace, "{", gap);
    PrintsBoth([Put(Word, key, " ")], [Put(LBrace, "{", gap)], key + " ", "{" + gap, [Token(Word, key)], [OPEN]);
    ts := [Put(Word, key, " ")] + [Put(LBrace, "{", gap)];
    assert [] + [OPEN] == [OPEN];
  }

  lemma {:induction false} PrintsNamedOpening(key: string, name: string, gap: string) returns (ts: seq<Spaced>)
    requires WordText(key) && WordText(name) && BlankText(gap)
    ensures Prints(ts, key + " " + (name + " " + ("{" + gap)),
                   [Token(Word, key)] + ([ArgToken(Arg(false, name))] + [OPEN]))
  {
    GapsOk();
    PrintsOne(Word, key, " ");
    PrintsOne(Word, name, " ");
    PrintsOne(LBrace, "{", gap);
    var later := [Put(Word, name, " ")] + [Put(LBrace, "{", gap)];
    PrintsBoth([Put(Word, name, " ")], [Put(LBrace, "{", gap)], name + " ", "{" + gap, [Token(Word, name)], [OPEN]);
    PrintsBoth([Put(Word, key, " ")], later, key + " ", name + " " + ("{" + gap), [Token(Word, key)],
               [Token(Word, name)] + [OPEN]);
    ts := [Put(Word, key, " ")] + later;
  }

  lemma {:induction false} PrintsLocation() returns (ts: seq<Spaced>)
    ensures Prints(ts, "location / {\n            root html;\n        }\n    ",
                   Tokens([Block("location", Some(Arg(false, "/")), [Plain("root", "html")])]))
  {
    WordsOk();
    GapsOk();
    LocationText();
    var opening := PrintsNamedOpening("location", "/", "\n            ");
    var root := PrintsPlain("root", "html", "\n        ");
    PrintsLast(root, "root" + " " + ("html" + (";" + "\n        ")), Plain("root", "html"));
    ts := PrintsBlock("location", Some(Arg(false, "/")), [Plain("root", "html")], opening, root,
                      "location" + " " + ("/" + " " + ("{" + "\n            ")),
                      "root" + " " + ("html" + (";" + "\n        ")), "\n    ");
    PrintsLast(ts, "location / {\n            root html;\n        }\n    ",
               Block("location", Some(Arg(false, "/")), [Plain("root", "html")]));
  }

  /** The three TLS directives and the location. */
  function LaterText(): string {
    "ssl_certificate certs/server_cert.pem;\n        "
      + ("ssl_certificate_key certs/server_key.pem;\n        "
         + (("ssl_certificate_chain " + "certs/intermediate_cert.pem;\n\n        ")
            + "location / {\n            root html;\n        }\n    "))
  }

  function LaterBody(): seq<Stmt> {
    [Plain("ssl_certificate", "certs/server_cert.pem")]
      + ([Plain("ssl_certificate_key", "certs/server_key.pem")]
         + ([Plain("ssl_certificate_chain", "certs/intermediate_cert.pem")]
            + [Block("location", Some(Arg(false, "/")), [Plain("root", "html")])]))
  }

  lemma {:induction false} PrintsCertificate() returns (ts: seq<Spaced>)
    ensures Prints(ts, "ssl_certificate certs/server_cert.pem;\n        ",
                   StmtTokens(Plain("ssl_certificate", "certs/server_cert.pem")))
  {
    PathWordsOk();
    GapsOk();
    CertificateText();
    ts := PrintsPlain("ssl_certificate", "certs/server_cert.pem", "\n        ");
  }

  lemma {:induction false} PrintsKey() returns (ts: seq<Spaced>)
    ensures Prints(ts, "ssl_certificate_key certs/server_key.pem;\n        ",
                   StmtTokens(Plain("ssl_certificate_key", "certs/server_key.pem")))
  {
    PathWordsOk();
    GapsOk();
    KeyText();
    ts := PrintsPlain("ssl_certificate_key", "certs/server_key.pem", "\n        ");
  }

  lemma {:induction false} PrintsChain() returns (ts: seq<Spaced>)
    ensures Prints(ts, ("ssl_certificate_chain " + "certs/intermediate_cert.pem;\n\n        "),
                   StmtTokens(Plain("ssl_certificate_chain", "certs/intermediate_cert.pem")))
  {
    ChainWordsOk();
    GapsOk();
    ChainText();
    ts := PrintsPlain("ssl_certificate_chain", "certs/intermediate_cert.pem", "\n\n        ");
  }

  lemma {:induction false} PrintsLater() returns (ts: seq<Spaced>)
    ensures Prints(ts, LaterText(), Tokens(LaterBody()))
  {
    var certificate := PrintsCertificate();
    var key := PrintsKey();
    var chain := PrintsChain();
    var location := PrintsLocation();
    var last := [Block("location", Some(Arg(false, "/")), [Plain("root", "html")])];
    var text := "location / {\n            root html;\n        }\n    ";
    PrintsMore(chain, location, ("ssl_certificate_chain " + "certs/intermediate_cert.pem;\n\n        "), text,
               Plain("ssl_certificate_chain", "certs/intermediate_cert.pem"), last);
    PrintsMore(key, chain + location, "ssl_certificate_key certs/server_key.pem;\n        ",
               ("ssl_certificate_chain " + "certs/intermediate_cert.pem;\n\n        ") + text,
               Plain("ssl_certificate_key", "certs/server_key.pem"),
               [Plain("ssl_certificate_chain", "certs/intermediate_cert.pem")] + last);
    PrintsMore(certificate, key + (chain + location), "ssl_certificate certs/server_cert.pem;\n        ",
               "ssl_certificate_key certs/server_key.pem;\n        "
               + (("ssl_certificate_chain " + "certs/intermediate_cert.pem;\n\n        ") + text),
               Plain("ssl_certificate", "certs/server_cert.pem"),
               [Plain("ssl_certificate_key", "certs/server_key.pem")]
               + ([Plain("ssl_certificate_chain", "certs/intermediate_cert.pem")] + last));
    ts := certificate + (key + (chain + location));
  }

  function BodyText(plain: string, tls: string): string {
    ("listen " + plain + ";\n        ")
      + (("listen " + tls + " ssl;\n        ") + ("server_name localhost;\n\n        " + LaterText()))
  }

  lemma {:induction false} PrintsBody(plain: string, tls: string) returns (ts: seq<Spaced>)
    requires WordText(plain) && WordText(tls)
    ensures Prints(ts, BodyText(plain, tls), Tokens(DemoBody(plain, tls)))
  {
    WordsOk();
    GapsOk();
    ListenText(plain);
    ListenSslText(tls);
    NameText();
    var one := PrintsPlain("listen", plain, "\n        ");
    var two := PrintsFlagged("listen", tls, "ssl", "\n        ");
    var name := PrintsPlain("server_name", "localhost", "\n\n        ");
    var later := PrintsLater();
    var flagged := Directive("listen", [Arg(false, tls), Arg(false, "ssl")]);
    PrintsMore(name, later, "server_name localhost;\n\n        ", LaterText(), Plain("server_name", "localhost"),
               LaterBody());
    PrintsMore(two, name + later, "listen " + tls + " ssl;\n        ", "server_name localhost;\n\n        "
               + LaterText(),
               flagged, [Plain("server_name", "localhost")] + LaterBody());
    PrintsMore(one, two + (name + later), "listen " + plain + ";\n        ",
               ("listen " + tls + " ssl;\n        ") + ("server_name localhost;\n\n        " + LaterText()),
               Plain("listen", plain), [flagged] + ([Plain("server_name", "localhost")] + LaterBody()));
    BodyParts(plain, tls);
    ts := one + (two + (name + later));
  }

  lemma {:induction false} BodyParts(plain: string, tls: string)
    ensures DemoBody(plain, tls)
      == [Plain("listen", plain)] + ([Directive("listen", [Arg(false, tls), Arg(false, "ssl")])]
                                     + ([Plain("server_name", "localhost")] + LaterBody()))
  {
  }

  lemma {:induction false} PrintsServer(plain: string, tls: string) returns (ts: seq<Spaced>)
    requires WordText(plain) && WordText(tls)
    ensures Prints(ts, "server {\n        " + BodyText(plain, tls) + "}\n",
                   Tokens([Block("server", None, DemoBody(plain, tls))]))
  {
    WordsOk();
    GapsOk();
    OpeningText();
    var opening := PrintsOpening("server", "\n        ");
    var body := PrintsBody(plain, tls);
    ts := PrintsBlock("server", None, DemoBody(plain, tls), opening, body, "server {\n        ", BodyText(plain, tls),
                      "\n");
    assert "}" + "\n" == "}\n";
    PrintsLast(ts, "server {\n        " + BodyText(plain, tls) + "}\n", Block("server", None, DemoBody(plain, tls)));
  }

  lemma {:induction false} PrintsHttp(plain: string, tls: string) returns (ts: seq<Spaced>)
    requires WordText(plain) && WordText(tls)
    ensures Prints(ts, "http {\n    " + ("server {\n        " + BodyText(plain, tls) + "}\n") + "}\n",
                   Tokens(DemoTree(plain, tls)))
  {
    WordsOk();
    GapsOk();
    OpeningText();
    var opening := PrintsOpening("http", "\n    ");
    var server := PrintsServer(plain, tls);
    var inner := "server {\n        " + BodyText(plain, tls) + "}\n";
    var block := Block("http", None, [Block("server", None, DemoBody(plain, tls))]);
    ts := PrintsBlock("http", None, block.body, opening, server, "http {\n    ", inner, "\n");
    assert "}" + "\n" == "}\n";
    PrintsLast(ts, "http {\n    " + inner + "}\n", block);
  }

  lemma {:induction false} LeadLayout()
    ensures PrintLayout([Blank('\n')]) == "\n" && "\n" + "http {\n    " == "\nhttp {\n    "
  {
    assert PrintLayout([Blank('\n')][1..]) == "";
    assert PrintPiece(Blank('\n')) + "" == "\n";
  }

  lemma {:induction false} SourcePrints(ts: seq<Spaced>, text: string, bare: seq<Token>)
    requires Prints(ts, text, bare)
    ensures var f := Source([Blank('\n')], ts, None);
      SourceOk(f) && PrintSource(f) == "\n" + text && Bare(f.tokens) == bare
  {
    LeadLayout();
    assert text + "" == text;
  }

  /** The text is a written file of that tree. */
  lemma {:induction false} PrintsDemo(plain: string, tls: string) returns (f: Source)
    requires WordText(plain) && WordText(tls)
    ensures SourceOk(f) && PrintSource(f) == DemoText(plain, tls) && Bare(f.tokens) == Tokens(DemoTree(plain, tls))
  {
    var ts := PrintsHttp(plain, tls);
    var inner := "server {\n        " + BodyText(plain, tls) + "}\n";
    SourcePrints(ts, "http {\n    " + inner + "}\n", Tokens(DemoTree(plain, tls)));
    f := Source([Blank('\n')], ts, None);
    LeadLayout();
    LeadText("http {\n    ", inner, "}\n");
  }

  lemma {:induction false} LeadText(open: string, inner: string, close: string)
    ensures "\n" + (open + inner + close) == ("\n" + open) + inner + close
  {
  }

  // ---- what it means ----

  predicate Matches(s: Stmt, key: string) {
    s.Directive? && s.key == key
  }

  function Own(s: Stmt, key: string): seq<seq<string>> {
    if Matches(s, key) then [ArgTexts(s.args)] else []
  }

  lemma {:induction false} SevenArgLists(b: seq<Stmt>, key: string)
    requires |b| == 7
    ensures ArgLists(b, key)
      == Own(b[0], key) + (Own(b[1], key)
                           + (Own(b[2], key) + (Own(b[3], key) + (Own(b[4], key) + (Own(b[5], key) + Own(b[6], key))))))
  {
    assert b[1..][1..] == b[2..] && b[2..][1..] == b[3..] && b[3..][1..] == b[4..] && b[4..][1..] == b[5..];
    assert b[5..][1..] == b[6..] && b[6..][1..] == [];
    assert ArgLists(b[6..], key) == Own(b[6], key);
    assert ArgLists(b[5..], key) == Own(b[5], key) + ArgLists(b[6..], key);
    assert ArgLists(b[4..], key) == Own(b[4], key) + ArgLists(b[5..], key);
    assert ArgLists(b[3..], key) == Own(b[3], key) + ArgLists(b[4..], key);
    assert ArgLists(b[2..], key) == Own(b[2], key) + ArgLists(b[3..], key);
    assert ArgLists(b[1..], key) == Own(b[1], key) + ArgLists(b[2..], key);
  }

  lemma {:induction false} OwnPlain(key: string, value: string, wanted: string)
    ensures Own(Plain(key, value), wanted) == if key == wanted then [[value]] else []
  {
    assert ArgTexts([Arg(false, value)]) == [value];
  }

  /** What a server body with these seven statements holds under a key. */
  lemma {:induction false} DemoLists(plain: string, tls: string, key: string)
    ensures ArgLists(DemoBody(plain, tls), key)
      == (if key == "listen" then [[plain], [tls, "ssl"]] else [])
       + ((if key == "server_name" then [["localhost"]] else [])
          + ((if key == "ssl_certificate" then [["certs/server_cert.pem"]] else [])
             + ((if key == "ssl_certificate_key" then [["certs/server_key.pem"]] else [])
                + (if key == "ssl_certificate_chain" then [["certs/intermediate_cert.pem"]] else []))))
  {
    var b := DemoBody(plain, tls);
    SevenArgLists(b, key);
    OwnPlain("listen", plain, key);
    assert ArgTexts([Arg(false, tls), Arg(false, "ssl")]) == [tls, "ssl"];
    OwnPlain("server_name", "localhost", key);
    OwnPlain("ssl_certificate", "certs/server_cert.pem", key);
    OwnPlain("ssl_certificate_key", "certs/server_key.pem", key);
    OwnPlain("ssl_certificate_chain", "certs/intermediate_cert.pem", key);
    var rest := Own(b[2], key) + (Own(b[3], key) + (Own(b[4], key) + (Own(b[5], key) + Own(b[6], key))));
    ConcatAssoc(Own(b[0], key), Own(b[1], key), rest);
    assert Own(b[6], key) == [] && Own(b[5], key) + [] == Own(b[5], key);
    assert Own(b[0], key) + Own(b[1], key) == if key == "listen" then [[plain], [tls, "ssl"]] else [];
  }

  lemma {:induction false} KeysDiffer()
    ensures |"listen"| == 6 && |"server_name"| == 11 && |"ssl_certificate"| == 15 && |"ssl_certificate_key"| == 19
    ensures |"ssl_certificate_chain"| == 21 && |"location"| == 8 && |"root"| == 4 && |"http"| == 4 && |"server"| == 6
    ensures "listen" != "server"
  {
    assert "listen"[0] == 'l' && "server"[0] == 's';
  }

  /** Each directive of the file, alone under its key. */
  lemma {:induction false} DemoFirsts(plain: string, tls: string)
    ensures ArgLists(DemoBody(plain, tls), "listen") == [[plain], [tls, "ssl"]]
    ensures MeantFirst(DemoBody(plain, tls), "server_name", "localhost") == "localhost"
    ensures MeantFirst(DemoBody(plain, tls), "ssl_certificate", "") == "certs/server_cert.pem"
    ensures MeantFirst(DemoBody(plain, tls), "ssl_certificate_key", "") == "certs/server_key.pem"
    ensures MeantFirstArgs(ArgLists(DemoBody(plain, tls), "ssl_certificate_chain")) == ["certs/intermediate_cert.pem"]
  {
    KeysDiffer();
    DemoLists(plain, tls, "listen");
    DemoLists(plain, tls, "server_name");
    DemoLists(plain, tls, "ssl_certificate");
    DemoLists(plain, tls, "ssl_certificate_key");
    DemoLists(plain, tls, "ssl_certificate_chain");
    var chain := [["certs/intermediate_cert.pem"]];
    assert chain[1..] == [];
    assert MeantFirstArgs(chain) == ["certs/intermediate_cert.pem"] + MeantFirstArgs([]);
  }

  lemma {:induction false} RootMeans()
    ensures MeantFirst([Plain("root", "html")], "root", "html") == "html"
  {
    OwnPlain("root", "html", "root");
    var b := [Plain("root", "html")];
    assert b[1..] == [];
    assert ArgLists(b, "root") == [ArgTexts([Arg(false, "html")])] + ArgLists([], "root");
  }

  /** The statements before the location are no locations. */
  lemma {:induction false} SkipLocations(b: seq<Stmt>, k: nat, before: map<string, LocationConfig>)
    requires k <= |b| && forall i :: 0 <= i < k ==> b[i].key != "location"
    ensures MeantLocations(b, before) == MeantLocations(b[k..], before)
  {
    if k == 0 {
      assert b[0..] == b;
    } else {
      assert b[1..][k - 1..] == b[k..];
      SkipLocations(b[1..], k - 1, before);
    }
  }

  lemma {:induction false} DemoKeys(plain: string, tls: string)
    ensures forall i :: 0 <= i < 6 ==> DemoBody(plain, tls)[i].key != "location" && DemoBody(plain, tls)[i].Directive?
  {
    KeysDiffer();
    var b := DemoBody(plain, tls);
    assert b[0].key == b[1].key == "listen" && b[2].key == "server_name" && b[3].key == "ssl_certificate";
    assert b[4].key == "ssl_certificate_key" && b[5].key == "ssl_certificate_chain";
  }

  lemma {:induction false} DemoLocation(plain: string, tls: string)
    ensures MeantLocations(DemoBody(plain, tls), map[]) == map["/" := LocationConfig("/", "html")]
  {
    var b := DemoBody(plain, tls);
    DemoKeys(plain, tls);
    SkipLocations(b, 6, map[]);
    RootMeans();
    assert b[6..] == [b[6]] && [b[6]][1..] == [];
    var one := map["/" := LocationConfig("/", "html")];
    assert MeantLocations([b[6]], map[]) == MeantLocations([], map["/" := LocationConfig("/", "html")]);
  }

  lemma {:induction false} DemoWellKinded(plain: string, tls: string)
    ensures WellKinded(DemoBody(plain, tls)) && ConventionalServer(DemoBody(plain, tls))
  {
    var b := DemoBody(plain, tls);
    KeysDiffer();
    DemoKeys(plain, tls);
    assert b[6].key == "location" && IsNamed(b[6]);
    assert WellKinded([Plain("root", "html")]);
  }

  lemma {:induction false} DemoConventional(plain: string, tls: string)
    ensures WellKinded(DemoTree(plain, tls)) && Conventional(DemoTree(plain, tls), 0)
  {
    DemoWellKinded(plain, tls);
    assert WellKinded([Block("server", None, DemoBody(plain, tls))]);
  }

  /** The one server of the file. */
  function DemoServer(plain: int, tls: int): ServerBlock {
    ServerBlock(
      listens := [ListenDirective(port := plain, ssl := false), ListenDirective(port := tls, ssl := true)],
      serverName := "localhost",
      locations := map["/" := LocationConfig(path := "/", root := "html")],
      tls := Some(TLSConfig(certificatePath := "certs/server_cert.pem", privateKeyPath := "certs/server_key.pem",
                            chainPaths := ["certs/intermediate_cert.pem"])))
  }

  lemma {:induction false} DemoListens(plain: string, tls: string, toInt: ToInt)
    requires toInt(plain).Some? && toInt(tls).Some?
    ensures MeantListens([[plain], [tls, "ssl"]], toInt)
      == Ok([ListenDirective(toInt(plain).value, false), ListenDirective(toInt(tls).value, true)])
  {
    var args := [[plain], [tls, "ssl"]];
    assert args[1..] == [[tls, "ssl"]] && [[tls, "ssl"]][1..] == [];
    assert [tls, "ssl"][1..] == ["ssl"] && [plain][1..] == [];
    assert "ssl" in ["ssl"];
    assert "ssl" !in [plain][1..];
    assert args[0] == [plain] && args[0][0] == plain;
    var one, two := ListenDirective(toInt(plain).value, false), ListenDirective(toInt(tls).value, true);
    assert MeantListens([[tls, "ssl"]], toInt) == Prefixed([two], MeantListens([], toInt));
    assert MeantListens(args, toInt) == Prefixed([one], MeantListens([[tls, "ssl"]], toInt));
    assert [one] + ([two] + []) == [one, two];
  }

  lemma {:induction false} DemoMeans(plain: string, tls: string, toInt: ToInt)
    requires toInt(plain).Some? && toInt(tls).Some?
    ensures MeantServer(DemoBody(plain, tls), toInt) == Ok(DemoServer(toInt(plain).value, toInt(tls).value))
  {
    DemoFirsts(plain, tls);
    DemoListens(plain, tls, toInt);
    DemoLocation(plain, tls);
  }

  lemma {:induction false} OneServer(body: seq<Stmt>, server: ServerBlock, toInt: ToInt)
    requires MeantServer(body, toInt) == Ok(server)
    ensures MeantServers([Block("server", None, body)], toInt) == Ok([server])
  {
    var http := [Block("server", None, body)];
    assert http[1..] == [];
    assert MeantServers(http, toInt) == Prefixed([server], MeantServers([], toInt));
    assert [server] + [] == [server];
  }

  /** The repository's configuration loads as its one server: a plain and a TLS listener, the
      name, the location, and each path where it belongs. Any two words that int() takes as
      numbers may stand for the ports. */
  lemma {:induction false} DemoLoads(plain: string, tls: string, toInt: ToInt)
    requires WordText(plain) && WordText(tls) && toInt(plain).Some? && toInt(tls).Some?
    ensures Load(DemoText(plain, tls), toInt) == Ok([DemoServer(toInt(plain).value, toInt(tls).value)])
  {
    var f := PrintsDemo(plain, tls);
    DemoConventional(plain, tls);
    LoadPrinted(DemoTree(plain, tls), 0, f, toInt);
    DemoMeans(plain, tls, toInt);
    OneServer(DemoBody(plain, tls), DemoServer(toInt(plain).value, toInt(tls).value), toInt);
  }
}
