/** Exactly which token lists the parser accepts: those of statement trees, and what it does with
    unbalanced braces (ConfigParser in tls_web_server/config.py). */
module ParsedTrees {
  import opened Wire
  import opened Lexer
  import opened Parser

  /** Closing braces that the end of the file leaves out. */
  function Closers(k: nat): seq<Token> {
    seq(k, _ => CLOSE)
  }

  /** The tokens are those of a tree, closed by one brace more than it has, with `rest` behind it;
      or they are those of a tree without its last k closing braces. */
  predicate Reads(tokens: seq<Token>, stmts: seq<Stmt>, closed: bool, k: nat, rest: seq<Token>) {
    if closed then tokens == Tokens(stmts) + ([CLOSE] + rest)
    else Tokens(stmts) == tokens + Closers(k) && rest == []
  }

  predicate AllOk(tokens: seq<Token>) {
    forall i :: 0 <= i < |tokens| ==> TokenOk(tokens[i])
  }

  lemma AllOkTail(tokens: seq<Token>)
    requires AllOk(tokens) && tokens != []
    ensures AllOk(tokens[1..])
  {
  }

  /** A statement in front of what is read behind it. */
  lemma {:induction false} ReadsMore(s: Stmt, later: seq<Token>, more: seq<Stmt>, closed: bool, k: nat,
                                     rest: seq<Token>)
    requires Reads(later, more, closed, k, rest)
    ensures Reads(StmtTokens(s) + later, [s] + more, closed, k, rest)
  {
    assert ([s] + more)[1..] == more;
    if closed {
      ConcatAssoc(StmtTokens(s), Tokens(more), [CLOSE] + rest);
    } else {
      ConcatAssoc(StmtTokens(s), later, Closers(k));
    }
  }

  lemma {:induction false} DenoteMore(s: Stmt, more: seq<Stmt>, config: Config)
    requires DenoteStmt(s, config).Ok?
    ensures Denote([s] + more, config) == Denote(more, DenoteStmt(s, config).value)
  {
    assert ([s] + more)[1..] == more;
  }

  function NameOf(args: seq<Arg>): Option<Arg> {
    if args == [] then None else Some(args[0])
  }

  lemma {:induction false} DirectiveFront(key: string, args: seq<Arg>, later: seq<Token>)
    ensures StmtTokens(Directive(key, args)) + later == [Token(Word, key)] + (ArgTokens(args) + ([END] + later))
  {
    ConcatAssoc(ArgTokens(args), [END], later);
    ConcatAssoc([Token(Word, key)], ArgTokens(args) + [END], later);
  }

  lemma {:induction false} NameTokens(args: seq<Arg>)
    requires |args| <= 1
    ensures NameArgs(NameOf(args)) == args
    ensures (if NameOf(args).Some? then [ArgToken(NameOf(args).value)] else []) == ArgTokens(args)
    ensures (if NameOf(args).Some? then [NameOf(args).value.text] else []) == ArgTexts(args)
  {
  }

  lemma {:induction false} BlockFront(key: string, args: seq<Arg>, body: seq<Stmt>, later: seq<Token>)
    requires |args| <= 1
    ensures StmtTokens(Block(key, NameOf(args), body)) + later
      == [Token(Word, key)] + (ArgTokens(args) + ([OPEN] + (Tokens(body) + ([CLOSE] + later))))
  {
    NameTokens(args);
    ConcatAssoc(Tokens(body), [CLOSE], later);
    ConcatAssoc([OPEN], Tokens(body) + [CLOSE], later);
    ConcatAssoc(ArgTokens(args), [OPEN] + (Tokens(body) + [CLOSE]), later);
    ConcatAssoc([Token(Word, key)], ArgTokens(args) + ([OPEN] + (Tokens(body) + [CLOSE])), later);
  }

  /** A body without its last k braces is a block without its last k + 1. */
  lemma {:induction false} BlockOpenFront(key: string, args: seq<Arg>, body: seq<Stmt>, inside: seq<Token>, k: nat)
    requires |args| <= 1 && Tokens(body) == inside + Closers(k)
    ensures Tokens([Block(key, NameOf(args), body)])
      == ([Token(Word, key)] + (ArgTokens(args) + ([OPEN] + inside))) + Closers(k + 1)
  {
    var s := Block(key, NameOf(args), body);
    BlockFront(key, args, body, []);
    assert [s][1..] == [];
    assert StmtTokens(s) + [] == StmtTokens(s) && [CLOSE] + [] == [CLOSE];
    assert Closers(k) + [CLOSE] == Closers(k + 1);
    ConcatAssoc(inside, Closers(k), [CLOSE]);
    ConcatAssoc([OPEN], inside, Closers(k + 1));
    ConcatAssoc(ArgTokens(args), [OPEN] + inside, Closers(k + 1));
    ConcatAssoc([Token(Word, key)], ArgTokens(args) + ([OPEN] + inside), Closers(k + 1));
  }

  /** What the parser took these tokens for. */
  predicate Took(parsed: Parser.Parsed, tokens: seq<Token>, config: Config, stmts: seq<Stmt>, closed: bool, k: nat) {
    && parsed.Ok? && Reads(tokens, stmts, closed, k, parsed.value.1)
    && Denote(stmts, config) == Ok(parsed.value.0)
  }

  lemma {:induction false} TookDirective(later: seq<Token>, config: Config, key: string, args: seq<Arg>,
                                         more: seq<Stmt>, closed: bool, k: nat)
    requires var next := AppendRepeated(config, key, StrList(ArgTexts(args)));
      Took(ParseBlock(later, next), later, next, more, closed, k)
    ensures var next := AppendRepeated(config, key, StrList(ArgTexts(args)));
      Took(ParseBlock(later, next), [Token(Word, key)] + (ArgTokens(args) + ([END] + later)), config,
           [Directive(key, args)] + more, closed, k)
  {
    var next := AppendRepeated(config, key, StrList(ArgTexts(args)));
    DirectiveFront(key, args, later);
    ReadsMore(Directive(key, args), later, more, closed, k, ParseBlock(later, next).value.1);
    DenoteMore(Directive(key, args), more, config);
  }

  lemma {:induction false} DenoteBlock(key: string, args: seq<Arg>, body: seq<Stmt>, config: Config, nested: Config)
    requires |args| <= 1 && Denote(body, map[]) == Ok(nested)
    ensures DenoteStmt(Block(key, NameOf(args), body), config) == AddBlock(config, key, ArgTexts(args), nested)
  {
    NameTokens(args);
  }

  lemma {:induction false} TookClosedBlock(inside: seq<Token>, later: seq<Token>, config: Config, key: string,
                                           args: seq<Arg>, body: seq<Stmt>, nested: Config, longer: Config,
                                           more: seq<Stmt>, closed: bool, k: nat)
    requires |args| <= 1 && inside == Tokens(body) + ([CLOSE] + later) && Denote(body, map[]) == Ok(nested)
    requires AddBlock(config, key, ArgTexts(args), nested) == Ok(longer)
    requires Took(ParseBlock(later, longer), later, longer, more, closed, k)
    ensures Took(ParseBlock(later, longer), [Token(Word, key)] + (ArgTokens(args) + ([OPEN] + inside)), config,
                 [Block(key, NameOf(args), body)] + more, closed, k)
  {
    var s := Block(key, NameOf(args), body);
    BlockFront(key, args, body, later);
    DenoteBlock(key, args, body, config, nested);
    ReadsMore(s, later, more, closed, k, ParseBlock(later, longer).value.1);
    DenoteMore(s, more, config);
  }

  lemma {:induction false} TookOpenBlock(inside: seq<Token>, config: Config, key: string, args: seq<Arg>,
                                         body: seq<Stmt>, nested: Config, longer: Config, k: nat)
    requires |args| <= 1 && Tokens(body) == inside + Closers(k) && Denote(body, map[]) == Ok(nested)
    requires AddBlock(config, key, ArgTexts(args), nested) == Ok(longer)
    ensures Took(Ok((longer, [])), [Token(Word, key)] + (ArgTokens(args) + ([OPEN] + inside)), config,
                 [Block(key, NameOf(args), body)], false, k + 1)
  {
    var s := Block(key, NameOf(args), body);
    BlockOpenFront(key, args, body, inside, k);
    DenoteBlock(key, args, body, config, nested);
    assert [s] + [] == [s];
    DenoteMore(s, [], config);
  }

  /** Whatever parses is a tree. */
  lemma {:induction false} BlockIsTree(tokens: seq<Token>, config: Config)
    returns (stmts: seq<Stmt>, closed: bool, k: nat)
    requires AllOk(tokens) && ParseBlock(tokens, config).Ok?
    ensures Took(ParseBlock(tokens, config), tokens, config, stmts, closed, k)
    decreases |tokens|, 1
  {
    if tokens == [] {
      stmts, closed, k := [], false, 0;
      assert Closers(0) == [];
    } else if tokens[0].kind == RBrace {
      stmts, closed, k := [], true, 0;
      assert TokenOk(tokens[0]);
      assert tokens == [CLOSE] + tokens[1..];
    } else {
      AllOkTail(tokens);
      assert ArgTexts([]) == [] && ArgTokens([]) == [];
      stmts, closed, k := StatementIsTree(tokens[1..], config, tokens[0].value, []);
      assert tokens == [tokens[0]] + ([] + tokens[1..]);
    }
  }

  lemma {:induction false} StatementIsTree(tokens: seq<Token>, config: Config, key: string, args: seq<Arg>)
    returns (stmts: seq<Stmt>, closed: bool, k: nat)
    requires AllOk(tokens) && ParseStatement(tokens, config, key, ArgTexts(args)).Ok?
    ensures Took(ParseStatement(tokens, config, key, ArgTexts(args)),
                 [Token(Word, key)] + (ArgTokens(args) + tokens), config, stmts, closed, k)
    decreases |tokens|, 0
  {
    AllOkTail(tokens);
    assert TokenOk(tokens[0]);
    var inside := tokens[1..];
    assert tokens == [tokens[0]] + inside;
    if tokens[0].kind == Semicolon {
      var next := AppendRepeated(config, key, StrList(ArgTexts(args)));
      var more: seq<Stmt>;
      more, closed, k := BlockIsTree(inside, next);
      TookDirective(inside, config, key, args, more, closed, k);
      stmts := [Directive(key, args)] + more;
    } else if tokens[0].kind == LBrace {
      stmts, closed, k := OpenedIsTree(inside, config, key, args);
    } else if tokens[0].kind == Word || tokens[0].kind == Quoted {
      var arg := Arg(tokens[0].kind == Quoted, tokens[0].value);
      assert ArgTexts(args + [arg]) == ArgTexts(args) + [tokens[0].value];
      stmts, closed, k := StatementIsTree(inside, config, key, args + [arg]);
      assert ArgTokens(args + [arg]) == ArgTokens(args) + [tokens[0]];
      ConcatAssoc(ArgTokens(args), [tokens[0]], inside);
    }
  }

  lemma {:induction false} OpenedIsTree(inside: seq<Token>, config: Config, key: string, args: seq<Arg>)
    returns (stmts: seq<Stmt>, closed: bool, k: nat)
    requires AllOk(inside) && ParseStatement([OPEN] + inside, config, key, ArgTexts(args)).Ok?
    ensures Took(ParseStatement([OPEN] + inside, config, key, ArgTexts(args)),
                 [Token(Word, key)] + (ArgTokens(args) + ([OPEN] + inside)), config, stmts, closed, k)
    decreases |inside|, 2
  {
    assert ([OPEN] + inside)[1..] == inside;
    var body, c, j := BlockIsTree(inside, map[]);
    var (nested, rest) := ParseBlock(inside, map[]).value;
    var longer := AddBlock(config, key, ArgTexts(args), nested).value;
    if c {
      AllOkRest(inside, Tokens(body) + [CLOSE], rest);
      var more: seq<Stmt>;
      more, closed, k := BlockIsTree(rest, longer);
      TookClosedBlock(inside, rest, config, key, args, body, nested, longer, more, closed, k);
      stmts := [Block(key, NameOf(args), body)] + more;
    } else {
      TookOpenBlock(inside, config, key, args, body, nested, longer, j);
      stmts, closed, k := [Block(key, NameOf(args), body)], false, j + 1;
    }
  }

  lemma {:induction false} AllOkRest(tokens: seq<Token>, front: seq<Token>, rest: seq<Token>)
    requires AllOk(tokens) && |front| >= 1 && tokens == front[..|front| - 1] + ([front[|front| - 1]] + rest)
    ensures AllOk(rest) && |rest| < |tokens|
  {
    assert tokens == front + rest;
    assert forall i :: 0 <= i < |rest| ==> rest[i] == tokens[|front| + i];
  }

  // ---- and every tree parses, also without its last braces ----

  /** The last k tokens are closing braces, so nothing else is among them. */
  lemma {:induction false} LastAreClosers(tokens: seq<Token>, k: nat, whole: seq<Token>, i: nat)
    requires whole == tokens + Closers(k) && i < |whole| && whole[i] != CLOSE
    ensures i < |tokens|
  {
  }

  lemma {:induction false} CutBehind(front: seq<Token>, later: seq<Token>, tokens: seq<Token>, k: nat)
    requires front + later == tokens + Closers(k) && |front| <= |tokens|
    ensures tokens == front + tokens[|front|..] && later == tokens[|front|..] + Closers(k)
  {
    assert (front + later)[..|front|] == front && (tokens + Closers(k))[..|front|] == tokens[..|front|];
    assert (front + later)[|front|..] == later;
  }

  lemma {:induction false} StartsWithKey(stmts: seq<Stmt>)
    requires stmts != []
    ensures Tokens(stmts) != [] && Tokens(stmts)[0] == Token(Word, stmts[0].key)
  {
  }

  /** What stands in front of a block's body, and its size. */
  function Opening(key: string, name: Option<Arg>): seq<Token> {
    [Token(Word, key)] + (ArgTokens(NameArgs(name)) + [OPEN])
  }

  lemma {:induction false} BlockSplits(key: string, name: Option<Arg>, body: seq<Stmt>)
    ensures StmtTokens(Block(key, name, body)) == Opening(key, name) + (Tokens(body) + [CLOSE])
    ensures Opening(key, name)[|Opening(key, name)| - 1] == OPEN
  {
    BlockTokens(key, name, body, []);
    assert StmtTokens(Block(key, name, body)) + [] == StmtTokens(Block(key, name, body));
    assert [CLOSE] + [] == [CLOSE];
    ConcatAssoc(ArgTokens(NameArgs(name)), [OPEN], Tokens(body) + [CLOSE]);
    ConcatAssoc([Token(Word, key)], ArgTokens(NameArgs(name)) + [OPEN], Tokens(body) + [CLOSE]);
  }

  lemma {:induction false} DropOneCloser(body: seq<Token>, inside: seq<Token>, k: nat)
    requires k > 0 && body + [CLOSE] == inside + Closers(k)
    ensures body == inside + Closers(k - 1)
  {
    assert Closers(k) == Closers(k - 1) + [CLOSE];
    assert (body + [CLOSE])[..|body|] == body;
    assert (inside + Closers(k))[..|inside| + k - 1] == inside + Closers(k - 1);
  }

  lemma {:induction false} OpenBlockParses(key: string, name: Option<Arg>, inside: seq<Token>, body: seq<Stmt>,
                                           config: Config)
    requires ParseBlock(inside, map[]) == After(Denote(body, map[]), [])
    ensures ParseBlock(Opening(key, name) + inside, config)
      == After(DenoteStmt(Block(key, name, body), config), [])
  {
    var tokens := Opening(key, name) + inside;
    ConcatAssoc(ArgTokens(NameArgs(name)), [OPEN], inside);
    assert tokens[1..] == ArgTokens(NameArgs(name)) + ([OPEN] + inside);
    ParseArgs(NameArgs(name), [OPEN] + inside, config, key, []);
    assert [] + ArgTexts(NameArgs(name)) == ArgTexts(NameArgs(name));
    assert ([OPEN] + inside)[1..] == inside;
    assert ArgTexts(NameArgs(name)) == if name.Some? then [name.value.text] else [];
  }

  lemma {:induction false} LastOfDirective(key: string, args: seq<Arg>)
    ensures var ts := StmtTokens(Directive(key, args)); ts[|ts| - 1] == END
  {
  }

  /** The end of the file closes what is still open. */
  lemma {:induction false} UnclosedParses(stmts: seq<Stmt>, tokens: seq<Token>, k: nat, config: Config)
    requires Tokens(stmts) == tokens + Closers(k)
    ensures ParseBlock(tokens, config) == After(Denote(stmts, config), [])
    decreases stmts
  {
    if k == 0 {
      assert tokens + Closers(0) == tokens;
      ParseWhole(stmts, config);
    } else if |stmts| > 1 {
      var front, later := StmtTokens(stmts[0]), Tokens(stmts[1..]);
      StartsWithKey(stmts[1..]);
      LastAreClosers(tokens, k, Tokens(stmts), |front|);
      CutBehind(front, later, tokens, k);
      ParseStmt(stmts[0], tokens[|front|..], config);
      if DenoteStmt(stmts[0], config).Ok? {
        UnclosedParses(stmts[1..], tokens[|front|..], k, DenoteStmt(stmts[0], config).value);
      }
    } else {
      UnclosedOne(stmts, tokens, k, config);
    }
  }

  lemma {:induction false} UnclosedOne(stmts: seq<Stmt>, tokens: seq<Token>, k: nat, config: Config)
    requires Tokens(stmts) == tokens + Closers(k) && k > 0 && |stmts| <= 1
    ensures ParseBlock(tokens, config) == After(Denote(stmts, config), [])
    decreases stmts, 0
  {
    assert stmts != [];
    assert stmts[1..] == [];
    var s := stmts[0];
    assert StmtTokens(s) + [] == StmtTokens(s);
    var whole := StmtTokens(s);
    if s.Directive? {
      LastOfDirective(s.key, s.args);
      LastAreClosers(tokens, k, whole, |whole| - 1);
    } else {
      var front := Opening(s.key, s.name);
      BlockSplits(s.key, s.name, s.body);
      LastAreClosers(tokens, k, whole, |front| - 1);
      CutBehind(front, Tokens(s.body) + [CLOSE], tokens, k);
      var inside := tokens[|front|..];
      DropOneCloser(Tokens(s.body), inside, k);
      UnclosedParses(s.body, inside, k - 1, map[]);
      OpenBlockParses(s.key, s.name, inside, s.body, config);
    }
  }

  /** Any reading of the tokens as a tree is what the parser makes of them. */
  lemma {:induction false} ReadingIsParsed(tokens: seq<Token>, stmts: seq<Stmt>, closed: bool, k: nat, rest: seq<Token>)
    requires Reads(tokens, stmts, closed, k, rest)
    ensures ParseBlock(tokens, map[]) == After(Denote(stmts, map[]), rest)
  {
    if closed {
      ParseTokens(stmts, rest, map[]);
    } else {
      UnclosedParses(stmts, tokens, k, map[]);
    }
  }

  /** The language of the parser: it accepts exactly the token lists that read as a well-kinded
      tree, be it that the tree lacks some of its last braces, or that one brace more than it
      has ends it and the rest of the file is not looked at. */
  lemma {:induction false} ParsesIff(tokens: seq<Token>)
    requires AllOk(tokens)
    ensures ParseBlock(tokens, map[]).Ok? <==>
      exists stmts, closed, k, rest :: Reads(tokens, stmts, closed, k, rest) && WellKinded(stmts)
  {
    if ParseBlock(tokens, map[]).Ok? {
      var stmts, closed, k := BlockIsTree(tokens, map[]);
      DenotesIff(stmts);
      assert Reads(tokens, stmts, closed, k, ParseBlock(tokens, map[]).value.1);
    }
    if exists stmts, closed, k, rest :: Reads(tokens, stmts, closed, k, rest) && WellKinded(stmts) {
      var stmts, closed, k, rest :| Reads(tokens, stmts, closed, k, rest) && WellKinded(stmts);
      DenotesIff(stmts);
      ReadingIsParsed(tokens, stmts, closed, k, rest);
    }
  }

  /** So for the text of a file: its tokens give a dictionary if and only if they read as such a tree. */
  lemma {:induction false} TextParsesIff(text: string)
    requires Lex(text).Ok?
    ensures ParseBlock(Lex(text).value, map[]).Ok? <==>
      exists stmts, closed, k, rest :: Reads(Lex(text).value, stmts, closed, k, rest) && WellKinded(stmts)
  {
    LexedTokensOk(text);
    ParsesIff(Lex(text).value);
  }

  // ---- which error is reported ----

  /** Statements in front are read first. */
  lemma {:induction false} ParseBehind(stmts: seq<Stmt>, later: seq<Token>, config: Config)
    requires Denote(stmts, config).Ok?
    ensures ParseBlock(Tokens(stmts) + later, config) == ParseBlock(later, Denote(stmts, config).value)
    decreases |stmts|
  {
    if stmts == [] {
      assert Tokens(stmts) + later == later;
    } else {
      ConcatAssoc(StmtTokens(stmts[0]), Tokens(stmts[1..]), later);
      ParseStmt(stmts[0], Tokens(stmts[1..]) + later, config);
      ParseBehind(stmts[1..], later, DenoteStmt(stmts[0], config).value);
    }
  }

  /** What is wrong with the tokens behind a directive name and its arguments: nothing there, a
      closing brace, or a block behind more than one argument. */
  function FaultOf(key: string, args: seq<Arg>, later: seq<Token>): Option<SyntaxError> {
    if later == [] then Some(UnexpectedEnd(key))
    else if later[0].kind == RBrace then Some(UnexpectedToken(later[0]))
    else if later[0].kind == LBrace && |args| > 1 then Some(TooManyBlockArgs(key))
    else None
  }

  /** The first fault is the error: where a directive name is expected and something else but a
      closing brace stands, that token; in a directive, its own fault. */
  lemma {:induction false} FaultIsReported(stmts: seq<Stmt>, config: Config, key: string, args: seq<Arg>,
                                           later: seq<Token>)
    requires Denote(stmts, config).Ok?
    ensures later != [] && later[0].kind != Word && later[0].kind != RBrace ==>
      ParseBlock(Tokens(stmts) + later, config) == Err(ExpectedName(later[0]))
    ensures FaultOf(key, args, later).Some? ==>
      ParseBlock(Tokens(stmts) + ([Token(Word, key)] + (ArgTokens(args) + later)), config)
        == Err(FaultOf(key, args, later).value)
  {
    ParseBehind(stmts, later, config);
    var tokens := [Token(Word, key)] + (ArgTokens(args) + later);
    ParseBehind(stmts, tokens, config);
    assert tokens[1..] == ArgTokens(args) + later;
    ParseArgs(args, later, Denote(stmts, config).value, key, []);
    assert [] + ArgTexts(args) == ArgTexts(args);
  }

  /** So at every depth: the error inside a block is the error of the whole. */
  lemma {:induction false} FaultInside(stmts: seq<Stmt>, config: Config, key: string, name: Option<Arg>,
                                       inside: seq<Token>)
    requires Denote(stmts, config).Ok? && ParseBlock(inside, map[]).Err?
    ensures ParseBlock(Tokens(stmts) + (Opening(key, name) + inside), config) == ParseBlock(inside, map[])
  {
    var tokens := Opening(key, name) + inside;
    ParseBehind(stmts, tokens, config);
    ConcatAssoc(ArgTokens(NameArgs(name)), [OPEN], inside);
    assert tokens[1..] == ArgTokens(NameArgs(name)) + ([OPEN] + inside);
    ParseArgs(NameArgs(name), [OPEN] + inside, Denote(stmts, config).value, key, []);
    assert [] + ArgTexts(NameArgs(name)) == ArgTexts(NameArgs(name));
    assert ([OPEN] + inside)[1..] == inside;
    assert |ArgTexts(NameArgs(name))| <= 1;
  }
}
