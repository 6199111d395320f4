/** The recursive-descent configuration parser and its untyped accumulators
    (ConfigParser in tls_web_server/config.py). */
module Parser {
  import opened Wire
  import opened Lexer

  /** The values of the raw nested dictionary: a str, a list, or a dict. */
  datatype Raw = Str(text: string) | List(items: seq<Raw>) | Dict(entries: Config)

  type Config = map<string, Raw>

  datatype SyntaxError =
    | ExpectedName(token: Token)
    | TooManyBlockArgs(key: string)
    | NotABlock(key: string)
    | UnexpectedToken(token: Token)
    | UnexpectedEnd(key: string)

  // ---- accumulators ----

  predicate AllStr(items: seq<Raw>) {
    forall i :: 0 <= i < |items| ==> items[i].Str?
  }

  function StrList(args: seq<string>): Raw {
    List(seq(|args|, i requires 0 <= i < |args| => Str(args[i])))
  }

  function Get(config: Config, key: string): Option<Raw> {
    if key in config then Some(config[key]) else None
  }

  /** One more occurrence under a key that held `existing`. */
  function Accumulate(existing: Option<Raw>, value: Raw): Raw {
    match existing
    case None => value
    case Some(List(items)) =>
      if items == [] || !AllStr(items) then List(items + [value]) else List([List(items), value])
    case Some(other) => List([other, value])
  }

  /** _append_repeated. */
  function AppendRepeated(config: Config, key: string, value: Raw): Config {
    config[key := Accumulate(Get(config, key), value)]
  }

  /** A block with an argument: config.setdefault(key, {})[arg] = nested. */
  function AddNamed(config: Config, key: string, name: string, nested: Config): Result<Config, SyntaxError> {
    match Get(config, key)
    case None => Ok(config[key := Dict(map[name := Dict(nested)])])
    case Some(Dict(entries)) => Ok(config[key := Dict(entries[name := Dict(nested)])])
    case Some(_) => Err(NotABlock(key))
  }

  function AddBlock(config: Config, key: string, args: seq<string>, nested: Config): Result<Config, SyntaxError>
    requires |args| <= 1
  {
    if args == [] then Ok(AppendRepeated(config, key, Dict(nested))) else AddNamed(config, key, args[0], nested)
  }

  // ---- the parser, as two functions on the tokens that are left ----

  type Parsed = Result<(Config, seq<Token>), SyntaxError>

  /** The outer loop of _parse_block with the dictionary built so far: the dictionary and the tokens after the block. */
  function ParseBlock(tokens: seq<Token>, config: Config): (r: Parsed)
    ensures r.Ok? ==> |r.value.1| <= |tokens|
    decreases |tokens|
  {
    if tokens == [] then Ok((config, []))
    else if tokens[0].kind == RBrace then Ok((config, tokens[1..]))
    else if tokens[0].kind != Word then Err(ExpectedName(tokens[0]))
    else ParseStatement(tokens[1..], config, tokens[0].value, [])
  }

  /** The inner loop: the arguments of one directive, up to its semicolon or block. */
  function ParseStatement(tokens: seq<Token>, config: Config, key: string, args: seq<string>): (r: Parsed)
    ensures r.Ok? ==> |r.value.1| <= |tokens|
    decreases |tokens|
  {
    if tokens == [] then Err(UnexpectedEnd(key))
    else
      match tokens[0].kind
      case LBrace =>
        if |args| > 1 then Err(TooManyBlockArgs(key))
        else
          (match ParseBlock(tokens[1..], map[])
           case Err(e) => Err(e)
           case Ok((nested, rest)) =>
             match AddBlock(config, key, args, nested)
             case Err(e) => Err(e)
             case Ok(longer) => ParseBlock(rest, longer))
      case Semicolon => ParseBlock(tokens[1..], AppendRepeated(config, key, StrList(args)))
      case RBrace => Err(UnexpectedToken(tokens[0]))
      case _ => ParseStatement(tokens[1..], config, key, args + [tokens[0].value])
  }

  class ConfigParser {
    const tokens: seq<Token>
    var pos: nat

    constructor (tokens: seq<Token>)
      ensures this.tokens == tokens && pos == 0
    {
      this.tokens := tokens;
      pos := 0;
    }

    method Parse() returns (r: Result<Config, SyntaxError>)
      requires pos == 0
      modifies this
      ensures match ParseBlock(tokens, map[])
        case Ok((config, rest)) => r == Ok(config) && pos == |tokens| - |rest|
        case Err(e) => r == Err(e)
    {
      assert tokens[0..] == tokens;
      r := Block();
    }

    /** _parse_block: on success `pos` is just past the block. */
    method Block() returns (r: Result<Config, SyntaxError>)
      requires pos <= |tokens|
      modifies this
      ensures old(pos) <= pos <= |tokens|
      ensures match ParseBlock(tokens[old(pos)..], map[])
        case Ok((config, rest)) => r == Ok(config) && tokens[pos..] == rest
        case Err(e) => r == Err(e)
      decreases |tokens| - pos
    {
      var config: Config := map[];
      while pos < |tokens|
        invariant old(pos) <= pos <= |tokens|
        invariant ParseBlock(tokens[old(pos)..], map[]) == ParseBlock(tokens[pos..], config)
        decreases |tokens| - pos
      {
        var token := tokens[pos];
        assert tokens[pos..][1..] == tokens[pos + 1..];
        if token.kind == RBrace {
          pos := pos + 1;
          return Ok(config);
        }
        if token.kind != Word {
          return Err(ExpectedName(token));
        }
        pos := pos + 1;
        var next := Statement(config, token.value);
        if next.Err? {
          return Err(next.error);
        }
        config := next.value;
      }
      return Ok(config);
    }

    /** The inner loop, up to the end of one statement: the dictionary with the statement added. */
    method Statement(start: Config, key: string) returns (r: Result<Config, SyntaxError>)
      requires pos <= |tokens|
      modifies this
      ensures old(pos) <= pos <= |tokens|
      ensures r.Ok? ==> pos > old(pos)
      ensures r.Ok? ==> ParseStatement(tokens[old(pos)..], start, key, []) == ParseBlock(tokens[pos..], r.value)
      ensures r.Err? ==> ParseStatement(tokens[old(pos)..], start, key, []) == Err(r.error)
      decreases |tokens| - pos
    {
      var args: seq<string> := [];
      while pos < |tokens|
        invariant old(pos) <= pos <= |tokens|
        invariant ParseStatement(tokens[old(pos)..], start, key, []) == ParseStatement(tokens[pos..], start, key, args)
        decreases |tokens| - pos
      {
        var token := tokens[pos];
        assert tokens[pos..][1..] == tokens[pos + 1..];
        if token.kind == LBrace {
          if |args| > 1 {
            return Err(TooManyBlockArgs(key));
          }
          pos := pos + 1;
          var nested := Block();
          if nested.Err? {
            return Err(nested.error);
          }
          return AddBlock(start, key, args, nested.value);
        }
        if token.kind == Semicolon {
          pos := pos + 1;
          return Ok(AppendRepeated(start, key, StrList(args)));
        }
        if token.kind == RBrace {
          return Err(UnexpectedToken(token));
        }
        args := args + [token.value];
        pos := pos + 1;
      }
      return Err(UnexpectedEnd(key));
    }
  }

  // ---- statement trees ----

  datatype Arg = Arg(quoted: bool, text: string)

  /** A configuration as its author means it. */
  datatype Stmt =
    | Directive(key: string, args: seq<Arg>)
    | Block(key: string, name: Option<Arg>, body: seq<Stmt>)

  function ArgTokens(args: seq<Arg>): seq<Token> {
    seq(|args|, i requires 0 <= i < |args| => ArgToken(args[i]))
  }

  function ArgToken(arg: Arg): Token {
    Token(if arg.quoted then Quoted else Word, arg.text)
  }

  function ArgTexts(args: seq<Arg>): seq<string> {
    seq(|args|, i requires 0 <= i < |args| => args[i].text)
  }

  const OPEN := Token(LBrace, "{")
  const CLOSE := Token(RBrace, "}")
  const END := Token(Semicolon, ";")

  function StmtTokens(s: Stmt): seq<Token>
    decreases s, 1
  {
    match s
    case Directive(key, args) => [Token(Word, key)] + (ArgTokens(args) + [END])
    case Block(key, name, body) =>
      [Token(Word, key)] + ((if name.Some? then [ArgToken(name.value)] else []) + ([OPEN] + (Tokens(body) + [CLOSE])))
  }

  function Tokens(stmts: seq<Stmt>): seq<Token>
    decreases stmts, 0
  {
    if stmts == [] then [] else StmtTokens(stmts[0]) + Tokens(stmts[1..])
  }

  /** What a tree denotes: its statements added one by one, each under its key. */
  function Denote(stmts: seq<Stmt>, config: Config): Result<Config, SyntaxError>
    decreases stmts, 0
  {
    if stmts == [] then Ok(config)
    else
      match DenoteStmt(stmts[0], config)
      case Err(e) => Err(e)
      case Ok(next) => Denote(stmts[1..], next)
  }

  function DenoteStmt(s: Stmt, config: Config): Result<Config, SyntaxError>
    decreases s, 1
  {
    match s
    case Directive(key, args) => Ok(AppendRepeated(config, key, StrList(ArgTexts(args))))
    case Block(key, name, body) =>
      match Denote(body, map[])
      case Err(e) => Err(e)
      case Ok(nested) => AddBlock(config, key, if name.Some? then [name.value.text] else [], nested)
  }

  /** At every depth: whatever stands under a key before an argument block of that key is an
      argument block too, or an unnamed block that is the key's first occurrence. */
  predicate WellKinded(stmts: seq<Stmt>)
    decreases stmts, 0
  {
    && (forall i, j :: 0 <= i < j < |stmts| && stmts[i].key == stmts[j].key && IsNamed(stmts[j]) ==>
          Nestable(stmts, i))
    && (forall i :: 0 <= i < |stmts| ==> BodyWellKinded(stmts[i]))
  }

  predicate IsNamed(s: Stmt) {
    s.Block? && s.name.Some?
  }

  /** This statement leaves a dictionary under its key. */
  predicate Nestable(stmts: seq<Stmt>, i: int)
    requires 0 <= i < |stmts|
  {
    IsNamed(stmts[i]) || (stmts[i].Block? && !Occurs(stmts[..i], stmts[i].key))
  }

  predicate Occurs(stmts: seq<Stmt>, key: string) {
    exists i :: 0 <= i < |stmts| && stmts[i].key == key
  }

  predicate BodyWellKinded(s: Stmt)
    decreases s, 1
  {
    s.Block? ==> WellKinded(s.body)
  }

  // ---- parsing the tokens of a tree ----

  /** Arguments are collected in order. */
  lemma {:induction false} ParseArgs(args: seq<Arg>, rest: seq<Token>, config: Config, key: string, before: seq<string>)
    ensures ParseStatement(ArgTokens(args) + rest, config, key, before)
      == ParseStatement(rest, config, key, before + ArgTexts(args))
  {
    if args == [] {
      assert ArgTokens(args) + rest == rest && before + ArgTexts(args) == before;
    } else {
      var tokens := ArgTokens(args) + rest;
      assert tokens[0] == ArgToken(args[0]);
      assert tokens[1..] == ArgTokens(args[1..]) + rest;
      ParseArgs(args[1..], rest, config, key, before + [args[0].text]);
      assert (before + [args[0].text]) + ArgTexts(args[1..]) == before + ArgTexts(args);
    }
  }

  lemma {:induction false} ParseDirective(key: string, args: seq<Arg>, rest: seq<Token>, config: Config)
    ensures ParseBlock(StmtTokens(Directive(key, args)) + rest, config)
      == ParseBlock(rest, AppendRepeated(config, key, StrList(ArgTexts(args))))
  {
    var tokens := StmtTokens(Directive(key, args)) + rest;
    var tail := [END] + rest;
    assert tokens[1..] == ArgTokens(args) + tail && tail[1..] == rest;
    ParseArgs(args, tail, config, key, []);
    assert [] + ArgTexts(args) == ArgTexts(args);
  }

  function NameArgs(name: Option<Arg>): seq<Arg> {
    if name.Some? then [name.value] else []
  }

  lemma {:induction false} BlockTokens(key: string, name: Option<Arg>, body: seq<Stmt>, rest: seq<Token>)
    ensures var tokens := StmtTokens(Block(key, name, body)) + rest;
      && tokens[0] == Token(Word, key)
      && tokens[1..] == ArgTokens(NameArgs(name)) + ([OPEN] + (Tokens(body) + ([CLOSE] + rest)))
    ensures ArgTexts(NameArgs(name)) == if name.Some? then [name.value.text] else []
  {
    ConcatAssoc(Tokens(body), [CLOSE], rest);
    ConcatAssoc([OPEN], Tokens(body) + [CLOSE], rest);
    ConcatAssoc(ArgTokens(NameArgs(name)), [OPEN] + (Tokens(body) + [CLOSE]), rest);
  }

  /** A block whose body parses is added to the dictionary, or refused. */
  lemma {:induction false} ParseOpened(key: string, name: Option<Arg>, body: seq<Stmt>, rest: seq<Token>,
                                       config: Config, nested: Config)
    requires ParseBlock(Tokens(body) + ([CLOSE] + rest), map[]) == Ok((nested, rest))
    ensures ParseBlock(StmtTokens(Block(key, name, body)) + rest, config) ==
      match AddBlock(config, key, if name.Some? then [name.value.text] else [], nested)
      case Err(e) => Err(e)
      case Ok(next) => ParseBlock(rest, next)
  {
    var inside := Tokens(body) + ([CLOSE] + rest);
    BlockTokens(key, name, body, rest);
    ParseArgs(NameArgs(name), [OPEN] + inside, config, key, []);
    assert [] + ArgTexts(NameArgs(name)) == ArgTexts(NameArgs(name));
    assert ([OPEN] + inside)[1..] == inside;
  }

  lemma {:induction false} ParseOpenedFails(key: string, name: Option<Arg>, body: seq<Stmt>, rest: seq<Token>,
                                            config: Config, error: SyntaxError)
    requires ParseBlock(Tokens(body) + ([CLOSE] + rest), map[]) == Err(error)
    ensures ParseBlock(StmtTokens(Block(key, name, body)) + rest, config) == Err(error)
  {
    var inside := Tokens(body) + ([CLOSE] + rest);
    BlockTokens(key, name, body, rest);
    ParseArgs(NameArgs(name), [OPEN] + inside, config, key, []);
    assert [] + ArgTexts(NameArgs(name)) == ArgTexts(NameArgs(name));
    assert ([OPEN] + inside)[1..] == inside;
  }

  /** What is left of a parse after a part of the tree: an error is final. */
  function After(denoted: Result<Config, SyntaxError>, rest: seq<Token>): Parsed {
    match denoted case Err(e) => Err(e) case Ok(config) => Ok((config, rest))
  }

  /** Round trip, for every tree: parsing its tokens, closed by its brace and followed by
      anything at all, gives what the tree denotes and stops just past the brace, or gives
      the error for which the tree is refused. */
  lemma {:induction false} ParseTokens(stmts: seq<Stmt>, rest: seq<Token>, config: Config)
    ensures ParseBlock(Tokens(stmts) + ([CLOSE] + rest), config) == After(Denote(stmts, config), rest)
    decreases stmts, 0
  {
    if stmts == [] {
      assert Tokens(stmts) + ([CLOSE] + rest) == [CLOSE] + rest;
      assert ([CLOSE] + rest)[1..] == rest;
    } else {
      var later := Tokens(stmts[1..]) + ([CLOSE] + rest);
      ConcatAssoc(StmtTokens(stmts[0]), Tokens(stmts[1..]), [CLOSE] + rest);
      ParseStmt(stmts[0], later, config);
      var next := DenoteStmt(stmts[0], config);
      if next.Ok? {
        ParseTokens(stmts[1..], rest, next.value);
      }
    }
  }

  lemma {:induction false} ParseStmt(s: Stmt, rest: seq<Token>, config: Config)
    ensures ParseBlock(StmtTokens(s) + rest, config) ==
      match DenoteStmt(s, config)
      case Err(e) => Err(e)
      case Ok(next) => ParseBlock(rest, next)
    decreases s, 1
  {
    match s
    case Directive(key, args) => ParseDirective(key, args, rest, config);
    case Block(key, name, body) =>
      ParseTokens(body, rest, map[]);
      match Denote(body, map[])
      case Ok(nested) => ParseOpened(key, name, body, rest, config, nested);
      case Err(error) => ParseOpenedFails(key, name, body, rest, config, error);
  }

  /** The same at the top level, where the tokens simply end. */
  lemma {:induction false} ParseWhole(stmts: seq<Stmt>, config: Config)
    ensures ParseBlock(Tokens(stmts), config) == After(Denote(stmts, config), [])
    decreases |stmts|
  {
    if stmts != [] {
      ParseStmt(stmts[0], Tokens(stmts[1..]), config);
      var next := DenoteStmt(stmts[0], config);
      if next.Ok? {
        ParseWhole(stmts[1..], next.value);
      }
    }
  }

  // ---- exactly the well-kinded trees denote ----

  /** The dictionary that some statements have led to: under each of their keys it holds a
      dictionary exactly if an argument block could still be nested there. */
  ghost predicate Reflects(config: Config, done: seq<Stmt>) {
    && (forall key :: key in config <==> Occurs(done, key))
    && (forall key :: key in config ==> (config[key].Dict? <==> AllNestable(done, key)))
  }

  predicate AllNestable(done: seq<Stmt>, key: string) {
    forall i :: 0 <= i < |done| && done[i].key == key ==> Nestable(done, i)
  }

  lemma OccursSnoc(done: seq<Stmt>, s: Stmt, key: string)
    ensures Occurs(done + [s], key) <==> Occurs(done, key) || s.key == key
  {
    var all := done + [s];
    if Occurs(done, key) {
      var i :| 0 <= i < |done| && done[i].key == key;
      assert all[i].key == key;
    }
    if s.key == key {
      assert all[|done|].key == key;
    }
  }

  lemma NestableSnoc(done: seq<Stmt>, s: Stmt, key: string)
    ensures AllNestable(done + [s], key)
      <==> AllNestable(done, key) && (s.key == key ==> IsNamed(s) || (s.Block? && !Occurs(done, key)))
  {
    var all := done + [s];
    assert all[..|done|] == done;
    forall i | 0 <= i < |done|
      ensures all[i] == done[i] && Nestable(all, i) == Nestable(done, i)
    {
      assert all[..i] == done[..i];
    }
    if AllNestable(all, key) {
      assert s.key == key ==> Nestable(all, |done|);
      forall i | 0 <= i < |done| && done[i].key == key
        ensures Nestable(done, i)
      {
        assert all[i].key == key;
      }
    }
  }

  /** One statement, at a place where the statements before it are in order. */
  lemma {:induction false} StmtReflects(s: Stmt, config: Config, done: seq<Stmt>)
    requires Reflects(config, done) && (s.Block? ==> Denote(s.body, map[]).Ok?)
    ensures DenoteStmt(s, config).Ok? <==> (IsNamed(s) ==> AllNestable(done, s.key))
    ensures DenoteStmt(s, config).Ok? ==> Reflects(DenoteStmt(s, config).value, done + [s])
  {
    if DenoteStmt(s, config).Ok? {
      var next := DenoteStmt(s, config).value;
      forall key
        ensures key in next <==> Occurs(done + [s], key)
        ensures key in next ==> (next[key].Dict? <==> AllNestable(done + [s], key))
      {
        OccursSnoc(done, s, key);
        NestableSnoc(done, s, key);
      }
    }
  }

  /** What remains to be checked of the statements behind those already done. */
  predicate RestWellKinded(done: seq<Stmt>, stmts: seq<Stmt>) {
    forall j :: 0 <= j < |stmts| ==>
      BodyWellKinded(stmts[j]) && (IsNamed(stmts[j]) ==> AllNestable(done + stmts[..j], stmts[j].key))
  }

  lemma RestStep(done: seq<Stmt>, stmts: seq<Stmt>)
    requires stmts != []
    ensures RestWellKinded(done, stmts) <==>
      && BodyWellKinded(stmts[0]) && (IsNamed(stmts[0]) ==> AllNestable(done, stmts[0].key))
      && RestWellKinded(done + [stmts[0]], stmts[1..])
  {
    assert done + stmts[..0] == done;
    forall j | 0 < j < |stmts|
      ensures stmts[j] == stmts[1..][j - 1] && done + stmts[..j] == (done + [stmts[0]]) + stmts[1..][..j - 1]
    {
      assert stmts[..j] == [stmts[0]] + stmts[1..][..j - 1];
      ConcatAssoc(done, [stmts[0]], stmts[1..][..j - 1]);
    }
    if RestWellKinded(done + [stmts[0]], stmts[1..]) {
      forall j | 0 < j < |stmts|
        ensures BodyWellKinded(stmts[j])
        ensures IsNamed(stmts[j]) ==> AllNestable(done + stmts[..j], stmts[j].key)
      {
        assert BodyWellKinded(stmts[1..][j - 1]);
      }
    }
    if RestWellKinded(done, stmts) {
      assert BodyWellKinded(stmts[0]);
      forall j | 0 <= j < |stmts[1..]|
        ensures BodyWellKinded(stmts[1..][j])
        ensures IsNamed(stmts[1..][j]) ==>
          AllNestable((done + [stmts[0]]) + stmts[1..][..j], stmts[1..][j].key)
      {
        assert BodyWellKinded(stmts[j + 1]);
      }
    }
  }

  lemma {:induction false} RestIsWellKinded(stmts: seq<Stmt>)
    ensures RestWellKinded([], stmts) <==> WellKinded(stmts)
  {
    forall i, j | 0 <= i < j < |stmts|
      ensures stmts[..j][..i] == stmts[..i] && Nestable(stmts[..j], i) == Nestable(stmts, i)
    {
    }
    forall j | 0 <= j <= |stmts|
      ensures [] + stmts[..j] == stmts[..j]
    {
    }
    if WellKinded(stmts) {
      forall j | 0 <= j < |stmts|
        ensures BodyWellKinded(stmts[j])
        ensures IsNamed(stmts[j]) ==> AllNestable([] + stmts[..j], stmts[j].key)
      {
      }
    }
    if RestWellKinded([], stmts) {
      forall i, j | 0 <= i < j < |stmts| && stmts[i].key == stmts[j].key && IsNamed(stmts[j])
        ensures Nestable(stmts, i)
      {
        assert AllNestable([] + stmts[..j], stmts[j].key);
        assert stmts[..j][i].key == stmts[j].key;
      }
    }
  }

  lemma {:induction false} RestDenotes(done: seq<Stmt>, stmts: seq<Stmt>, config: Config)
    requires Reflects(config, done)
    ensures Denote(stmts, config).Ok? <==> RestWellKinded(done, stmts)
    decreases stmts, 0
  {
    if stmts != [] {
      var s := stmts[0];
      RestStep(done, stmts);
      BodyDenotes(s);
      if s.Block? ==> Denote(s.body, map[]).Ok? {
        StmtReflects(s, config, done);
        if DenoteStmt(s, config).Ok? {
          RestDenotes(done + [s], stmts[1..], DenoteStmt(s, config).value);
        }
      }
    }
  }

  lemma {:induction false} BodyDenotes(s: Stmt)
    ensures s.Block? ==> (Denote(s.body, map[]).Ok? <==> BodyWellKinded(s))
    decreases s, 1
  {
    if s.Block? {
      RestDenotes([], s.body, map[]);
      RestIsWellKinded(s.body);
    }
  }

  /** A tree is refused if and only if it is not well-kinded. */
  lemma {:induction false} DenotesIff(stmts: seq<Stmt>)
    ensures Denote(stmts, map[]).Ok? <==> WellKinded(stmts)
  {
    RestDenotes([], stmts, map[]);
    RestIsWellKinded(stmts);
  }
}
