/** The configuration lexer (ConfigLexer.tokenize in tls_web_server/config.py). */
module Lexer {
  import opened Wire

  datatype Kind = LBrace | RBrace | Semicolon | Quoted | Word

  datatype Token = Token(kind: Kind, value: string)

  // ---- the alternatives of the token pattern ----

  predicate IsWordChar(c: char) {
    'a' <= c <= 'z' || 'A' <= c <= 'Z' || '0' <= c <= '9' || c == '_' || c == '.' || c == '/' || c == ':' || c == '\\'
        || c == '-'
  }

  predicate IsBlank(c: char) {
    c == ' ' || c == '\t' || c == '\r' || c == '\n'
  }

  /** The two classes of the pattern, by their character codes: letters, digits, the underscore,
      the backslash and - . / : make words; tab, newline, return and blank are layout. */
  lemma {:induction false} ClassesExactly(c: char)
    ensures IsWordChar(c) <==>
      var n := c as int;
      45 <= n <= 58 || 65 <= n <= 90 || n == 92 || n == 95 || 97 <= n <= 122
    ensures IsBlank(c) <==> c as int in {9, 10, 13, 32}
  {
  }

  /** What a run of characters consists of: the repeated classes of the pattern. */
  datatype Class = WordChars | Blanks | NotNewline | NotQuote

  predicate InClass(k: Class, c: char) {
    match k
    case WordChars => IsWordChar(c)
    case Blanks => IsBlank(c)
    case NotNewline => c != '\n'
    case NotQuote => c != '"'
  }

  /** The length of the longest prefix in a class. */
  function RunLength(k: Class, text: string): (n: nat)
    ensures n <= |text|
  {
    if text != "" && InClass(k, text[0]) then 1 + RunLength(k, text[1..]) else 0
  }

  /** What the pattern matches at the front of a text: nothing worth a token, or a token. */
  datatype Match = Skip(length: nat) | Tok(token: Token, length: nat)

  /** Exactly one alternative can start with a given character. None is the SyntaxError. */
  function MatchAt(text: string): Option<Match>
    requires text != ""
  {
    var c := text[0];
    if c == '#' then Some(Skip(1 + RunLength(NotNewline, text[1..])))
    else if c == '{' then Some(Tok(Token(LBrace, "{"), 1))
    else if c == '}' then Some(Tok(Token(RBrace, "}"), 1))
    else if c == ';' then Some(Tok(Token(Semicolon, ";"), 1))
    else if c == '"' then
      var n := RunLength(NotQuote, text[1..]);
      if 1 + n < |text| then Some(Tok(Token(Quoted, StripQuotes(text[..n + 2])), n + 2)) else None
    else if IsWordChar(c) then
      var n := RunLength(WordChars, text);
      Some(Tok(Token(Word, text[..n]), n))
    else if IsBlank(c) then Some(Skip(RunLength(Blanks, text)))
    else None
  }

  /** value.strip('"'). */
  function StripQuotes(value: string): string {
    if value != "" && value[0] == '"' then StripQuotes(value[1..])
    else if value != "" && value[|value| - 1] == '"' then StripQuotes(value[..|value| - 1])
    else value
  }

  function Length(m: Match): nat {
    match m case Skip(n) => n case Tok(_, n) => n
  }

  lemma MatchMoves(text: string)
    requires text != "" && MatchAt(text).Some?
    ensures 0 < Length(MatchAt(text).value) <= |text|
  {
  }

  /** The tokens of a text; Err counts the characters that were left at the bad one. */
  function Lex(text: string): Result<seq<Token>, nat>
    decreases |text|
  {
    if text == "" then Ok([])
    else
      match MatchAt(text)
      case None => Err(|text|)
      case Some(m) =>
        MatchMoves(text);
        match m
        case Skip(n) => Lex(text[n..])
        case Tok(token, n) => Before([token], Lex(text[n..]))
  }

  function Before(tokens: seq<Token>, later: Result<seq<Token>, nat>): Result<seq<Token>, nat> {
    match later case Err(e) => Err(e) case Ok(more) => Ok(tokens + more)
  }

  lemma BeforeTwice(a: seq<Token>, b: seq<Token>, later: Result<seq<Token>, nat>)
    ensures Before(a, Before(b, later)) == Before(a + b, later)
    ensures Before([], later) == later
  {
    if later.Ok? {
      ConcatAssoc(a, b, later.value);
      assert [] + later.value == later.value;
    }
  }

  /** The unexpected character is inside the text. */
  lemma {:induction false} LexErrBound(text: string)
    requires Lex(text).Err?
    ensures 0 < Lex(text).error <= |text|
    decreases |text|
  {
    if text != "" && MatchAt(text).Some? {
      MatchMoves(text);
      LexErrBound(text[Length(MatchAt(text).value)..]);
    }
  }

  lemma {:induction false} NoQuote(text: string)
    requires RunLength(NotQuote, text) == |text|
    ensures forall i :: 0 <= i < |text| ==> text[i] != '"'
  {
    if text != "" {
      NoQuote(text[1..]);
      assert forall i :: 0 < i < |text| ==> text[i] == text[1..][i - 1];
    }
  }

  lemma {:induction false} RunEndsAtQuote(text: string)
    ensures RunLength(NotQuote, text) < |text| ==> text[RunLength(NotQuote, text)] == '"'
  {
    if text != "" && text[0] != '"' {
      RunEndsAtQuote(text[1..]);
    }
  }

  /** No alternative of the pattern matches exactly at a quote that nothing closes and at a
      character that starts none of them. */
  lemma {:induction false} UnmatchedIff(text: string)
    requires text != ""
    ensures MatchAt(text).None? <==>
      if text[0] == '"' then forall i :: 0 < i < |text| ==> text[i] != '"'
      else !IsWordChar(text[0]) && !IsBlank(text[0]) && text[0] !in "#{};"
  {
    if text[0] == '"' {
      var rest := text[1..];
      assert forall i :: 0 < i < |text| ==> text[i] == rest[i - 1];
      RunEndsAtQuote(rest);
      if RunLength(NotQuote, rest) == |rest| {
        NoQuote(rest);
      } else {
        assert text[1 + RunLength(NotQuote, rest)] == '"';
      }
    }
  }

  lemma {:induction false} RunOfPrefix(k: Class, text: string, to: nat)
    requires RunLength(k, text) <= to <= |text|
    ensures RunLength(k, text[..to]) == RunLength(k, text)
  {
    if text != "" && InClass(k, text[0]) {
      assert text[..to][1..] == text[1..][..to - 1];
      RunOfPrefix(k, text[1..], to - 1);
    }
  }

  /** A match does not depend on what comes behind it. */
  lemma {:induction false} MatchOfPrefix(text: string, to: nat)
    requires text != "" && MatchAt(text).Some? && Length(MatchAt(text).value) <= to <= |text|
    ensures 0 < to && MatchAt(text[..to]) == MatchAt(text)
  {
    MatchMoves(text);
    var part := text[..to];
    assert part[0] == text[0] && part[1..] == text[1..][..to - 1];
    if text[0] == '#' {
      RunOfPrefix(NotNewline, text[1..], to - 1);
    } else if text[0] == '"' {
      RunOfPrefix(NotQuote, text[1..], to - 1);
      var n := RunLength(NotQuote, text[1..]);
      assert part[..n + 2] == text[..n + 2];
    } else if IsWordChar(text[0]) {
      RunOfPrefix(WordChars, text, to);
      var n := RunLength(WordChars, text);
      assert part[..n] == text[..n];
    } else if IsBlank(text[0]) {
      RunOfPrefix(Blanks, text, to);
    }
  }

  lemma DropTwice(text: string, n: nat, k: nat)
    requires n <= k <= |text|
    ensures text[n..][k - n..] == text[k..]
  {
  }

  /** Lexing fails at this position. */
  predicate FailsAt(text: string, at: nat) {
    Lex(text).Err? && Lex(text).error + at == |text|
  }

  /** Behind a match, at the same character. */
  lemma FailsLater(text: string, at: nat)
    requires FailsAt(text, at) && text != "" && MatchAt(text).Some?
    ensures var n := Length(MatchAt(text).value);
      0 < n <= at && n <= |text| && FailsAt(text[n..], at - n)
  {
    MatchMoves(text);
    LexErrBound(text[Length(MatchAt(text).value)..]);
  }

  /** Where lexing fails, no alternative matches. */
  lemma {:induction false} LexFailsThere(text: string, at: nat)
    requires FailsAt(text, at)
    ensures at < |text| && MatchAt(text[at..]).None?
    decreases |text|
  {
    LexErrBound(text);
    if MatchAt(text).Some? {
      FailsLater(text, at);
      var n := Length(MatchAt(text).value);
      LexFailsThere(text[n..], at - n);
      DropTwice(text, n, at);
    } else {
      assert text[0..] == text;
    }
  }

  lemma LexOfMatch(text: string, n: nat, to: nat)
    requires text != "" && MatchAt(text).Some? && n == Length(MatchAt(text).value) && n <= to <= |text|
    requires Lex(text[n..][..to - n]).Ok?
    ensures Lex(text[..to]).Ok?
  {
    MatchOfPrefix(text, to);
    assert text[..to][n..] == text[n..][..to - n];
  }

  /** And all the text before lexes. */
  lemma {:induction false} LexesBefore(text: string, at: nat)
    requires FailsAt(text, at)
    ensures at <= |text| && Lex(text[..at]).Ok?
    decreases |text|
  {
    if text != "" && MatchAt(text).Some? {
      FailsLater(text, at);
      var n := Length(MatchAt(text).value);
      LexesBefore(text[n..], at - n);
      LexOfMatch(text, n, at);
    }
  }

  /** The tokens after one more match. */
  function Taken(tokens: seq<Token>, m: Match): seq<Token> {
    match m case Skip(_) => tokens case Tok(token, _) => tokens + [token]
  }

  /** The tokens so far and those of the rest are all tokens. */
  predicate Ahead(text: string, rest: string, tokens: seq<Token>) {
    Lex(text) == Before(tokens, Lex(rest))
  }

  lemma AheadAtFirst(text: string)
    ensures text == text[0..] && Ahead(text, text, [])
  {
    BeforeTwice([], [], Lex(text));
  }

  lemma LexStep(text: string, rest: string, tokens: seq<Token>, m: Match)
    requires rest != "" && MatchAt(rest) == Some(m) && Ahead(text, rest, tokens)
    ensures 0 < Length(m) <= |rest| && Ahead(text, rest[Length(m)..], Taken(tokens, m))
  {
    MatchMoves(rest);
    if m.Tok? {
      BeforeTwice(tokens, [m.token], Lex(rest[Length(m)..]));
    }
  }

  lemma {:induction false} LexStops(text: string, rest: string, tokens: seq<Token>)
    requires Ahead(text, rest, tokens) && (rest != "" ==> MatchAt(rest).None?)
    ensures Lex(text) == if rest == "" then Ok(tokens) else Err(|rest|)
  {
    assert tokens + [] == tokens;
  }

  class ConfigLexer {
    const text: string

    constructor (text: string)
      ensures this.text == text
    {
      this.text := text;
    }

    /** Err is the position of the unexpected character. */
    method Tokenize() returns (r: Result<seq<Token>, nat>)
      ensures match Lex(text)
        case Ok(tokens) => r == Ok(tokens)
        case Err(left) => left <= |text| && r == Err(|text| - left)
    {
      var pos := 0;
      var tokens: seq<Token> := [];
      ghost var rest := text;
      AheadAtFirst(text);
      while pos < |text|
        invariant |rest| == |text| - pos && rest == text[pos..]
        invariant Ahead(text, rest, tokens)
      {
        var m := MatchAt(text[pos..]);
        if m.None? {
          LexStops(text, rest, tokens);
          return Err(pos);
        }
        LexStep(text, rest, tokens, m.value);
        tokens := Taken(tokens, m.value);
        DropTwice(text, pos, pos + Length(m.value));
        pos, rest := pos + Length(m.value), rest[Length(m.value)..];
      }
      LexStops(text, rest, tokens);
      return Ok(tokens);
    }
  }

  // ---- printing ----

  /** Layout between tokens: single blanks and whole-line comments. */
  datatype Layout = Blank(c: char) | Comment(text: string)

  predicate LayoutOk(l: Layout) {
    match l
    case Blank(c) => IsBlank(c)
    case Comment(text) => forall i :: 0 <= i < |text| ==> text[i] != '\n'
  }

  function PrintPiece(l: Layout): string {
    match l case Blank(c) => [c] case Comment(text) => "#" + (text + "\n")
  }

  function PrintLayout(gap: seq<Layout>): string {
    if gap == [] then "" else PrintPiece(gap[0]) + PrintLayout(gap[1..])
  }

  /** A token that can be written down. */
  predicate TokenOk(t: Token) {
    match t.kind
    case LBrace => t.value == "{"
    case RBrace => t.value == "}"
    case Semicolon => t.value == ";"
    case Quoted => forall i :: 0 <= i < |t.value| ==> t.value[i] != '"'
    case Word => t.value != "" && forall i :: 0 <= i < |t.value| ==> IsWordChar(t.value[i])
  }

  function PrintToken(t: Token): string {
    if t.kind == Quoted then "\"" + t.value + "\"" else t.value
  }

  /** Each token with some layout after it. */
  datatype Spaced = Spaced(token: Token, gap: seq<Layout>)

  predicate SpacedOk(s: Spaced) {
    TokenOk(s.token) && forall i :: 0 <= i < |s.gap| ==> LayoutOk(s.gap[i])
  }

  /** A text as an author may write it: only two adjacent words need layout between them. */
  predicate Written(tokens: seq<Spaced>) {
    && (forall i :: 0 <= i < |tokens| ==> SpacedOk(tokens[i]))
    && (forall i :: 0 < i < |tokens| && tokens[i - 1].gap == [] && tokens[i - 1].token.kind == Word ==>
          tokens[i].token.kind != Word)
  }

  function Print(tokens: seq<Spaced>): string {
    if tokens == [] then "" else PrintToken(tokens[0].token) + PrintLayout(tokens[0].gap) + Print(tokens[1..])
  }

  /** A whole file: layout before the first token, the tokens with theirs, and perhaps a
      last comment that no newline ends. */
  datatype Source = Source(lead: seq<Layout>, tokens: seq<Spaced>, ending: Option<string>)

  predicate SourceOk(f: Source) {
    && (forall i :: 0 <= i < |f.lead| ==> LayoutOk(f.lead[i]))
    && Written(f.tokens)
    && (f.ending.Some? ==> LayoutOk(Comment(f.ending.value)))
  }

  function PrintEnding(ending: Option<string>): string {
    match ending case None => "" case Some(comment) => "#" + comment
  }

  function PrintSource(f: Source): string {
    PrintLayout(f.lead) + (Print(f.tokens) + PrintEnding(f.ending))
  }

  function Bare(tokens: seq<Spaced>): seq<Token> {
    seq(|tokens|, i requires 0 <= i < |tokens| => tokens[i].token)
  }

  // ---- lexing what was printed ----

  lemma {:induction false} RunOf(k: Class, run: string, rest: string)
    requires forall i :: 0 <= i < |run| ==> InClass(k, run[i])
    requires rest == "" || !InClass(k, rest[0])
    ensures RunLength(k, run + rest) == |run|
  {
    if run == "" {
      assert run + rest == rest;
    } else {
      assert (run + rest)[1..] == run[1..] + rest;
      RunOf(k, run[1..], rest);
    }
  }

  lemma {:induction false} StripQuoted(inner: string)
    requires forall i :: 0 <= i < |inner| ==> inner[i] != '"'
    ensures StripQuotes("\"" + inner + "\"") == inner
  {
    var right := inner + "\"";
    assert ("\"" + inner + "\"")[1..] == right;
    if inner == "" {
      assert right[1..] == "";
      assert StripQuotes("") == "" && StripQuotes(right) == "";
    } else {
      assert right[..|right| - 1] == inner;
      assert StripQuotes(inner) == inner;
    }
  }

  /** Blank text before a text does not change its tokens. */
  lemma {:induction false} LexBlank(c: char, rest: string)
    requires IsBlank(c)
    ensures Lex([c] + rest) == Lex(rest)
  {
    var text := [c] + rest;
    assert text[1..] == rest;
    assert MatchAt(text) == Some(Skip(1 + RunLength(Blanks, rest)));
    assert text[1 + RunLength(Blanks, rest)..] == rest[RunLength(Blanks, rest)..];
    if rest != "" && IsBlank(rest[0]) {
      assert MatchAt(rest) == Some(Skip(RunLength(Blanks, rest)));
    }
  }

  lemma {:induction false} LexComment(comment: string, rest: string)
    requires LayoutOk(Comment(comment))
    ensures Lex(PrintPiece(Comment(comment)) + rest) == Lex(rest)
  {
    var text := PrintPiece(Comment(comment)) + rest;
    var tail := "\n" + rest;
    ConcatAssoc(comment, "\n", rest);
    assert text[1..] == comment + tail;
    RunOf(NotNewline, comment, tail);
    assert text[1 + |comment|..] == tail;
    LexBlank('\n', rest);
  }

  lemma {:induction false} LexLayout(gap: seq<Layout>, rest: string)
    requires forall i :: 0 <= i < |gap| ==> LayoutOk(gap[i])
    ensures Lex(PrintLayout(gap) + rest) == Lex(rest)
  {
    if gap == [] {
      assert PrintLayout(gap) + rest == rest;
    } else {
      var later := PrintLayout(gap[1..]) + rest;
      LexLayout(gap[1..], rest);
      ConcatAssoc(PrintPiece(gap[0]), PrintLayout(gap[1..]), rest);
      match gap[0]
      case Blank(c) => LexBlank(c, later);
      case Comment(text) => LexComment(text, later);
    }
  }

  predicate EndsWord(rest: string) {
    rest == "" || !IsWordChar(rest[0])
  }

  /** What follows a word in a written text ends it. */
  lemma NextEndsWord(tokens: seq<Spaced>, rest: string)
    requires Written(tokens) && tokens != [] && tokens[0].token.kind == Word && EndsWord(rest)
    ensures EndsWord(PrintLayout(tokens[0].gap) + (Print(tokens[1..]) + rest))
  {
    var gap := tokens[0].gap;
    var tail := tokens[1..];
    if gap != [] {
      assert LayoutOk(gap[0]);
    } else if tail != [] {
      assert SpacedOk(tail[0]) && tail[0].token.kind != Word;
      assert PrintToken(tail[0].token) != "" && !IsWordChar(PrintToken(tail[0].token)[0]);
    } else {
      assert PrintLayout(gap) + (Print(tail) + rest) == rest;
    }
  }

  lemma {:induction false} LexMatched(text: string, t: Token, length: nat, rest: string)
    requires text != "" && MatchAt(text) == Some(Tok(t, length)) && 0 < length <= |text| && text[length..] == rest
    ensures Lex(text) == Before([t], Lex(rest))
  {
  }

  lemma {:induction false} LexWord(word: string, rest: string)
    requires TokenOk(Token(Word, word)) && EndsWord(rest)
    ensures Lex(word + rest) == Before([Token(Word, word)], Lex(rest))
  {
    var text := word + rest;
    RunOf(WordChars, word, rest);
    assert text[..|word|] == word;
    LexMatched(text, Token(Word, word), |word|, rest);
  }

  lemma {:induction false} LexQuoted(inner: string, rest: string)
    requires TokenOk(Token(Quoted, inner))
    ensures Lex("\"" + inner + "\"" + rest) == Before([Token(Quoted, inner)], Lex(rest))
  {
    var text := "\"" + inner + "\"" + rest;
    var tail := "\"" + rest;
    assert text[1..] == inner + tail;
    RunOf(NotQuote, inner, tail);
    assert text[..|inner| + 2] == "\"" + inner + "\"";
    StripQuoted(inner);
    LexMatched(text, Token(Quoted, inner), |inner| + 2, rest);
  }

  lemma {:induction false} LexToken(t: Token, rest: string)
    requires TokenOk(t) && (t.kind == Word ==> EndsWord(rest))
    ensures Lex(PrintToken(t) + rest) == Before([t], Lex(rest))
  {
    match t.kind
    case Word => LexWord(t.value, rest);
    case Quoted => LexQuoted(t.value, rest);
    case _ => LexMatched(PrintToken(t) + rest, t, 1, rest);
  }

  lemma PrintSplits(first: Spaced, later: string, rest: string)
    ensures (PrintToken(first.token) + PrintLayout(first.gap) + later) + rest
      == PrintToken(first.token) + (PrintLayout(first.gap) + (later + rest))
  {
    ConcatAssoc(PrintToken(first.token), PrintLayout(first.gap), later);
    ConcatAssoc(PrintToken(first.token), PrintLayout(first.gap) + later, rest);
    ConcatAssoc(PrintLayout(first.gap), later, rest);
  }

  /** The tokens come first, then those of whatever follows. */
  lemma {:induction false} LexTokens(tokens: seq<Spaced>, rest: string)
    requires Written(tokens) && EndsWord(rest)
    ensures Lex(Print(tokens) + rest) == Before(Bare(tokens), Lex(rest))
  {
    if tokens == [] {
      assert Print(tokens) + rest == rest;
      BeforeTwice([], [], Lex(rest));
      assert Bare(tokens) == [];
    } else {
      var first := tokens[0];
      var later := Print(tokens[1..]);
      assert Written(tokens[1..]) && SpacedOk(first);
      LexTokens(tokens[1..], rest);
      LexLayout(first.gap, later + rest);
      if first.token.kind == Word {
        NextEndsWord(tokens, rest);
      }
      PrintSplits(first, later, rest);
      LexToken(first.token, PrintLayout(first.gap) + (later + rest));
      BeforeTwice([first.token], Bare(tokens[1..]), Lex(rest));
      assert [first.token] + Bare(tokens[1..]) == Bare(tokens);
    }
  }

  lemma LexEnding(ending: Option<string>)
    requires ending.Some? ==> LayoutOk(Comment(ending.value))
    ensures Lex(PrintEnding(ending)) == Ok([]) && EndsWord(PrintEnding(ending))
  {
    if ending.Some? {
      var text := "#" + ending.value;
      assert text[1..] == ending.value && ending.value + "" == ending.value;
      RunOf(NotNewline, ending.value, "");
      assert text[|text|..] == "";
    }
  }

  /** Lexing a written file gives its tokens back, whatever the layout and the comments,
      before, between and behind them. */
  lemma {:induction false} LexPrinted(f: Source)
    requires SourceOk(f)
    ensures Lex(PrintSource(f)) == Ok(Bare(f.tokens))
  {
    LexLayout(f.lead, Print(f.tokens) + PrintEnding(f.ending));
    LexEnding(f.ending);
    LexTokens(f.tokens, PrintEnding(f.ending));
    assert Bare(f.tokens) + [] == Bare(f.tokens);
  }

  // ---- every text that has tokens is a written file ----

  lemma PrependLayout(l: Layout, f: Source)
    requires LayoutOk(l) && SourceOk(f)
    ensures var g := f.(lead := [l] + f.lead);
      SourceOk(g) && PrintSource(g) == PrintPiece(l) + PrintSource(f)
  {
    assert ([l] + f.lead)[1..] == f.lead;
    ConcatAssoc(PrintPiece(l), PrintLayout(f.lead), Print(f.tokens) + PrintEnding(f.ending));
  }

  lemma PrependToken(t: Token, f: Source)
    requires TokenOk(t) && SourceOk(f) && (t.kind == Word ==> EndsWord(PrintSource(f)))
    ensures var g := Source([], [Spaced(t, f.lead)] + f.tokens, f.ending);
      SourceOk(g) && PrintSource(g) == PrintToken(t) + PrintSource(f)
  {
    var first := Spaced(t, f.lead);
    var g := Source([], [first] + f.tokens, f.ending);
    assert g.tokens[1..] == f.tokens;
    if f.lead == [] && f.tokens != [] && f.tokens[0].token.kind == Word {
      WordStarts(f);
    }
    PrintSplits(first, Print(f.tokens), PrintEnding(f.ending));
    assert PrintSource(g) == Print(g.tokens) + PrintEnding(f.ending);
  }

  lemma WordStarts(f: Source)
    requires SourceOk(f) && f.lead == [] && f.tokens != [] && f.tokens[0].token.kind == Word
    ensures !EndsWord(PrintSource(f))
  {
    assert SpacedOk(f.tokens[0]);
    assert PrintSource(f)[0] == f.tokens[0].token.value[0];
  }

  /** A match of a token is that token printed. */
  lemma MatchedText(text: string)
    requires text != "" && MatchAt(text).Some? && MatchAt(text).value.Tok?
    ensures var m := MatchAt(text).value;
      && 0 < m.length <= |text| && TokenOk(m.token) && PrintToken(m.token) == text[..m.length]
      && (m.token.kind == Word ==> EndsWord(text[m.length..]))
  {
    MatchedTokenOk(text);
    RunStops(WordChars, text);
    if text[0] == '"' {
      var n := RunLength(NotQuote, text[1..]);
      RunInClass(NotQuote, text[1..]);
      RunStops(NotQuote, text[1..]);
      var inner := text[1..][..n];
      assert text[..n + 2] == "\"" + inner + "\"";
      StripQuoted(inner);
    }
  }

  lemma BlankIsPrinted(text: string, f: Source)
    requires text != "" && IsBlank(text[0]) && SourceOk(f) && PrintSource(f) == text[1..]
    ensures SourceOk(f.(lead := [Blank(text[0])] + f.lead))
        && PrintSource(f.(lead := [Blank(text[0])] + f.lead)) == text
  {
    PrependLayout(Blank(text[0]), f);
    assert text == [text[0]] + text[1..];
  }

  lemma TokenIsPrinted(text: string, f: Source)
    requires text != "" && MatchAt(text).Some? && MatchAt(text).value.Tok? && MatchAt(text).value.length <= |text|
    requires SourceOk(f) && PrintSource(f) == text[MatchAt(text).value.length..]
    ensures var g := Source([], [Spaced(MatchAt(text).value.token, f.lead)] + f.tokens, f.ending);
      SourceOk(g) && PrintSource(g) == text
  {
    MatchedText(text);
    var m := MatchAt(text).value;
    assert text == text[..m.length] + text[m.length..];
    PrependToken(m.token, f);
  }

  /** Nothing is left out: every text that the lexer takes is a written file, and of no
      other tokens than those it finds. */
  lemma {:induction false} EveryTextIsPrinted(text: string) returns (f: Source)
    requires Lex(text).Ok?
    ensures SourceOk(f) && PrintSource(f) == text && Lex(text) == Ok(Bare(f.tokens))
  {
    f := AnyTextIsPrinted(text);
    LexPrinted(f);
  }

  lemma {:induction false} AnyTextIsPrinted(text: string) returns (f: Source)
    requires Lex(text).Ok?
    ensures SourceOk(f) && PrintSource(f) == text
    decreases |text|, 1
  {
    if text == "" {
      f := Source([], [], None);
    } else if IsBlank(text[0]) {
      assert text == [text[0]] + text[1..];
      LexBlank(text[0], text[1..]);
      f := AnyTextIsPrinted(text[1..]);
      BlankIsPrinted(text, f);
      f := f.(lead := [Blank(text[0])] + f.lead);
    } else if text[0] == '#' {
      f := CommentIsPrinted(text);
    } else {
      MatchedText(text);
      var m := MatchAt(text).value;
      f := AnyTextIsPrinted(text[m.length..]);
      TokenIsPrinted(text, f);
      f := Source([], [Spaced(m.token, f.lead)] + f.tokens, f.ending);
    }
  }

  lemma CommentSplits(text: string, n: nat)
    requires n + 1 < |text| && text[0] == '#' && text[n + 1] == '\n'
    ensures text == PrintPiece(Comment(text[1..n + 1])) + text[n + 2..]
  {
  }

  lemma {:induction false} CommentIsPrinted(text: string) returns (f: Source)
    requires Lex(text).Ok? && text != "" && text[0] == '#'
    ensures SourceOk(f) && PrintSource(f) == text
    decreases |text|, 0
  {
    var n := RunLength(NotNewline, text[1..]);
    var comment := text[1..n + 1];
    RunInClass(NotNewline, text[1..]);
    RunStops(NotNewline, text[1..]);
    assert LayoutOk(Comment(comment)) by {
      assert forall i :: 0 <= i < n ==> comment[i] == text[1..][i];
    }
    if n + 1 == |text| {
      f := Source([], [], Some(comment));
      assert PrintSource(f) == text;
    } else {
      var rest := text[n + 2..];
      CommentSplits(text, n);
      LexComment(comment, rest);
      f := AnyTextIsPrinted(rest);
      PrependLayout(Comment(comment), f);
      f := f.(lead := [Comment(comment)] + f.lead);
    }
  }

  /** Every token the lexer gives can be written down again. */
  lemma {:induction false} LexedTokensOk(text: string)
    requires Lex(text).Ok?
    ensures forall i :: 0 <= i < |Lex(text).value| ==> TokenOk(Lex(text).value[i])
    decreases |text|
  {
    if text != "" {
      MatchMoves(text);
      var m := MatchAt(text).value;
      LexedTokensOk(text[Length(m)..]);
      if m.Tok? {
        MatchedTokenOk(text);
      }
    }
  }

  lemma MatchedTokenOk(text: string)
    requires text != "" && MatchAt(text).Some? && MatchAt(text).value.Tok?
    ensures TokenOk(MatchAt(text).value.token)
  {
    RunInClass(WordChars, text);
    if text[0] == '"' {
      var n := RunLength(NotQuote, text[1..]);
      RunInClass(NotQuote, text[1..]);
      RunStops(NotQuote, text[1..]);
      var inner := text[1..][..n];
      assert text[..n + 2] == "\"" + inner + "\"";
      StripQuoted(inner);
    }
  }

  lemma {:induction false} RunInClass(k: Class, text: string)
    ensures forall i :: 0 <= i < RunLength(k, text) ==> InClass(k, text[i])
  {
    if text != "" && InClass(k, text[0]) {
      RunInClass(k, text[1..]);
      assert forall i :: 0 < i < RunLength(k, text) ==> text[i] == text[1..][i - 1];
    }
  }

  lemma {:induction false} RunStops(k: Class, text: string)
    ensures RunLength(k, text) < |text| ==> !InClass(k, text[RunLength(k, text)])
  {
    if text != "" && InClass(k, text[0]) {
      RunStops(k, text[1..]);
    }
  }
}
