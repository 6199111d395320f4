/** What a configuration means, read off its statement tree, and the proof that
    load_config computes it through text, tokens and untyped accumulators. */
module ConfigMeaning {
  import opened Wire
  import opened Lexer
  import opened Parser
  import opened Typed

  // ---- occurrences of a key ----

  /** The argument lists written under a key, in source order. */
  function ArgLists(stmts: seq<Stmt>, key: string): seq<seq<string>> {
    if stmts == [] then []
    else if stmts[0].Directive? && stmts[0].key == key then [ArgTexts(stmts[0].args)] + ArgLists(stmts[1..], key)
    else ArgLists(stmts[1..], key)
  }

  /** What one occurrence hands to _append_repeated. */
  function ValueOf(s: Stmt): Raw
    requires !IsNamed(s)
  {
    match s
    case Directive(_, args) => StrList(ArgTexts(args))
    case Block(_, _, body) => Dict(if Denote(body, map[]).Ok? then Denote(body, map[]).value else map[])
  }

  predicate Unnamed(stmts: seq<Stmt>, key: string) {
    forall i :: 0 <= i < |stmts| && stmts[i].key == key ==> !IsNamed(stmts[i])
  }

  function Values(stmts: seq<Stmt>, key: string): (values: seq<Raw>)
    requires Unnamed(stmts, key)
    ensures forall i :: 0 <= i < |values| ==> !values[i].Str?
  {
    if stmts == [] then []
    else if stmts[0].key == key then [ValueOf(stmts[0])] + Values(stmts[1..], key)
    else Values(stmts[1..], key)
  }

  /** Repeated _append_repeated under one key. */
  function Fold(existing: Option<Raw>, values: seq<Raw>): Option<Raw>
    decreases |values|
  {
    if values == [] then existing else Fold(Some(Accumulate(existing, values[0])), values[1..])
  }

  /** Under a key without argument blocks the dictionary holds exactly the fold of its occurrences:
      no other statement, before, between or after, has any effect on it. */
  lemma {:induction false} GetDenoted(stmts: seq<Stmt>, config: Config, key: string)
    requires Denote(stmts, config).Ok? && Unnamed(stmts, key)
    ensures Get(Denote(stmts, config).value, key) == Fold(Get(config, key), Values(stmts, key))
  {
    if stmts != [] {
      var next := DenoteStmt(stmts[0], config).value;
      assert Unnamed(stmts[1..], key);
      GetDenoted(stmts[1..], next, key);
      if stmts[0].key == key {
        assert Get(next, key) == Some(Accumulate(Get(config, key), ValueOf(stmts[0])));
        var values := Values(stmts, key);
        assert values[1..] == Values(stmts[1..], key);
      } else {
        assert Get(next, key) == Get(config, key);
      }
    }
  }

  // ---- the accumulator is lossless, but for one thing ----

  predicate NoStr(values: seq<Raw>) {
    forall i :: 0 <= i < |values| ==> !values[i].Str?
  }

  lemma {:induction false} FoldList(items: seq<Raw>, values: seq<Raw>)
    requires NoStr(items) && NoStr(values)
    ensures Fold(Some(List(items)), values) == Some(List(items + values))
    decreases |values|
  {
    if values == [] {
      assert items + values == items;
    } else {
      assert items == [] || !items[0].Str?;
      assert Accumulate(Some(List(items)), values[0]) == List(items + [values[0]]);
      FoldList(items + [values[0]], values[1..]);
      assert (items + [values[0]]) + values[1..] == items + values;
    }
  }

  /** All occurrences but a leading empty one that is followed by others. */
  function Kept<T(==)>(occurrences: seq<T>, empty: T): seq<T> {
    if |occurrences| > 1 && occurrences[0] == empty then occurrences[1..] else occurrences
  }

  lemma {:induction false} FoldMany(values: seq<Raw>)
    requires NoStr(values) && |values| > 1
    requires values[0].List? ==> AllStr(values[0].items)
    ensures Fold(None, values) == Some(List(Kept(values, List([]))))
  {
    var rest := values[1..];
    var two := Accumulate(Some(values[0]), rest[0]);
    assert Fold(None, values) == Fold(Some(two), rest[1..]);
    if values[0] == List([]) {
      assert two == List([rest[0]]);
      FoldList([rest[0]], rest[1..]);
      assert [rest[0]] + rest[1..] == rest;
    } else {
      assert two == List([values[0], rest[0]]);
      FoldList([values[0], rest[0]], rest[1..]);
      assert [values[0], rest[0]] + rest[1..] == values;
    }
  }

  function Lists(args: seq<seq<string>>): (values: seq<Raw>)
    ensures |values| == |args| && NoStr(values)
  {
    seq(|args|, i requires 0 <= i < |args| => StrList(args[i]))
  }

  lemma StrListInjective(a: seq<string>, b: seq<string>)
    ensures StrList(a) == StrList(b) ==> a == b
  {
    if StrList(a) == StrList(b) {
      assert |a| == |b| by {
        assert |StrList(a).items| == |StrList(b).items|;
      }
      forall i | 0 <= i < |a| ensures a[i] == b[i] {
        assert StrList(a).items[i] == StrList(b).items[i];
      }
    }
  }

  /** The occurrences that have arguments. */
  function Filled(args: seq<seq<string>>): seq<seq<string>> {
    if args == [] then [] else (if args[0] == [] then [] else [args[0]]) + Filled(args[1..])
  }

  lemma {:induction false} FilledKept(args: seq<seq<string>>)
    ensures Filled(Kept(args, [])) == Filled(args)
  {
  }

  lemma AccumulatorReads(args: seq<seq<string>>)
    ensures DirectiveValues(Fold(None, Lists(args))) == Ok(Lists(Kept(args, [])))
  {
    var values := Lists(args);
    if |args| == 0 {
      assert Fold(None, values) == None;
    } else if |args| == 1 {
      assert values == [StrList(args[0])];
      assert Fold(None, values) == Some(values[0]);
    } else {
      assert StrList([]) == List([]);
      StrListInjective(args[0], []);
      FoldMany(values);
      assert Kept(values, List([])) == Lists(Kept(args, []));
      assert !Kept(values, List([]))[0].Str?;
    }
  }

  /** Reading back any run of occurrences gives all of them in order, except that
      a leading empty argument list is forgotten as soon as it is followed by another.
      So every occurrence that has arguments survives, in source order. */
  lemma {:induction false} AccumulatorExact(args: seq<seq<string>>)
    ensures DirectiveValues(Fold(None, Lists(args))) == Ok(Lists(Kept(args, [])))
    ensures DirectiveValues(Fold(None, Lists(args))) == Ok(Lists(args)) <==> !(|args| > 1 && args[0] == [])
    ensures Filled(Kept(args, [])) == Filled(args)
  {
    AccumulatorReads(args);
    FilledKept(args);
    assert |Lists(Kept(args, []))| == |Kept(args, [])|;
  }

  /** Not lossless in general: `root; root x;` is read back as `root x;` alone. */
  lemma {:induction false} LeadingEmptyIsLost()
    ensures DirectiveValues(Fold(None, Lists([[], ["x"]]))) == Ok(Lists([["x"]]))
    ensures FirstArg(Fold(None, Lists([[], ["x"]])), "html") == Ok("x")
    ensures FirstArg(Fold(None, Lists([[]])), "html") == Ok("html")
  {
    AccumulatorExact([[], ["x"]]);
    AccumulatorExact([[]]);
    assert [[], ["x"]][1..] == [["x"]];
    assert StrList(["x"]).items == [Str("x")];
  }

  // ---- typed meanings, straight from the tree ----

  /** Every statement under the key is a simple directive. */
  predicate Simple(stmts: seq<Stmt>, key: string) {
    forall i :: 0 <= i < |stmts| && stmts[i].key == key ==> stmts[i].Directive?
  }

  function MeantListens(args: seq<seq<string>>, toInt: ToInt): Result<seq<ListenDirective>, ConfigError> {
    if args == [] then Ok([])
    else if args[0] == [] then MeantListens(args[1..], toInt)
    else
      match toInt(args[0][0])
      case None => Err(BadPort(args[0][0]))
      case Some(port) => Prefixed([ListenDirective(port := port, ssl := "ssl" in args[0][1..])],
                                  MeantListens(args[1..], toInt))
  }

  /** The listeners of a server body in source order, or the default one. */
  function MeantListensOrDefault(body: seq<Stmt>, toInt: ToInt): Result<seq<ListenDirective>, ConfigError> {
    match MeantListens(ArgLists(body, "listen"), toInt)
    case Err(e) => Err(e)
    case Ok(listens) => Ok(if listens == [] then [ListenDirective(port := 8080, ssl := false)] else listens)
  }

  function FirstText(args: seq<seq<string>>, default: string): string {
    if args == [] || args[0] == [] then default else args[0][0]
  }

  /** A single-valued directive. */
  function MeantFirst(body: seq<Stmt>, key: string, default: string): string {
    FirstText(Kept(ArgLists(body, key), []), default)
  }

  function MeantFirstArgs(args: seq<seq<string>>): seq<string> {
    if args == [] then [] else (if args[0] == [] then [] else [args[0][0]]) + MeantFirstArgs(args[1..])
  }

  /** Later locations replace earlier ones of the same path. */
  function MeantLocations(body: seq<Stmt>, before: map<string, LocationConfig>): map<string, LocationConfig> {
    if body == [] then before
    else if body[0].key == "location" && IsNamed(body[0]) then
      var path := body[0].name.value.text;
      MeantLocations(body[1..],
                     before[path := LocationConfig(path := path, root := MeantFirst(body[0].body, "root", "html"))])
    else MeantLocations(body[1..], before)
  }

  /** Certificate, key and chain, each from its own directive; the first two only together. */
  function MeantTls(body: seq<Stmt>): Result<Option<TLSConfig>, ConfigError> {
    var certificate := MeantFirst(body, "ssl_certificate", "");
    var key := MeantFirst(body, "ssl_certificate_key", "");
    if certificate == "" && key == "" then Ok(None)
    else if certificate == "" || key == "" then Err(UnpairedTls)
    else
      Ok(Some(TLSConfig(certificatePath := certificate, privateKeyPath := key,
                        chainPaths := MeantFirstArgs(ArgLists(body, "ssl_certificate_chain")))))
  }

  function MeantServer(body: seq<Stmt>, toInt: ToInt): Result<ServerBlock, ConfigError> {
    match MeantListensOrDefault(body, toInt)
    case Err(e) => Err(e)
    case Ok(listens) =>
      var locations := MeantLocations(body, map[]);
      match MeantTls(body)
      case Err(e) => Err(e)
      case Ok(tls) =>
        Ok(ServerBlock(
             listens := listens,
             serverName := MeantFirst(body, "server_name", "localhost"),
             locations := if locations == map[] then map["/" := LocationConfig(path := "/", root := "html")]
                 else locations,
             tls := tls))
  }

  /** The servers of an http block in source order, up to the first bad one. */
  function MeantServers(http: seq<Stmt>, toInt: ToInt): Result<seq<ServerBlock>, ConfigError> {
    if http == [] then Ok([])
    else if http[0].key != "server" || http[0].Directive? then MeantServers(http[1..], toInt)
    else
      match MeantServer(http[0].body, toInt)
      case Err(e) => Err(e)
      case Ok(server) => Prefixed([server], MeantServers(http[1..], toInt))
  }

  /** A configuration that uses each key for one kind of statement. */
  predicate ConventionalServer(body: seq<Stmt>) {
    && Simple(body, "listen") && Simple(body, "server_name") && Simple(body, "ssl_certificate")
    && Simple(body, "ssl_certificate_key") && Simple(body, "ssl_certificate_chain")
    && forall i :: 0 <= i < |body| && body[i].key == "location" ==> IsNamed(body[i]) && Simple(body[i].body, "root")
  }

  predicate ConventionalHttp(http: seq<Stmt>) {
    forall i :: 0 <= i < |http| && http[i].key == "server" ==>
      http[i].Block? && http[i].name.None? && ConventionalServer(http[i].body)
  }

  predicate Conventional(stmts: seq<Stmt>, at: nat) {
    && at < |stmts| && stmts[at].key == "http" && stmts[at].Block? && stmts[at].name.None?
    && (forall i :: 0 <= i < |stmts| && i != at ==> stmts[i].key != "http")
    && ConventionalHttp(stmts[at].body)
  }

  // ---- the dictionary means what the tree means ----

  lemma {:induction false} SimpleValues(stmts: seq<Stmt>, key: string)
    requires Simple(stmts, key)
    ensures Unnamed(stmts, key) && Values(stmts, key) == Lists(ArgLists(stmts, key))
  {
    if stmts != [] {
      assert Simple(stmts[1..], key);
      SimpleValues(stmts[1..], key);
    }
  }

  /** The typed reading of a key of simple directives starts from its kept argument lists. */
  lemma {:induction false} ReadBack(body: seq<Stmt>, config: Config, key: string)
    requires Denote(body, map[]) == Ok(config) && Simple(body, key)
    ensures DirectiveValues(Get(config, key)) == Ok(Lists(Kept(ArgLists(body, key), [])))
  {
    SimpleValues(body, key);
    GetDenoted(body, map[], key);
    AccumulatorExact(ArgLists(body, key));
  }

  lemma {:induction false} ValuesShaped(stmts: seq<Stmt>, key: string)
    requires Unnamed(stmts, key)
    ensures forall i :: 0 <= i < |Values(stmts, key)| ==>
      Values(stmts, key)[i].Dict? || (Values(stmts, key)[i].List? && AllStr(Values(stmts, key)[i].items))
  {
    if stmts != [] {
      assert Unnamed(stmts[1..], key);
      ValuesShaped(stmts[1..], key);
    }
  }

  /** Reading back a key that has directives and unnamed blocks in any order: one block alone is a
      TypeError; otherwise every occurrence comes back, in order, but for a leading empty directive
      that others follow. */
  lemma {:induction false} MixedReadBack(body: seq<Stmt>, config: Config, key: string)
    requires Denote(body, map[]) == Ok(config) && Unnamed(body, key)
    ensures var values := Values(body, key);
      DirectiveValues(Get(config, key)) ==
        if |values| == 1 && values[0].Dict? then Err(NotArguments) else Ok(Kept(values, List([])))
  {
    var values := Values(body, key);
    GetDenoted(body, map[], key);
    ValuesShaped(body, key);
    if |values| == 0 {
      assert Fold(None, values) == None;
    } else if |values| == 1 {
      assert Fold(None, values) == Some(values[0]) && values == [values[0]];
    } else {
      FoldMany(values);
      assert !Kept(values, List([]))[0].Str?;
    }
  }

  lemma FirstOfList(args: seq<string>)
    ensures FirstOf(StrList(args)) == Ok(if args == [] then None else Some(args[0]))
  {
  }

  lemma {:induction false} FirstMeans(body: seq<Stmt>, config: Config, key: string, default: string)
    requires Denote(body, map[]) == Ok(config) && Simple(body, key)
    ensures FirstArg(Get(config, key), default) == Ok(MeantFirst(body, key, default))
  {
    ReadBack(body, config, key);
    var kept := Kept(ArgLists(body, key), []);
    if kept != [] {
      FirstOfList(kept[0]);
    }
  }

  /** And with unnamed blocks among the occurrences: a block that is not empty where the
      argument is read is an error, an empty one reads like a directive without arguments. */
  lemma {:induction false} FirstMixed(body: seq<Stmt>, config: Config, key: string, default: string)
    requires Denote(body, map[]) == Ok(config) && Unnamed(body, key)
    ensures var values := Values(body, key);
      var kept := Kept(values, List([]));
      FirstArg(Get(config, key), default) ==
        if kept == [] then Ok(default)
        else if kept[0].Dict? && (|values| == 1 || kept[0].entries != map[]) then Err(NotArguments)
        else if kept[0] == Dict(map[]) || kept[0] == List([]) then Ok(default)
        else if kept[0].List? && kept[0].items[0].Str? then Ok(kept[0].items[0].text)
        else Err(NotArguments)
  {
    MixedReadBack(body, config, key);
    ValuesShaped(body, key);
  }

  lemma SslFlag(args: seq<string>)
    requires args != []
    ensures Str("ssl") in StrList(args).items[1..] <==> "ssl" in args[1..]
  {
    var items := StrList(args).items[1..];
    if "ssl" in args[1..] {
      var i :| 0 <= i < |args[1..]| && args[1..][i] == "ssl";
      assert items[i] == Str("ssl");
    }
  }

  lemma {:induction false} ListensMean(args: seq<seq<string>>, toInt: ToInt)
    ensures ListensOf(Lists(args), toInt) == MeantListens(args, toInt)
  {
    if args != [] {
      assert Lists(args)[1..] == Lists(args[1..]);
      ListensMean(args[1..], toInt);
      FirstOfList(args[0]);
      if args[0] != [] {
        SslFlag(args[0]);
      } else {
        PrefixedTwice([], [], MeantListens(args[1..], toInt));
      }
    }
  }

  /** The listeners of a denoted server body are exactly those written in it, in source order. */
  lemma {:induction false} ListensMatchSource(body: seq<Stmt>, config: Config, toInt: ToInt)
    requires Denote(body, map[]) == Ok(config) && Simple(body, "listen")
    ensures Listens(Get(config, "listen"), toInt) == MeantListensOrDefault(body, toInt)
  {
    var args := ArgLists(body, "listen");
    ReadBack(body, config, "listen");
    ListensMean(Kept(args, []), toInt);
  }

  lemma {:induction false} FirstArgsMean(args: seq<seq<string>>)
    ensures FirstArgs(Lists(args)) == Ok(MeantFirstArgs(args))
  {
    if args != [] {
      assert Lists(args)[1..] == Lists(args[1..]);
      FirstArgsMean(args[1..]);
      FirstOfList(args[0]);
      assert [] + MeantFirstArgs(args[1..]) == MeantFirstArgs(args[1..]);
    }
  }

  lemma {:induction false} TlsMeans(body: seq<Stmt>, config: Config)
    requires Denote(body, map[]) == Ok(config)
    requires Simple(body, "ssl_certificate") && Simple(body, "ssl_certificate_key")
        && Simple(body, "ssl_certificate_chain")
    ensures Tls(config) == MeantTls(body)
  {
    FirstMeans(body, config, "ssl_certificate", "");
    FirstMeans(body, config, "ssl_certificate_key", "");
    ReadBack(body, config, "ssl_certificate_chain");
    var chain := ArgLists(body, "ssl_certificate_chain");
    FirstArgsMean(Kept(chain, []));
    assert MeantFirstArgs(Kept(chain, [])) == MeantFirstArgs(chain);
  }

  /** What that is, in the fields of the result: nothing without either path, an error with one
      of them, and otherwise each path where it belongs. */
  lemma {:induction false} TlsExactly(body: seq<Stmt>, config: Config)
    requires Denote(body, map[]) == Ok(config)
    requires Simple(body, "ssl_certificate") && Simple(body, "ssl_certificate_key")
        && Simple(body, "ssl_certificate_chain")
    ensures var certificate := MeantFirst(body, "ssl_certificate", "");
      var key := MeantFirst(body, "ssl_certificate_key", "");
      && (Tls(config) == Ok(None) <==> certificate == "" && key == "")
      && (Tls(config) == Err(UnpairedTls) <==> (certificate == "") != (key == ""))
      && (certificate != "" && key != "" ==>
            && Tls(config).Ok? && Tls(config).value.Some?
            && Tls(config).value.value.certificatePath == certificate
            && Tls(config).value.value.privateKeyPath == key
            && Tls(config).value.value.chainPaths == MeantFirstArgs(ArgLists(body, "ssl_certificate_chain")))
  {
    TlsMeans(body, config);
  }

  // ---- locations ----

  predicate LocationsOk(body: seq<Stmt>) {
    forall i :: 0 <= i < |body| && body[i].key == "location" ==> IsNamed(body[i]) && Simple(body[i].body, "root")
  }

  /** The dictionary under "location" while a body is being denoted. */
  ghost predicate Mapped(config: Config, locations: map<string, LocationConfig>) {
    match Get(config, "location")
    case None => locations == map[]
    case Some(Dict(entries)) =>
      entries != map[] && RootsReadable(entries) && LocationMap(entries) == locations && locations.Keys == entries.Keys
    case Some(_) => false
  }

  lemma {:induction false} NamedStep(s: Stmt, config: Config, locations: map<string, LocationConfig>)
    requires s.key == "location" && IsNamed(s) && Simple(s.body, "root") && Mapped(config, locations)
    requires DenoteStmt(s, config).Ok?
    ensures var path := s.name.value.text;
      Mapped(DenoteStmt(s, config).value, locations[path := LocationConfig(path, MeantFirst(s.body, "root", "html"))])
  {
    var path := s.name.value.text;
    var nested := Denote(s.body, map[]).value;
    FirstMeans(s.body, nested, "root", "html");
    var entries: Config := if "location" in config then config["location"].entries else map[];
    var longer := entries[path := Dict(nested)];
    assert Get(DenoteStmt(s, config).value, "location") == Some(Dict(longer));
    assert path in longer;
  }

  lemma {:induction false} LocationsMean(body: seq<Stmt>, config: Config, locations: map<string, LocationConfig>)
    requires LocationsOk(body) && Mapped(config, locations) && Denote(body, config).Ok?
    ensures Mapped(Denote(body, config).value, MeantLocations(body, locations))
  {
    if body != [] {
      var s := body[0];
      var next := DenoteStmt(s, config).value;
      assert LocationsOk(body[1..]);
      if s.key == "location" {
        NamedStep(s, config, locations);
        var path := s.name.value.text;
        LocationsMean(body[1..], next, locations[path := LocationConfig(path, MeantFirst(s.body, "root", "html"))]);
      } else {
        assert Get(next, "location") == Get(config, "location");
        LocationsMean(body[1..], next, locations);
      }
    }
  }

  lemma {:induction false} ServerMeans(body: seq<Stmt>, config: Config, toInt: ToInt)
    requires Denote(body, map[]) == Ok(config) && ConventionalServer(body)
    ensures ServerOf(config, toInt) == MeantServer(body, toInt)
  {
    ListensMatchSource(body, config, toInt);
    FirstMeans(body, config, "server_name", "localhost");
    LocationsMean(body, map[], map[]);
    TlsMeans(body, config);
  }

  // ---- servers ----

  /** Unnamed server blocks come back one for one, in source order. */
  lemma {:induction false} ServerItemsExact(values: seq<Raw>)
    requires forall i :: 0 <= i < |values| ==> values[i].Dict?
    ensures ServerItems(Fold(None, values)) == values
  {
    if |values| == 0 {
      assert Fold(None, values) == None;
    } else if |values| == 1 {
      assert Fold(None, values) == Some(values[0]);
      assert values == [values[0]];
    } else {
      FoldMany(values);
    }
  }

  lemma {:induction false} ServersMean(http: seq<Stmt>, config: Config, toInt: ToInt)
    requires ConventionalHttp(http) && Denote(http, config).Ok?
    ensures Unnamed(http, "server")
    ensures forall i :: 0 <= i < |Values(http, "server")| ==> Values(http, "server")[i].Dict?
    ensures ServersOf(Values(http, "server"), toInt) == MeantServers(http, toInt)
  {
    if http != [] {
      var s := http[0];
      var tail := http[1..];
      assert ConventionalHttp(tail);
      ServersMean(tail, DenoteStmt(s, config).value, toInt);
      if s.key == "server" {
        assert ConventionalServer(s.body);
        ServerMeans(s.body, Denote(s.body, map[]).value, toInt);
        assert Values(http, "server")[1..] == Values(tail, "server");
      }
    }
  }

  lemma {:induction false} OneValue(stmts: seq<Stmt>, at: nat, key: string)
    requires at < |stmts| && stmts[at].key == key && !IsNamed(stmts[at])
    requires forall i :: 0 <= i < |stmts| && i != at ==> stmts[i].key != key
    ensures Unnamed(stmts, key) && Values(stmts, key) == [ValueOf(stmts[at])]
  {
    if at == 0 {
      NoValue(stmts[1..], key);
    } else {
      OneValue(stmts[1..], at - 1, key);
    }
  }

  lemma {:induction false} NoValue(stmts: seq<Stmt>, key: string)
    requires forall i :: 0 <= i < |stmts| ==> stmts[i].key != key
    ensures Unnamed(stmts, key) && Values(stmts, key) == []
  {
    if stmts != [] {
      NoValue(stmts[1..], key);
    }
  }

  /** A denoted part: blocks inside a denoted tree denote. */
  lemma {:induction false} PartDenotes(stmts: seq<Stmt>, config: Config, at: nat)
    requires Denote(stmts, config).Ok? && at < |stmts| && stmts[at].Block?
    ensures Denote(stmts[at].body, map[]).Ok?
  {
    if at > 0 {
      PartDenotes(stmts[1..], DenoteStmt(stmts[0], config).value, at - 1);
    }
  }

  /** The typed reading of a denoted tree is the tree's own meaning. */
  lemma {:induction false} DictionaryMeans(stmts: seq<Stmt>, config: Config, at: nat, toInt: ToInt)
    requires Denote(stmts, map[]) == Ok(config) && Conventional(stmts, at)
    ensures Servers(config, toInt) ==
      if MeantServers(stmts[at].body, toInt) == Ok([]) then Err(NoServer) else MeantServers(stmts[at].body, toInt)
  {
    var http := stmts[at].body;
    PartDenotes(stmts, map[], at);
    OneValue(stmts, at, "http");
    GetDenoted(stmts, map[], "http");
    var inner := Denote(http, map[]).value;
    assert Fold(None, [Dict(inner)]) == Some(Dict(inner));
    assert Get(config, "http") == Some(Dict(inner));
    ServersMean(http, map[], toInt);
    GetDenoted(http, map[], "server");
    ServerItemsExact(Values(http, "server"));
  }

  /** The items that are blocks. */
  function Blocks(items: seq<Raw>): seq<Raw> {
    if items == [] then [] else (if items[0].Dict? then [items[0]] else []) + Blocks(items[1..])
  }

  /** `server` directives among the server blocks are passed over. */
  lemma {:induction false} DirectivesArePassedOver(items: seq<Raw>, toInt: ToInt)
    ensures ServersOf(items, toInt) == ServersOf(Blocks(items), toInt)
  {
    if items != [] {
      DirectivesArePassedOver(items[1..], toInt);
      if items[0].Dict? {
        assert ([items[0]] + Blocks(items[1..]))[1..] == Blocks(items[1..]);
      } else {
        assert [] + Blocks(items[1..]) == Blocks(items[1..]);
      }
    }
  }

  /** The items that are not empty blocks. */
  function NonEmptyBlocks(items: seq<Raw>): seq<Raw> {
    if items == [] then []
    else (if items[0] == Dict(map[]) then [] else [items[0]]) + NonEmptyBlocks(items[1..])
  }

  /** An empty block where arguments are expected is passed over like a directive without any. */
  lemma {:induction false} EmptyBlocksArePassedOver(items: seq<Raw>, toInt: ToInt)
    ensures ListensOf(items, toInt) == ListensOf(NonEmptyBlocks(items), toInt)
    ensures FirstArgs(items) == FirstArgs(NonEmptyBlocks(items))
  {
    if items != [] {
      EmptyBlocksArePassedOver(items[1..], toInt);
      if items[0] == Dict(map[]) {
        PrefixedTwice([], [], ListensOf(items[1..], toInt));
        assert [] + NonEmptyBlocks(items[1..]) == NonEmptyBlocks(items[1..]);
      } else {
        assert ([items[0]] + NonEmptyBlocks(items[1..]))[1..] == NonEmptyBlocks(items[1..]);
      }
    }
  }

  /** A block that is not empty is an error there, unless one came before it. */
  lemma {:induction false} FullBlockFails(items: seq<Raw>, at: nat, toInt: ToInt)
    requires at < |items| && items[at].Dict? && items[at].entries != map[]
    ensures ListensOf(items[..at], toInt).Ok? ==> ListensOf(items, toInt) == Err(NotArguments)
    ensures FirstArgs(items[..at]).Ok? ==> FirstArgs(items) == Err(NotArguments)
  {
    if at > 0 {
      assert items[..at][0] == items[0] && items[..at][1..] == items[1..][..at - 1];
      FullBlockFails(items[1..], at - 1, toInt);
    }
  }

  /** Without a location there is the default one; with `location` as a directive there is none. */
  lemma {:induction false} LocationsWithoutBlocks(body: seq<Stmt>, config: Config)
    requires Denote(body, map[]) == Ok(config)
    ensures (forall i :: 0 <= i < |body| ==> body[i].key != "location") ==>
      Locations(Get(config, "location")) == Ok(map["/" := LocationConfig(path := "/", root := "html")])
    ensures ArgLists(body, "location") != [] && Simple(body, "location") ==>
      Locations(Get(config, "location")) == Ok(map[])
  {
    if forall i :: 0 <= i < |body| ==> body[i].key != "location" {
      NoValue(body, "location");
      GetDenoted(body, map[], "location");
    }
    if ArgLists(body, "location") != [] && Simple(body, "location") {
      SimpleValues(body, "location");
      GetDenoted(body, map[], "location");
      var values := Lists(ArgLists(body, "location"));
      if |values| == 1 {
        assert Fold(None, values) == Some(values[0]);
      } else {
        FoldMany(values);
      }
    }
  }

  // ---- load_config ----

  datatype LoadError = BadCharacter(at: nat) | BadSyntax(syntax: SyntaxError) | BadConfig(config: ConfigError)

  function Load(text: string, toInt: ToInt): Result<seq<ServerBlock>, LoadError> {
    match Lex(text)
    case Err(left) =>
      LexErrBound(text);
      Err(BadCharacter(|text| - left))
    case Ok(tokens) =>
      match ParseBlock(tokens, map[])
      case Err(e) => Err(BadSyntax(e))
      case Ok((raw, _)) =>
        match Servers(raw, toInt)
        case Err(e) => Err(BadConfig(e))
        case Ok(servers) => Ok(servers)
  }

  /** load_config, on the text of the file. */
  method LoadConfig(text: string, toInt: ToInt) returns (r: Result<seq<ServerBlock>, LoadError>)
    ensures r == Load(text, toInt)
  {
    var lexer := new ConfigLexer(text);
    var tokens := lexer.Tokenize();
    if tokens.Err? {
      return Err(BadCharacter(tokens.error));
    }
    var parser := new ConfigParser(tokens.value);
    var raw := parser.Parse();
    if raw.Err? {
      return Err(BadSyntax(raw.error));
    }
    var servers := ParseConfigDict(raw.value, toInt);
    if servers.Err? {
      return Err(BadConfig(servers.error));
    }
    return Ok(servers.value);
  }

  /** A bad character is reported where it stands: the text before it lexes, and no alternative of
      the pattern matches there. A text that does not lex is refused in this way and in no other. */
  lemma {:induction false} BadCharacterThere(text: string, toInt: ToInt)
    ensures var r := Load(text, toInt);
      && (r.Err? && r.error.BadCharacter? <==> Lex(text).Err?)
      && (r.Err? && r.error.BadCharacter? ==>
            var at := r.error.at;
            at < |text| && Lex(text[..at]).Ok? && MatchAt(text[at..]).None?)
  {
    if Lex(text).Err? {
      LexErrBound(text);
      LexFailsThere(text, |text| - Lex(text).error);
      LexesBefore(text, |text| - Lex(text).error);
    }
  }

  /** End to end: a well-kinded, conventional tree, written with any layout and any comments,
      loads as exactly the servers written in it, in source order. */
  lemma {:induction false} LoadPrinted(stmts: seq<Stmt>, at: nat, f: Source, toInt: ToInt)
    requires WellKinded(stmts) && Conventional(stmts, at)
    requires SourceOk(f) && Bare(f.tokens) == Tokens(stmts)
    ensures Load(PrintSource(f), toInt) ==
      match MeantServers(stmts[at].body, toInt)
      case Err(e) => Err(BadConfig(e))
      case Ok(servers) => if servers == [] then Err(BadConfig(NoServer)) else Ok(servers)
  {
    LexPrinted(f);
    DenotesIff(stmts);
    ParseWhole(stmts, map[]);
    DictionaryMeans(stmts, Denote(stmts, map[]).value, at, toInt);
  }

  /** The only statement of its key. */
  predicate Alone(stmts: seq<Stmt>, at: nat, key: string) {
    at < |stmts| && stmts[at].key == key && forall i :: 0 <= i < |stmts| && i != at ==> stmts[i].key != key
  }

  /** Without an http block nothing is loaded: no `http` at all means no server, and one that
      is a directive is not a block. */
  lemma {:induction false} LoadWithoutHttp(stmts: seq<Stmt>, f: Source, toInt: ToInt)
    requires WellKinded(stmts) && SourceOk(f) && Bare(f.tokens) == Tokens(stmts)
    ensures (forall i :: 0 <= i < |stmts| ==> stmts[i].key != "http") ==>
      Load(PrintSource(f), toInt) == Err(BadConfig(NoServer))
    ensures forall at: nat :: Alone(stmts, at, "http") && stmts[at].Directive? ==>
      Load(PrintSource(f), toInt) == Err(BadConfig(NoHttpBlock))
  {
    LexPrinted(f);
    DenotesIff(stmts);
    ParseWhole(stmts, map[]);
    var config := Denote(stmts, map[]).value;
    if forall i :: 0 <= i < |stmts| ==> stmts[i].key != "http" {
      NoValue(stmts, "http");
      GetDenoted(stmts, map[], "http");
    }
    forall at: nat | Alone(stmts, at, "http") && stmts[at].Directive?
      ensures Servers(config, toInt) == Err(NoHttpBlock)
    {
      OneValue(stmts, at, "http");
      GetDenoted(stmts, map[], "http");
      assert Fold(None, [ValueOf(stmts[at])]) == Some(ValueOf(stmts[at]));
    }
  }

  /** And a tree is refused, whatever stands in it otherwise, if and only if it is not
      well-kinded: then with a SyntaxError that names the key. */
  lemma {:induction false} LoadRefused(stmts: seq<Stmt>, f: Source, toInt: ToInt)
    requires SourceOk(f) && Bare(f.tokens) == Tokens(stmts)
    ensures Load(PrintSource(f), toInt).Err? && Load(PrintSource(f), toInt).error.BadSyntax? <==> !WellKinded(stmts)
    ensures !WellKinded(stmts) ==>
      exists key :: Load(PrintSource(f), toInt) == Err(BadSyntax(NotABlock(key)))
  {
    LexPrinted(f);
    DenotesIff(stmts);
    ParseWhole(stmts, map[]);
    if !WellKinded(stmts) {
      RefusalNames(stmts, map[]);
    }
  }

  lemma {:induction false} RefusalNames(stmts: seq<Stmt>, config: Config)
    requires Denote(stmts, config).Err?
    ensures Denote(stmts, config).error.NotABlock?
    decreases stmts, 0
  {
    var s := stmts[0];
    if DenoteStmt(s, config).Err? {
      if s.Block? && Denote(s.body, map[]).Err? {
        RefusalNames(s.body, map[]);
      }
    } else {
      RefusalNames(stmts[1..], DenoteStmt(s, config).value);
    }
  }
}
