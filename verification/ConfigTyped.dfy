/** From the raw dictionary to typed server blocks
    (parse_config_dict and its helpers in tls_web_server/config.py). */
module Typed {
  import opened Wire
  import opened Lexer
  import opened Parser

  datatype ListenDirective = ListenDirective(port: int, ssl: bool)

  datatype LocationConfig = LocationConfig(path: string, root: string)

  datatype TLSConfig = TLSConfig(certificatePath: string, privateKeyPath: string, chainPaths: seq<string>)

  datatype ServerBlock = ServerBlock(
    listens: seq<ListenDirective>,
    serverName: string,
    locations: map<string, LocationConfig>,
    tls: Option<TLSConfig>)

  /** NotArguments stands for the TypeError and the KeyError of a block where arguments are expected. */
  datatype ConfigError = NoHttpBlock | NoServer | BadPort(text: string) | NotArguments | UnpairedTls

  /** int() on a string. */
  type ToInt = string -> Option<int>

  /** A failure that comes later wins over what was collected so far. */
  function Prefixed<T>(done: seq<T>, later: Result<seq<T>, ConfigError>): Result<seq<T>, ConfigError> {
    match later case Err(e) => Err(e) case Ok(more) => Ok(done + more)
  }

  lemma PrefixedTwice<T>(a: seq<T>, b: seq<T>, later: Result<seq<T>, ConfigError>)
    ensures Prefixed(a, Prefixed(b, later)) == Prefixed(a + b, later)
    ensures Prefixed([], later) == later
  {
    if later.Ok? {
      ConcatAssoc(a, b, later.value);
      assert [] + later.value == later.value;
    }
  }

  // ---- reading directives back ----

  /** _directive_values. */
  function DirectiveValues(raw: Option<Raw>): Result<seq<Raw>, ConfigError> {
    match raw
    case None => Ok([])
    case Some(List(items)) => if AllStr(items) then Ok([List(items)]) else Ok(items)
    case Some(_) => Err(NotArguments)
  }

  /** args[0] of one occurrence, or None for an occurrence without arguments. */
  function FirstOf(args: Raw): Result<Option<string>, ConfigError> {
    match args
    case List(items) =>
      if items == [] then Ok(None) else if items[0].Str? then Ok(Some(items[0].text)) else Err(NotArguments)
    case Dict(entries) => if entries == map[] then Ok(None) else Err(NotArguments)
    case Str(_) => Err(NotArguments)
  }

  /** _first_arg. */
  function FirstArg(raw: Option<Raw>, default: string): Result<string, ConfigError> {
    match DirectiveValues(raw)
    case Err(e) => Err(e)
    case Ok(values) =>
      if values == [] then Ok(default)
      else
        match FirstOf(values[0])
        case Err(e) => Err(e)
        case Ok(None) => Ok(default)
        case Ok(Some(text)) => Ok(text)
  }

  /** One iteration of _parse_listen. */
  function ListenOf(args: Raw, toInt: ToInt): Result<seq<ListenDirective>, ConfigError> {
    match FirstOf(args)
    case Err(e) => Err(e)
    case Ok(None) => Ok([])
    case Ok(Some(text)) =>
      match toInt(text)
      case None => Err(BadPort(text))
      case Some(port) => Ok([ListenDirective(port, Str("ssl") in args.items[1..])])
  }

  function ListensOf(values: seq<Raw>, toInt: ToInt): Result<seq<ListenDirective>, ConfigError> {
    if values == [] then Ok([])
    else
      match ListenOf(values[0], toInt)
      case Err(e) => Err(e)
      case Ok(one) => Prefixed(one, ListensOf(values[1..], toInt))
  }

  const DEFAULT_LISTEN := ListenDirective(8080, false)

  function Listens(raw: Option<Raw>, toInt: ToInt): Result<seq<ListenDirective>, ConfigError> {
    match DirectiveValues(raw)
    case Err(e) => Err(e)
    case Ok(values) =>
      match ListensOf(values, toInt)
      case Err(e) => Err(e)
      case Ok(listens) => Ok(if listens == [] then [DEFAULT_LISTEN] else listens)
  }

  /** _parse_listen. */
  method ParseListen(raw: Option<Raw>, toInt: ToInt) returns (r: Result<seq<ListenDirective>, ConfigError>)
    ensures r == Listens(raw, toInt)
  {
    var values := DirectiveValues(raw);
    if values.Err? {
      return Err(values.error);
    }
    var listens: seq<ListenDirective> := [];
    var i := 0;
    PrefixedTwice(listens, [], ListensOf(values.value, toInt));
    while i < |values.value|
      invariant 0 <= i <= |values.value|
      invariant ListensOf(values.value, toInt) == Prefixed(listens, ListensOf(values.value[i..], toInt))
    {
      var one := ListenOf(values.value[i], toInt);
      assert values.value[i..][1..] == values.value[i + 1..];
      if one.Err? {
        return Err(one.error);
      }
      PrefixedTwice(listens, one.value, ListensOf(values.value[i + 1..], toInt));
      listens := listens + one.value;
      i := i + 1;
    }
    assert listens + [] == listens;
    return Ok(if listens == [] then [DEFAULT_LISTEN] else listens);
  }

  const DEFAULT_LOCATIONS := map["/" := LocationConfig("/", "html")]

  predicate RootsReadable(entries: Config) {
    forall path :: path in entries && entries[path].Dict? ==> FirstArg(Get(entries[path].entries, "root"), "html").Ok?
  }

  function LocationMap(entries: Config): map<string, LocationConfig>
    requires RootsReadable(entries)
  {
    map path | path in entries && entries[path].Dict? ::
      LocationConfig(path, FirstArg(Get(entries[path].entries, "root"), "html").value)
  }

  /** _parse_locations. */
  function Locations(raw: Option<Raw>): Result<map<string, LocationConfig>, ConfigError> {
    match raw
    case None => Ok(DEFAULT_LOCATIONS)
    case Some(Dict(entries)) =>
      if !RootsReadable(entries) then Err(NotArguments)
      else Ok(if LocationMap(entries) == map[] then DEFAULT_LOCATIONS else LocationMap(entries))
    case Some(_) => Ok(map[])
  }

  /** The first arguments of the occurrences that have one. */
  function FirstArgs(values: seq<Raw>): Result<seq<string>, ConfigError> {
    if values == [] then Ok([])
    else
      match FirstOf(values[0])
      case Err(e) => Err(e)
      case Ok(None) => FirstArgs(values[1..])
      case Ok(Some(text)) => Prefixed([text], FirstArgs(values[1..]))
  }

  function PairedTls(cert: string, key: string, chain: Result<seq<string>, ConfigError>)
    : Result<Option<TLSConfig>, ConfigError>
  {
    if cert == "" && key == "" then Ok(None)
    else if cert == "" || key == "" then Err(UnpairedTls)
    else match chain case Err(e) => Err(e) case Ok(paths) => Ok(Some(TLSConfig(cert, key, paths)))
  }

  /** _parse_tls. */
  function Tls(server: Config): Result<Option<TLSConfig>, ConfigError> {
    match FirstArg(Get(server, "ssl_certificate"), "")
    case Err(e) => Err(e)
    case Ok(cert) =>
      match FirstArg(Get(server, "ssl_certificate_key"), "")
      case Err(e) => Err(e)
      case Ok(key) =>
        PairedTls(cert, key, match DirectiveValues(Get(server, "ssl_certificate_chain"))
                             case Err(e) => Err(e)
                             case Ok(values) => FirstArgs(values))
  }

  /** The body of the loop of parse_config_dict. */
  function ServerOf(server: Config, toInt: ToInt): Result<ServerBlock, ConfigError> {
    match Listens(Get(server, "listen"), toInt)
    case Err(e) => Err(e)
    case Ok(listens) =>
      match FirstArg(Get(server, "server_name"), "localhost")
      case Err(e) => Err(e)
      case Ok(name) =>
        match Locations(Get(server, "location"))
        case Err(e) => Err(e)
        case Ok(locations) =>
          match Tls(server)
          case Err(e) => Err(e)
          case Ok(tls) => Ok(ServerBlock(listens, name, locations, tls))
  }

  function ServersOf(items: seq<Raw>, toInt: ToInt): Result<seq<ServerBlock>, ConfigError> {
    if items == [] then Ok([])
    else if !items[0].Dict? then ServersOf(items[1..], toInt)
    else
      match ServerOf(items[0].entries, toInt)
      case Err(e) => Err(e)
      case Ok(server) => Prefixed([server], ServersOf(items[1..], toInt))
  }

  /** One block is a dict, several are a list of dicts. */
  function ServerItems(raw: Option<Raw>): seq<Raw> {
    match raw
    case Some(List(items)) => items
    case Some(Dict(entries)) => [Dict(entries)]
    case _ => []
  }

  function AtLeastOne(servers: Result<seq<ServerBlock>, ConfigError>): Result<seq<ServerBlock>, ConfigError> {
    if servers == Ok([]) then Err(NoServer) else servers
  }

  function Servers(raw: Config, toInt: ToInt): Result<seq<ServerBlock>, ConfigError> {
    match Get(raw, "http")
    case None => Err(NoServer)
    case Some(Dict(http)) => AtLeastOne(ServersOf(ServerItems(Get(http, "server")), toInt))
    case Some(_) => Err(NoHttpBlock)
  }

  /** parse_config_dict. */
  method ParseConfigDict(raw: Config, toInt: ToInt) returns (r: Result<seq<ServerBlock>, ConfigError>)
    ensures r == Servers(raw, toInt)
  {
    var http: Raw := if "http" in raw then raw["http"] else Dict(map[]);
    if !http.Dict? {
      return Err(NoHttpBlock);
    }
    var items := ServerItems(Get(http.entries, "server"));
    var servers: seq<ServerBlock> := [];
    var i := 0;
    PrefixedTwice(servers, [], ServersOf(items, toInt));
    while i < |items|
      invariant 0 <= i <= |items|
      invariant ServersOf(items, toInt) == Prefixed(servers, ServersOf(items[i..], toInt))
    {
      assert items[i..][1..] == items[i + 1..];
      if items[i].Dict? {
        var server := ServerOf(items[i].entries, toInt);
        if server.Err? {
          return Err(server.error);
        }
        PrefixedTwice(servers, [server.value], ServersOf(items[i + 1..], toInt));
        servers := servers + [server.value];
      }
      i := i + 1;
    }
    assert servers + [] == servers;
    if servers == [] {
      return Err(NoServer);
    }
    return Ok(servers);
  }

  // ---- the shapes the parser builds ----

  /** A dict, one list of arguments, or a list of such lists and dicts. */
  predicate Shaped(raw: Raw) {
    match raw
    case Str(_) => false
    case Dict(entries) => forall key :: key in entries ==> Shaped(entries[key])
    case List(items) => AllStr(items) || forall i :: 0 <= i < |items| ==> ItemShaped(items[i])
  }

  predicate ItemShaped(item: Raw) {
    match item
    case Str(_) => false
    case List(args) => AllStr(args)
    case Dict(entries) => forall key :: key in entries ==> Shaped(entries[key])
  }

  lemma {:induction false} AccumulateShaped(existing: Option<Raw>, value: Raw)
    requires ItemShaped(value) && (existing.Some? ==> Shaped(existing.value))
    ensures Shaped(Accumulate(existing, value))
  {
    match existing
    case Some(List(items)) =>
      if items != [] && AllStr(items) {
        assert ItemShaped(List(items));
      } else if items != [] {
        assert forall i :: 0 <= i < |items| ==> ItemShaped(items[i]);
      }
    case _ =>
  }

  lemma AddBlockShaped(config: Config, key: string, args: seq<string>, nested: Config)
    requires |args| <= 1 && Shaped(Dict(config)) && Shaped(Dict(nested))
    ensures AddBlock(config, key, args, nested).Ok? ==> Shaped(Dict(AddBlock(config, key, args, nested).value))
  {
    if args == [] {
      assert ItemShaped(Dict(nested));
      AccumulateShaped(Get(config, key), Dict(nested));
    } else if key in config && config[key].Dict? {
      assert Shaped(config[key]);
    }
  }

  lemma {:induction false} ParsedShaped(tokens: seq<Token>, config: Config)
    requires Shaped(Dict(config)) && ParseBlock(tokens, config).Ok?
    ensures Shaped(Dict(ParseBlock(tokens, config).value.0))
    decreases |tokens|
  {
    if tokens != [] && tokens[0].kind == Word {
      StatementShaped(tokens[1..], config, tokens[0].value, []);
    }
  }

  lemma {:induction false} StatementShaped(tokens: seq<Token>, config: Config, key: string, args: seq<string>)
    requires Shaped(Dict(config)) && ParseStatement(tokens, config, key, args).Ok?
    ensures Shaped(Dict(ParseStatement(tokens, config, key, args).value.0))
    decreases |tokens|
  {
    match tokens[0].kind
    case LBrace =>
      ParsedShaped(tokens[1..], map[]);
      var (nested, rest) := ParseBlock(tokens[1..], map[]).value;
      AddBlockShaped(config, key, args, nested);
      ParsedShaped(rest, AddBlock(config, key, args, nested).value);
    case Semicolon =>
      AccumulateShaped(Get(config, key), StrList(args));
      ParsedShaped(tokens[1..], AppendRepeated(config, key, StrList(args)));
    case RBrace =>
    case Word => StatementShaped(tokens[1..], config, key, args + [tokens[0].value]);
    case Quoted => StatementShaped(tokens[1..], config, key, args + [tokens[0].value]);
  }

  /** In a parsed dictionary an occurrence is a list of strings or a block, never a bare string:
      the readers above fail on blocks only. */
  lemma {:induction false} OccurrencesReadable(tokens: seq<Token>, key: string)
    requires ParseBlock(tokens, map[]).Ok?
    requires DirectiveValues(Get(ParseBlock(tokens, map[]).value.0, key)).Ok?
    ensures var values := DirectiveValues(Get(ParseBlock(tokens, map[]).value.0, key)).value;
      forall i :: 0 <= i < |values| ==> ItemShaped(values[i]) && (FirstOf(values[i]).Err? ==> values[i].Dict?)
  {
    ParsedShaped(tokens, map[]);
    var raw := Get(ParseBlock(tokens, map[]).value.0, key);
    if raw.Some? {
      assert Shaped(raw.value);
    }
  }
}
