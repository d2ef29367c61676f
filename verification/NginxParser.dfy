/**
 The NGINX configuration parser: lines are read as block openings, block closings and simple
 directives, which drive a stack of open blocks.
 */
module NginxParser {
  import opened Wrappers
  import opened Text

  // ---------- Configurations ----------

  datatype Advice =
    | UseAuthn
    | UseRateLimiting
    | UsePathRewrite
    | UseConditions
    | NotAFileServer
    | ReviewManually

  datatype Warning = Warning(line: nat, directive: string, advice: Advice)

  datatype Upstream = Upstream(name: string, servers: seq<string>)

  datatype Location = Location(modifier: string, path: string, proxyPass: Option<string>, warnings: seq<Warning>)

  datatype Server = Server(listen: seq<nat>, names: seq<string>, locations: seq<Location>, warnings: seq<Warning>)

  datatype Config = Config(upstreams: seq<Upstream>, servers: seq<Server>)

  /** An open block. */
  datatype Context =
    | InHttp
    | InUpstream(name: string)
    | InServer(server: Server)
    | InLocation(location: Location)
    | InUnknown

  // ---------- Reading a line ----------

  datatype Quoting = Outside | Single | Double

  /** The quoting state after a text. */
  function QuotingAfter(s: string): Quoting {
    if s == [] then Outside
    else
      var q, c := QuotingAfter(s[..|s| - 1]), s[|s| - 1];
      if c == '\'' && q != Double then if q == Single then Outside else Single
      else if c == '"' && q != Single then if q == Double then Outside else Double
      else q
  }

  /** A `#` outside quotes. */
  predicate StartsComment(line: string, i: nat) {
    i < |line| && line[i] == '#' && QuotingAfter(line[..i]) == Outside
  }

  function CommentFrom(line: string, i: nat): (r: Option<nat>)
    ensures r.None? ==> forall j: nat :: i <= j ==> !StartsComment(line, j)
    ensures r.Some? ==> i <= r.value < |line| && StartsComment(line, r.value)
                        && forall j: nat :: i <= j < r.value ==> !StartsComment(line, j)
    decreases |line| - i
  {
    if i >= |line| then None
    else if StartsComment(line, i) then Some(i)
    else CommentFrom(line, i + 1)
  }

  /** `find_comment`: where the comment of a line starts. */
  method FindComment(line: string) returns (r: Option<nat>)
    ensures r == CommentFrom(line, 0)
  {
    var inSingle, inDouble := false, false;
    var i := 0;
    while i < |line|
      invariant 0 <= i <= |line|
      invariant CommentFrom(line, 0) == CommentFrom(line, i)
      invariant QuotingAfter(line[..i]) == if inSingle then Single else if inDouble then Double else Outside
      invariant !(inSingle && inDouble)
    {
      assert line[..i + 1][..i] == line[..i];
      var c := line[i];
      if c == '\'' && !inDouble {
        inSingle := !inSingle;
      } else if c == '"' && !inSingle {
        inDouble := !inDouble;
      } else if c == '#' && !inSingle && !inDouble {
        return Some(i);
      }
      i := i + 1;
    }
    return None;
  }

  predicate IsSemicolon(c: char) {
    c == ';'
  }

  datatype Statement =
    | Open(kind: string, args: string)
    | Close
    | Simple(directive: string, args: string)

  /** A line without its comment and the white space around it. */
  function Uncommented(line: string): string {
    match CommentFrom(line, 0)
    case Some(i) => TrimEnd(line[..i], IsWhitespace)
    case None => line
  }

  /** The statement of a trimmed line without comment. */
  function ReadStatement(line: string): Statement
    requires line != []
  {
    var last := |line| - 1;
    if line[last] == '{' then
      var (kind, args) := SplitWord(TrimSpace(line[..last]));
      Open(kind, TrimSpace(args))
    else if line == "}" then Close
    else
      var (directive, args) := SplitWord(line);
      Simple(directive, TrimEnd(TrimSpace(args), IsSemicolon))
  }

  /** What one line says; nothing if it is blank or a comment. */
  function ReadLine(raw: string): Option<Statement> {
    var line := TrimSpace(raw);
    if line == [] || line[0] == '#' then None
    else
      var text := Uncommented(line);
      if text == [] then None else Some(ReadStatement(text))
  }

  // ---------- The stack machine ----------

  datatype Machine = Machine(config: Config, stack: seq<Context>)
  {
    function Push(c: Context): Machine {
      this.(stack := stack + [c])
    }
  }

  /** The length of the modifier trimmed location arguments start with. */
  function ModifierLength(args: string): (n: nat)
    ensures n <= |args|
  {
    if "=" <= args then 1
    else if "~*" <= args then 2
    else if "~" <= args then 1
    else if "^~" <= args then 2
    else 0
  }

  function SplitModifier(args: string): (string, string) {
    var n := ModifierLength(args);
    (args[..n], if n == 0 then args else TrimSpace(args[n..]))
  }

  /** The modifier and the path of a location. */
  function ParseLocationArgs(args: string): (string, string) {
    SplitModifier(TrimSpace(args))
  }

  /** The port of a `listen` directive, with or without an address before it. */
  function ParseListenPort(args: string): Option<nat> {
    var words := Words(args);
    if words == [] then None
    else
      match RSplitOnce(words[0], ':')
      case Some(cut) => ParsePort(cut.1)
      case None => ParsePort(words[0])
  }

  predicate IsUnsupported(directive: string) {
    directive in {
    "lua_", "perl_", "auth_request", "sub_filter", "add_header", "proxy_set_header", "proxy_redirect",
    "proxy_cache", "proxy_buffering", "proxy_next_upstream", "proxy_connect_timeout", "proxy_read_timeout",
    "proxy_send_timeout", "ssl_certificate", "ssl_certificate_key", "ssl_protocols", "ssl_ciphers",
    "client_max_body_size", "client_body_timeout", "send_timeout", "keepalive_timeout", "gzip", "gzip_types",
    "gzip_comp_level", "access_log", "error_log", "root", "index", "return", "set", "map", "geo",
    "split_clients", "include"
    }
  }

  /** Adds a server to the first upstream of a name. */
  function AddEndpoint(upstreams: seq<Upstream>, name: string, address: string): (r: seq<Upstream>)
    ensures |r| == |upstreams|
  {
    if upstreams == [] then []
    else if upstreams[0].name == name then [upstreams[0].(servers := upstreams[0].servers + [address])] + upstreams[1..]
    else [upstreams[0]] + AddEndpoint(upstreams[1..], name, address)
  }

  /** What a directive means to the block it stands in. */
  datatype Role = Listen | ServerName | ProxyPass | Warned(advice: Advice) | Ignored

  function RoleInServer(directive: string): Role {
    if directive == "listen" then Listen
    else if directive == "server_name" then ServerName
    else if directive == "auth_basic" || directive == "auth_basic_user_file" then Warned(UseAuthn)
    else if directive == "limit_req" || directive == "limit_req_zone" then Warned(UseRateLimiting)
    else if IsUnsupported(directive) then Warned(ReviewManually)
    else Ignored
  }

  function RoleInLocation(directive: string): Role {
    if directive == "proxy_pass" then ProxyPass
    else if directive == "rewrite" then Warned(UsePathRewrite)
    else if directive == "auth_basic" || directive == "auth_basic_user_file" then Warned(UseAuthn)
    else if directive == "limit_req" then Warned(UseRateLimiting)
    else if directive == "try_files" then Warned(NotAFileServer)
    else if directive == "if" then Warned(UseConditions)
    else if IsUnsupported(directive) then Warned(ReviewManually)
    else Ignored
  }

  function InServerDirective(s: Server, line: nat, directive: string, args: string): Server {
    match RoleInServer(directive)
    case Listen =>
      (match ParseListenPort(args)
       case Some(port) => s.(listen := s.listen + [port])
       case None => s)
    case ServerName => s.(names := s.names + Words(args))
    case Warned(advice) => s.(warnings := s.warnings + [Warning(line, directive, advice)])
    case _ => s
  }

  function InLocationDirective(l: Location, line: nat, directive: string, args: string): Location {
    match RoleInLocation(directive)
    case ProxyPass => l.(proxyPass := Some(args))
    case Warned(advice) => l.(warnings := l.warnings + [Warning(line, directive, advice)])
    case _ => l
  }

  /** A simple directive in the block `top`. */
  function Directive(config: Config, top: Context, line: nat, directive: string, args: string): (r: (Config, Context))
    ensures r.1.InServer? == top.InServer?
  {
    match top
    case InUpstream(name) =>
      (if directive == "server" then config.(upstreams := AddEndpoint(config.upstreams, name, args)) else config, top)
    case InServer(s) => (config, InServer(InServerDirective(s, line, directive, args)))
    case InLocation(l) => (config, InLocation(InLocationDirective(l, line, directive, args)))
    case _ => (config, top)
  }

  const NEW_SERVER: Server := Server([], [], [], [])

  /** The block an opening line opens, if `inServer` says whether it stands in a server block. */
  function Opened(kind: string, args: string, inServer: bool): Option<Context> {
    if kind == "http" then Some(InHttp)
    else if kind == "upstream" then Some(InUpstream(args))
    else if kind == "server" then Some(InServer(NEW_SERVER))
    else if kind == "location" then
      if inServer then
        var (modifier, path) := ParseLocationArgs(args);
        Some(InLocation(Location(modifier, path, None, [])))
      else None
    else Some(InUnknown)
  }

  /** An opening `upstream` line enters the upstream at once. */
  function Entered(config: Config, kind: string, args: string): Config {
    if kind == "upstream" then config.(upstreams := config.upstreams + [Upstream(args, [])]) else config
  }

  /** A closed block is handed to the configuration, or to the server block around it. */
  function Closed(config: Config, closed: Context): Config {
    if closed.InServer? then config.(servers := config.servers + [closed.server]) else config
  }

  function Received(parent: Context, closed: Context): Context {
    if closed.InLocation? && parent.InServer? then
      InServer(parent.server.(locations := parent.server.locations + [closed.location]))
    else parent
  }

  predicate TopIsServer(stack: seq<Context>) {
    stack != [] && stack[|stack| - 1].InServer?
  }

  function Step(m: Machine, line: nat, s: Statement): Machine {
    var n := |m.stack| - 1;
    match s
    case Open(kind, args) =>
      (match Opened(kind, args, TopIsServer(m.stack))
       case Some(c) => Machine(Entered(m.config, kind, args), m.stack + [c])
       case None => m)
    case Close =>
      if m.stack == [] then m
      else
        var closed, rest := m.stack[n], m.stack[..n];
        Machine(Closed(m.config, closed),
                if rest == [] then rest else rest[..n - 1] + [Received(rest[n - 1], closed)])
    case Simple(directive, args) =>
      if m.stack == [] then m
      else
        var (config, top) := Directive(m.config, m.stack[n], line, directive, args);
        Machine(config, m.stack[..n] + [top])
  }

  /** A statement and its line number. */
  type Numbered = (nat, Statement)

  function Run(m: Machine, statements: seq<Numbered>): Machine
    decreases |statements|
  {
    if statements == [] then m else Run(Step(m, statements[0].0, statements[0].1), statements[1..])
  }

  function Said(s: Option<Statement>, n: nat): seq<Numbered> {
    if s.Some? then [(n, s.value)] else []
  }

  /** What the lines from line number `n` on say, if `read` reads a line. */
  function ReadAll(read: string -> Option<Statement>, lines: seq<string>, n: nat): seq<Numbered> {
    if lines == [] then []
    else Said(read(lines[0]), n) + ReadAll(read, lines[1..], n + 1)
  }

  /** The statements of the lines from line number `n` on. */
  function Statements(lines: seq<string>, n: nat): seq<Numbered> {
    ReadAll(ReadLine, lines, n)
  }

  const START: Machine := Machine(Config([], []), [])

  function Parse(text: string): Config {
    Run(START, Statements(Split(text, '\n'), 1)).config
  }

  lemma {:induction false} RunJoin(m: Machine, a: seq<Numbered>, b: seq<Numbered>)
    ensures Run(m, a + b) == Run(Run(m, a), b)
    decreases |a|
  {
    if a == [] {
      assert a + b == b;
    } else {
      assert (a + b)[1..] == a[1..] + b;
      RunJoin(Step(m, a[0].0, a[0].1), a[1..], b);
    }
  }

  lemma {:induction false} RunOne(m: Machine, line: nat, s: Statement)
    ensures Run(m, [(line, s)]) == Step(m, line, s)
  {
    assert [(line, s)][1..] == [];
  }

  // ---------- The parser ----------

  /** What reading line `i` does to the machine. */
  lemma {:induction false} RunLine(read: string -> Option<Statement>, lines: seq<string>, i: nat, m: Machine)
    requires i < |lines|
    ensures Run(m, ReadAll(read, lines[i..], i + 1)) ==
            Run(match read(lines[i]) case Some(s) => Step(m, i + 1, s) case None => m,
                ReadAll(read, lines[i + 1..], i + 2))
  {
    var rest := ReadAll(read, lines[i + 1..], i + 2);
    assert lines[i..][1..] == lines[i + 1..];
    match read(lines[i])
    case Some(s) =>
      RunJoin(m, [(i + 1, s)], rest);
      RunOne(m, i + 1, s);
    case None =>
      RunJoin(m, [], rest);
  }

  /** An opening line, on the parser's own configuration and stack. */
  method OpenBlock(config: Config, stack: seq<Context>, line: nat, kind: string, args: string)
      returns (config': Config, stack': seq<Context>)
    ensures Machine(config', stack') == Step(Machine(config, stack), line, Open(kind, args))
  {
    config', stack' := config, stack;
    if kind == "http" {
      stack' := stack + [InHttp];
    } else if kind == "upstream" {
      config' := config.(upstreams := config.upstreams + [Upstream(args, [])]);
      stack' := stack + [InUpstream(args)];
    } else if kind == "server" {
      stack' := stack + [InServer(NEW_SERVER)];
    } else if kind == "location" {
      if stack != [] && stack[|stack| - 1].InServer? {
        var (modifier, path) := ParseLocationArgs(args);
        stack' := stack + [InLocation(Location(modifier, path, None, []))];
      }
    } else {
      stack' := stack + [InUnknown];
    }
  }

  /** A closing line pops the block on top and hands it on. */
  method CloseBlock(config: Config, stack: seq<Context>, line: nat) returns (config': Config, stack': seq<Context>)
    ensures Machine(config', stack') == Step(Machine(config, stack), line, Close)
  {
    config', stack' := config, stack;
    if stack != [] {
      var n := |stack| - 1;
      var closed := stack[n];
      stack' := stack[..n];
      if closed.InServer? {
        config' := config.(servers := config.servers + [closed.server]);
      } else if closed.InLocation? && n > 0 && stack'[n - 1].InServer? {
        var server := stack'[n - 1].server;
        stack' := stack'[..n - 1] + [InServer(server.(locations := server.locations + [closed.location]))];
      }
    }
  }

  method Interpret(config: Config, stack: seq<Context>, line: nat, s: Statement)
      returns (config': Config, stack': seq<Context>)
    ensures Machine(config', stack') == Step(Machine(config, stack), line, s)
  {
    match s
    case Open(kind, args) =>
      config', stack' := OpenBlock(config, stack, line, kind, args);
    case Close =>
      config', stack' := CloseBlock(config, stack, line);
    case Simple(directive, args) =>
      config', stack' := config, stack;
      if stack != [] {
        var n := |stack| - 1;
        var (after, top) := Directive(config, stack[n], line, directive, args);
        config', stack' := after, stack[..n] + [top];
      }
  }

  method ParseNginxConfig(text: string) returns (config: Config)
    ensures config == Parse(text)
  {
    config := Config([], []);
    var stack: seq<Context> := [];
    var lines := Split(text, '\n');
    var i := 0;
    assert lines[0..] == lines;
    while i < |lines|
      invariant 0 <= i <= |lines|
      invariant Run(Machine(config, stack), Statements(lines[i..], i + 1)).config == Parse(text)
    {
      RunLine(ReadLine, lines, i, Machine(config, stack));
      var line := TrimSpace(lines[i]);
      i := i + 1;
      if line == [] || line[0] == '#' {
        continue;
      }
      var comment := FindComment(line);
      if comment.Some? {
        line := TrimEnd(line[..comment.value], IsWhitespace);
      }
      if line == [] {
        continue;
      }
      config, stack := Interpret(config, stack, i, ReadStatement(line));
    }
  }
}
