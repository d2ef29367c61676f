/**
 Parsing is the inverse of printing: in whatever style a configuration is printed, the parser
 gives it back, exactly if no upstream with servers repeats an earlier one's name.
 */
module NginxRoundTrip {
  import opened Wrappers
  import opened Text
  import opened NginxParser
  import opened NginxLayout

  // ---------- Printing ----------

  /** The statements of items one after the other. */
  function Each<T>(print_: T -> seq<Statement>, items: seq<T>): seq<Statement> {
    if items == [] then [] else Each(print_, items[..|items| - 1]) + print_(items[|items| - 1])
  }

  function BlockOf(kind: string, args: string, body: seq<Statement>): seq<Statement> {
    [Open(kind, args)] + body + [Close]
  }

  function EndpointStatements(address: string): seq<Statement> {
    [Simple("server", address)]
  }

  function UpstreamStatements(u: Upstream): seq<Statement> {
    BlockOf("upstream", u.name, Each(EndpointStatements, u.servers))
  }

  function ListenStatements(port: nat): seq<Statement> {
    [Simple("listen", Decimal(port))]
  }

  function NameStatements(names: seq<string>): seq<Statement> {
    if names == [] then [] else [Simple("server_name", Join(names, ' '))]
  }

  function LocationArgs(l: Location): string {
    if l.modifier == "" then l.path else l.modifier + " " + l.path
  }

  function LocationBody(l: Location): seq<Statement> {
    match l.proxyPass
    case Some(url) => [Simple("proxy_pass", url)]
    case None => []
  }

  function LocationStatements(l: Location): seq<Statement> {
    BlockOf("location", LocationArgs(l), LocationBody(l))
  }

  function ServerBody(s: Server): seq<Statement> {
    Each(ListenStatements, s.listen) + NameStatements(s.names) + Each(LocationStatements, s.locations)
  }

  function ServerStatements(s: Server): seq<Statement> {
    BlockOf("server", "", ServerBody(s))
  }

  function StatementsOf(config: Config): seq<Statement> {
    Each(UpstreamStatements, config.upstreams) + Each(ServerStatements, config.servers)
  }

  /** The text of a configuration in a style. */
  function Print(config: Config, style: Style): string {
    TextOf(StatementsOf(config), style)
  }

  // ---------- What can be printed ----------

  predicate PrintableUpstream(u: Upstream) {
    && IsBare(u.name) && Trimmed(u.name, IsWhitespace)
    && forall k :: 0 <= k < |u.servers| ==> IsArgument(u.servers[k])
  }

  predicate IsModifier(modifier: string) {
    modifier == "=" || modifier == "~" || modifier == "~*" || modifier == "^~"
  }

  /** A path without modifier does not look like one. */
  predicate PrintableLocation(l: Location) {
    && (l.modifier == "" || IsModifier(l.modifier))
    && (l.modifier == "" ==> ModifierLength(l.path) == 0)
    && l.path != [] && IsBare(l.path) && Trimmed(l.path, IsWhitespace)
    && (l.proxyPass.Some? ==> IsArgument(l.proxyPass.value))
    && l.warnings == []
  }

  predicate PrintableServer(s: Server) {
    && (forall k :: 0 <= k < |s.listen| ==> s.listen[k] <= MAX_PORT)
    && AllWords(s.names) && (s.names != [] ==> IsArgument(Join(s.names, ' ')))
    && (forall k :: 0 <= k < |s.locations| ==> PrintableLocation(s.locations[k]))
    && s.warnings == []
  }

  predicate Printable(config: Config) {
    && (forall k :: 0 <= k < |config.upstreams| ==> PrintableUpstream(config.upstreams[k]))
    && (forall k :: 0 <= k < |config.servers| ==> PrintableServer(config.servers[k]))
  }

  // ---------- Statements that leave no warning ----------

  predicate IsQuiet(s: Statement) {
    s.Simple? ==> s.directive in {"server", "listen", "server_name", "proxy_pass"}
  }

  predicate Good(statements: seq<Statement>) {
    forall k :: 0 <= k < |statements| ==> IsQuiet(statements[k]) && IsPrintable(statements[k])
  }

  function Fold(m: Machine, statements: seq<Statement>): Machine
    decreases |statements|
  {
    if statements == [] then m else Fold(Step(m, 0, statements[0]), statements[1..])
  }

  lemma {:induction false} FoldJoin(m: Machine, a: seq<Statement>, b: seq<Statement>)
    ensures Fold(m, a + b) == Fold(Fold(m, a), b)
    decreases |a|
  {
    if a == [] {
      assert a + b == b;
    } else {
      assert (a + b)[1..] == a[1..] + b;
      FoldJoin(Step(m, 0, a[0]), a[1..], b);
    }
  }

  lemma {:induction false} FoldOne(m: Machine, s: Statement)
    ensures Fold(m, [s]) == Step(m, 0, s)
  {
    assert [s][1..] == [];
  }

  lemma {:induction false} QuietIsSupported(directive: string)
    requires directive in {"server", "listen", "server_name", "proxy_pass"}
    ensures !IsUnsupported(directive)
  {
    assert |directive| in {6, 11, 10};
    assert directive[0] in {'s', 'l', 'p'};
  }

  /** Line numbers only show in warnings. */
  lemma {:induction false} QuietStep(m: Machine, line: nat, s: Statement)
    requires IsQuiet(s)
    ensures Step(m, line, s) == Step(m, 0, s)
  {
    if s.Simple? {
      QuietIsSupported(s.directive);
    }
  }

  lemma {:induction false} RunIsFold(m: Machine, statements: seq<Numbered>)
    requires Good(Unnumbered(statements))
    ensures Run(m, statements) == Fold(m, Unnumbered(statements))
    decreases |statements|
  {
    if statements != [] {
      var (line, s) := statements[0];
      assert Unnumbered(statements)[0] == s && Unnumbered(statements)[1..] == Unnumbered(statements[1..]);
      QuietStep(m, line, s);
      RunIsFold(Step(m, line, s), statements[1..]);
    }
  }

  // ---------- Upstreams ----------

  function AddEndpoints(upstreams: seq<Upstream>, name: string, addresses: seq<string>): (r: seq<Upstream>)
    ensures |r| == |upstreams|
  {
    if addresses == [] then upstreams
    else AddEndpoint(AddEndpoints(upstreams, name, addresses[..|addresses| - 1]), name, addresses[|addresses| - 1])
  }

  /** What the parser makes of printed upstreams: servers of a repeated name go to its first upstream. */
  function Merged(upstreams: seq<Upstream>): (r: seq<Upstream>)
    ensures |r| == |upstreams|
  {
    if upstreams == [] then []
    else
      var n := |upstreams| - 1;
      AddEndpoints(Merged(upstreams[..n]) + [Upstream(upstreams[n].name, [])], upstreams[n].name, upstreams[n].servers)
  }

  predicate Named(upstreams: seq<Upstream>, name: string) {
    exists k :: 0 <= k < |upstreams| && upstreams[k].name == name
  }

  lemma {:induction false} AddEndpointAt(upstreams: seq<Upstream>, name: string, address: string, last: Upstream)
    ensures !Named(upstreams, name) && last.name == name ==>
              AddEndpoint(upstreams + [last], name, address) == upstreams + [last.(servers := last.servers + [address])]
    ensures Named(upstreams, name) ==>
              AddEndpoint(upstreams + [last], name, address) == AddEndpoint(upstreams, name, address) + [last]
    ensures forall m :: Named(AddEndpoint(upstreams, name, address), m) <==> Named(upstreams, m)
  {
    SameNames(upstreams, name, address);
    if upstreams == [] {
      assert [] + [last] == [last];
    } else {
      var rest := upstreams[1..];
      assert (upstreams + [last])[1..] == rest + [last];
      assert upstreams == [upstreams[0]] + rest;
      if upstreams[0].name != name {
        AddEndpointAt(rest, name, address, last);
        assert Named(upstreams, name) ==> Named(rest, name) by {
          if k :| 0 <= k < |upstreams| && upstreams[k].name == name {
            assert rest[k - 1].name == name;
          }
        }
        if k :| 0 <= k < |rest| && rest[k].name == name {
          assert upstreams[k + 1].name == name;
        }
      }
    }
  }

  lemma {:induction false} SameNames(upstreams: seq<Upstream>, name: string, address: string)
    ensures forall k :: 0 <= k < |upstreams| ==> AddEndpoint(upstreams, name, address)[k].name == upstreams[k].name
  {
    if upstreams != [] && upstreams[0].name != name {
      SameNames(upstreams[1..], name, address);
    }
  }

  /** The servers of a new name go to its upstream; those of a repeated name go elsewhere. */
  lemma {:induction false} AddEndpointsAt(upstreams: seq<Upstream>, name: string, addresses: seq<string>)
    ensures !Named(upstreams, name) ==>
              AddEndpoints(upstreams + [Upstream(name, [])], name, addresses) == upstreams + [Upstream(name, addresses)]
    ensures Named(upstreams, name) ==>
              AddEndpoints(upstreams + [Upstream(name, [])], name, addresses)
              == AddEndpoints(upstreams, name, addresses) + [Upstream(name, [])]
    ensures forall m :: Named(AddEndpoints(upstreams, name, addresses), m) <==> Named(upstreams, m)
  {
    if addresses != [] {
      var n := |addresses| - 1;
      var before := AddEndpoints(upstreams, name, addresses[..n]);
      AddEndpointsAt(upstreams, name, addresses[..n]);
      assert addresses == addresses[..n] + [addresses[n]];
      AddEndpointAt(before, name, addresses[n], Upstream(name, []));
      AddEndpointAt(upstreams, name, addresses[n], Upstream(name, addresses[..n]));
    }
  }

  lemma {:induction false} MergedKeepsNames(upstreams: seq<Upstream>)
    ensures forall m :: Named(Merged(upstreams), m) <==> Named(upstreams, m)
  {
    if upstreams != [] {
      var n := |upstreams| - 1;
      var last := Upstream(upstreams[n].name, []);
      MergedKeepsNames(upstreams[..n]);
      AddEndpointsAt(Merged(upstreams[..n]) + [last], last.name, upstreams[n].servers);
      assert upstreams == upstreams[..n] + [upstreams[n]];
      NamedSnoc(upstreams[..n], upstreams[n]);
      NamedSnoc(Merged(upstreams[..n]), last);
    }
  }

  lemma {:induction false} NamedSnoc(upstreams: seq<Upstream>, last: Upstream)
    ensures forall m :: Named(upstreams + [last], m) <==> Named(upstreams, m) || last.name == m
  {
    forall m
      ensures Named(upstreams + [last], m) <==> Named(upstreams, m) || last.name == m
    {
      var all := upstreams + [last];
      assert all[|upstreams|] == last;
      if k :| 0 <= k < |upstreams| && upstreams[k].name == m {
        assert all[k].name == m;
      }
    }
  }

  /** No upstream with servers repeats the name of an earlier one. */
  predicate NoneShadowed(upstreams: seq<Upstream>) {
    forall i, j :: 0 <= i < j < |upstreams| && upstreams[i].name == upstreams[j].name ==> upstreams[j].servers == []
  }

  lemma {:induction false} NoneShadowedSnoc(earlier: seq<Upstream>, last: Upstream)
    ensures NoneShadowed(earlier + [last])
            <==> NoneShadowed(earlier) && (Named(earlier, last.name) ==> last.servers == [])
  {
    var all := earlier + [last];
    assert forall k :: 0 <= k < |earlier| ==> all[k] == earlier[k];
    assert all[|earlier|] == last;
  }

  /** One more upstream is merged into itself exactly if it is new or has no servers. */
  lemma {:induction false} MergedSnoc(earlier: seq<Upstream>, last: Upstream)
    ensures Merged(earlier + [last]) == earlier + [last]
            <==> Merged(earlier) == earlier && (Named(earlier, last.name) ==> last.servers == [])
  {
    var merged, all := Merged(earlier), earlier + [last];
    assert all[..|earlier|] == earlier;
    MergedKeepsNames(earlier);
    AddEndpointsAt(merged, last.name, last.servers);
    if Named(earlier, last.name) {
      assert Merged(all)[|earlier|] == Upstream(last.name, []);
      assert Merged(all)[..|earlier|] == AddEndpoints(merged, last.name, last.servers);
    } else {
      assert Merged(all)[..|earlier|] == merged;
    }
  }

  lemma {:induction false} MergedIff(upstreams: seq<Upstream>)
    ensures Merged(upstreams) == upstreams <==> NoneShadowed(upstreams)
  {
    if upstreams != [] {
      var n := |upstreams| - 1;
      assert upstreams == upstreams[..n] + [upstreams[n]];
      MergedIff(upstreams[..n]);
      MergedSnoc(upstreams[..n], upstreams[n]);
      NoneShadowedSnoc(upstreams[..n], upstreams[n]);
    }
  }

  lemma {:induction false} FoldBlock(m: Machine, kind: string, args: string, body: seq<Statement>)
    ensures Fold(m, BlockOf(kind, args, body)) == Step(Fold(Step(m, 0, Open(kind, args)), body), 0, Close)
  {
    var open := Open(kind, args);
    FoldJoin(m, [open] + body, [Close]);
    FoldJoin(m, [open], body);
    FoldOne(m, open);
    FoldOne(Fold(m, [open] + body), Close);
  }

  /** Items parsed one after the other. */
  lemma {:induction false} FoldEach<T>(print_: T -> seq<Statement>, state: seq<T> -> Machine, items: seq<T>)
    requires forall k :: 0 <= k < |items| ==>
               Fold(state(items[..k]), print_(items[k])) == state(items[..k] + [items[k]])
    ensures Fold(state([]), Each(print_, items)) == state(items)
  {
    if items != [] {
      var n := |items| - 1;
      forall k | 0 <= k < n
        ensures Fold(state(items[..n][..k]), print_(items[..n][k])) == state(items[..n][..k] + [items[..n][k]])
      {
        assert items[..n][..k] == items[..k];
      }
      FoldEach(print_, state, items[..n]);
      FoldJoin(state([]), Each(print_, items[..n]), print_(items[n]));
      assert items[..n] + [items[n]] == items;
    }
  }

  function InUpstreamAfter(config: Config, name: string): seq<string> -> Machine {
    (addresses: seq<string>) =>
      Machine(config.(upstreams := AddEndpoints(config.upstreams, name, addresses)), [InUpstream(name)])
  }

  lemma {:induction false} EndpointsParse(config: Config, name: string, addresses: seq<string>)
    ensures Fold(InUpstreamAfter(config, name)([]), Each(EndpointStatements, addresses))
            == InUpstreamAfter(config, name)(addresses)
  {
    forall k | 0 <= k < |addresses|
      ensures Fold(InUpstreamAfter(config, name)(addresses[..k]), EndpointStatements(addresses[k]))
              == InUpstreamAfter(config, name)(addresses[..k] + [addresses[k]])
    {
      var before := AddEndpoints(config.upstreams, name, addresses[..k]);
      FoldOne(InUpstreamAfter(config, name)(addresses[..k]), Simple("server", addresses[k]));
      var longer := addresses[..k] + [addresses[k]];
      assert longer[..|longer| - 1] == addresses[..k];
    }
    FoldEach(EndpointStatements, InUpstreamAfter(config, name), addresses);
  }

  function AfterUpstreams(): seq<Upstream> -> Machine {
    (upstreams: seq<Upstream>) => Machine(Config(Merged(upstreams), []), [])
  }

  lemma {:induction false} UpstreamsParse(upstreams: seq<Upstream>)
    ensures Fold(START, Each(UpstreamStatements, upstreams)) == AfterUpstreams()(upstreams)
  {
    forall k | 0 <= k < |upstreams|
      ensures Fold(AfterUpstreams()(upstreams[..k]), UpstreamStatements(upstreams[k]))
              == AfterUpstreams()(upstreams[..k] + [upstreams[k]])
    {
      var earlier, u := upstreams[..k], upstreams[k];
      var m, entered := AfterUpstreams()(earlier), Config(Merged(earlier) + [Upstream(u.name, [])], []);
      FoldBlock(m, "upstream", u.name, Each(EndpointStatements, u.servers));
      assert Step(m, 0, Open("upstream", u.name)) == InUpstreamAfter(entered, u.name)([]);
      EndpointsParse(entered, u.name, u.servers);
      assert (earlier + [u])[..|earlier|] == earlier;
    }
    FoldEach(UpstreamStatements, AfterUpstreams(), upstreams);
    assert AfterUpstreams()([]) == START;
  }

  // ---------- Servers ----------

  lemma {:induction false} ListenPortParses(port: nat)
    requires port <= MAX_PORT
    ensures ParseListenPort(Decimal(port)) == Some(port)
  {
    DecimalIsWord(port);
    OnlyWord(Decimal(port));
    NothingToSplit(Decimal(port), ':');
    ParsePortOfDecimal(port);
  }

  /** A port after an address, and before other parameters, is found too. */
  lemma {:induction false} ListenAddressParses(host: string, port: nat, more: string)
    requires port <= MAX_PORT && (host == [] || IsWord(host))
    ensures ParseListenPort(host + ":" + Decimal(port)) == Some(port)
    ensures ParseListenPort(host + ":" + Decimal(port) + [' '] + more) == Some(port)
  {
    var word := host + ":" + Decimal(port);
    DecimalIsWord(port);
    assert IsWord(word);
    OnlyWord(word);
    FirstWord(word, ' ', more);
    RSplitOnceIsUnique(host, Decimal(port), ':');
    ParsePortOfDecimal(port);
  }

  lemma {:induction false} InServerParses(config: Config, s: Server, directive: string, args: string)
    ensures Fold(Machine(config, [InServer(s)]), [Simple(directive, args)])
            == Machine(config, [InServer(InServerDirective(s, 0, directive, args))])
  {
    FoldOne(Machine(config, [InServer(s)]), Simple(directive, args));
  }

  function Listening(config: Config): seq<nat> -> Machine {
    (ports: seq<nat>) => Machine(config, [InServer(Server(ports, [], [], []))])
  }

  lemma {:induction false} ListenParses(config: Config, ports: seq<nat>, port: nat)
    requires port <= MAX_PORT
    ensures Fold(Listening(config)(ports), ListenStatements(port)) == Listening(config)(ports + [port])
  {
    InServerParses(config, Server(ports, [], [], []), "listen", Decimal(port));
    ListenPortParses(port);
  }

  lemma {:induction false} ListensParse(config: Config, ports: seq<nat>)
    requires forall k :: 0 <= k < |ports| ==> ports[k] <= MAX_PORT
    ensures Fold(Listening(config)([]), Each(ListenStatements, ports)) == Listening(config)(ports)
  {
    forall k | 0 <= k < |ports|
      ensures Fold(Listening(config)(ports[..k]), ListenStatements(ports[k]))
              == Listening(config)(ports[..k] + [ports[k]])
    {
      ListenParses(config, ports[..k], ports[k]);
    }
    FoldEach(ListenStatements, Listening(config), ports);
  }

  /** Modifier and path are told apart with white space between or without, the path missing too. */
  lemma {:induction false} AnyModifierSplits(modifier: string, gap: string, path: string)
    requires IsModifier(modifier) && All(gap, IsWhitespace) && Trimmed(path, IsWhitespace)
    requires modifier == "~" && gap == [] && path != [] ==> path[0] != '*'
    ensures SplitModifier(modifier + gap + path) == (modifier, path)
  {
    var args, n := modifier + gap + path, |modifier|;
    assert args == modifier + (gap + path);
    assert args[..n] == modifier && args[n..] == gap + path + [];
    TrimOfPadded(gap, path, [], IsWhitespace);
    if modifier == "~" && |args| > 1 {
      assert args[1] == (gap + path)[0] != '*';
    }
    assert args[0] == modifier[0] && (n == 2 ==> args[1] == modifier[1]);
  }

  lemma {:induction false} TrimmedArgsParse(args: string, modifier: string, path: string)
    requires TrimSpace(args) == args && SplitModifier(args) == (modifier, path)
    ensures Opened("location", args, true) == Some(InLocation(Location(modifier, path, None, [])))
  {
  }

  lemma {:induction false} ModifiedLocationOpened(modifier: string, path: string)
    requires IsModifier(modifier) && path != [] && Trimmed(path, IsWhitespace)
    ensures Opened("location", modifier + " " + path, true) == Some(InLocation(Location(modifier, path, None, [])))
  {
    var args := modifier + " " + path;
    AnyModifierSplits(modifier, " ", path);
    TrimmedArgsParse(args, modifier, path);
  }

  lemma {:induction false} LocationOpened(l: Location)
    requires PrintableLocation(l)
    ensures Opened("location", LocationArgs(l), true) == Some(InLocation(Location(l.modifier, l.path, None, [])))
  {
    if l.modifier == "" {
    } else {
      ModifiedLocationOpened(l.modifier, l.path);
    }
  }

  lemma {:induction false} LocationParses(config: Config, s: Server, l: Location)
    requires PrintableLocation(l)
    ensures Fold(Machine(config, [InServer(s)]), LocationStatements(l))
            == Machine(config, [InServer(s.(locations := s.locations + [l]))])
  {
    var m, c := Machine(config, [InServer(s)]), InLocation(Location(l.modifier, l.path, None, []));
    LocationOpened(l);
    FoldBlock(m, "location", LocationArgs(l), LocationBody(l));
    assert m.stack + [c] == [InServer(s), c];
  }

  function Located(config: Config, listen: seq<nat>, names: seq<string>): seq<Location> -> Machine {
    (locations: seq<Location>) => Machine(config, [InServer(Server(listen, names, locations, []))])
  }

  lemma {:induction false} LocationsParse(config: Config, listen: seq<nat>, names: seq<string>,
                                          locations: seq<Location>)
    requires forall k :: 0 <= k < |locations| ==> PrintableLocation(locations[k])
    ensures Fold(Located(config, listen, names)([]), Each(LocationStatements, locations))
            == Located(config, listen, names)(locations)
  {
    forall k | 0 <= k < |locations|
      ensures Fold(Located(config, listen, names)(locations[..k]), LocationStatements(locations[k]))
              == Located(config, listen, names)(locations[..k] + [locations[k]])
    {
      LocationParses(config, Server(listen, names, locations[..k], []), locations[k]);
    }
    FoldEach(LocationStatements, Located(config, listen, names), locations);
  }

  lemma {:induction false} NamedServerParses(config: Config, listen: seq<nat>, names: seq<string>)
    requires AllWords(names)
    ensures Fold(Listening(config)(listen), NameStatements(names)) == Located(config, listen, names)([])
  {
    var s, after := Server(listen, [], [], []), Server(listen, names, [], []);
    if names != [] {
      var joined := Join(names, ' ');
      WordsOfJoin(names);
      assert [] + names == names;
      InServerParses(config, s, "server_name", joined);
    }
  }

  lemma {:induction false} ServerBodyParses(config: Config, s: Server)
    requires PrintableServer(s)
    ensures Fold(Listening(config)([]), ServerBody(s)) == Located(config, s.listen, s.names)(s.locations)
  {
    var m := Listening(config)([]);
    FoldJoin(m, Each(ListenStatements, s.listen) + NameStatements(s.names), Each(LocationStatements, s.locations));
    FoldJoin(m, Each(ListenStatements, s.listen), NameStatements(s.names));
    ListensParse(config, s.listen);
    NamedServerParses(config, s.listen, s.names);
    LocationsParse(config, s.listen, s.names, s.locations);
  }

  lemma {:induction false} ServerParses(config: Config, s: Server)
    requires PrintableServer(s)
    ensures Fold(Machine(config, []), ServerStatements(s)) == Machine(config.(servers := config.servers + [s]), [])
  {
    FoldBlock(Machine(config, []), "server", "", ServerBody(s));
    assert Step(Machine(config, []), 0, Open("server", "")) == Listening(config)([]);
    ServerBodyParses(config, s);
    assert Located(config, s.listen, s.names)(s.locations) == Machine(config, [InServer(s)]);
  }

  function WithServers(upstreams: seq<Upstream>): seq<Server> -> Machine {
    (servers: seq<Server>) => Machine(Config(upstreams, servers), [])
  }

  lemma {:induction false} ServersParse(upstreams: seq<Upstream>, servers: seq<Server>)
    requires forall k :: 0 <= k < |servers| ==> PrintableServer(servers[k])
    ensures Fold(WithServers(upstreams)([]), Each(ServerStatements, servers)) == WithServers(upstreams)(servers)
  {
    forall k | 0 <= k < |servers|
      ensures Fold(WithServers(upstreams)(servers[..k]), ServerStatements(servers[k]))
              == WithServers(upstreams)(servers[..k] + [servers[k]])
    {
      ServerParses(Config(upstreams, servers[..k]), servers[k]);
    }
    FoldEach(ServerStatements, WithServers(upstreams), servers);
  }

  // ---------- Every printed statement is fit to print ----------

  lemma {:induction false} EachGood<T>(print_: T -> seq<Statement>, items: seq<T>)
    requires forall k :: 0 <= k < |items| ==> Good(print_(items[k]))
    ensures Good(Each(print_, items))
  {
    if items != [] {
      var n := |items| - 1;
      EachGood(print_, items[..n]);
      assert Good(print_(items[n]));
    }
  }

  lemma {:induction false} BlockGood(kind: string, args: string, body: seq<Statement>)
    requires IsPrintable(Open(kind, args)) && Good(body)
    ensures Good(BlockOf(kind, args, body))
  {
  }

  lemma {:induction false} UpstreamGood(u: Upstream)
    requires PrintableUpstream(u)
    ensures Good(UpstreamStatements(u))
  {
    forall k | 0 <= k < |u.servers|
      ensures Good(EndpointStatements(u.servers[k]))
    {
      assert IsArgument(u.servers[k]);
    }
    EachGood(EndpointStatements, u.servers);
    BlockGood("upstream", u.name, Each(EndpointStatements, u.servers));
  }

  lemma {:induction false} LocationArgsPrintable(l: Location)
    requires PrintableLocation(l)
    ensures IsPrintable(Open("location", LocationArgs(l)))
  {
    var args := LocationArgs(l);
    assert l.modifier != "" ==> IsBare(l.modifier) && !IsWhitespace(l.modifier[0]);
    assert args[|args| - 1] == l.path[|l.path| - 1];
    assert IsBare(args);
  }

  lemma {:induction false} LocationGood(l: Location)
    requires PrintableLocation(l)
    ensures Good(LocationStatements(l))
  {
    LocationArgsPrintable(l);
    BlockGood("location", LocationArgs(l), LocationBody(l));
  }

  lemma {:induction false} ListensGood(ports: seq<nat>)
    ensures Good(Each(ListenStatements, ports))
  {
    forall k | 0 <= k < |ports|
      ensures Good(ListenStatements(ports[k]))
    {
    }
    EachGood(ListenStatements, ports);
  }

  lemma {:induction false} LocationsGood(locations: seq<Location>)
    requires forall k :: 0 <= k < |locations| ==> PrintableLocation(locations[k])
    ensures Good(Each(LocationStatements, locations))
  {
    forall k | 0 <= k < |locations|
      ensures Good(LocationStatements(locations[k]))
    {
      LocationGood(locations[k]);
    }
    EachGood(LocationStatements, locations);
  }

  lemma {:induction false} ServerGood(s: Server)
    requires PrintableServer(s)
    ensures Good(ServerStatements(s))
  {
    ListensGood(s.listen);
    LocationsGood(s.locations);
    ServerBlockGood(Each(ListenStatements, s.listen), NameStatements(s.names), Each(LocationStatements, s.locations));
  }

  lemma {:induction false} ServerBlockGood(a: seq<Statement>, b: seq<Statement>, c: seq<Statement>)
    requires Good(a) && Good(b) && Good(c)
    ensures Good(BlockOf("server", "", a + b + c))
  {
    BlockGood("server", "", a + b + c);
  }

  lemma {:induction false} StatementsGood(config: Config)
    requires Printable(config)
    ensures Good(StatementsOf(config))
  {
    forall k | 0 <= k < |config.upstreams|
      ensures Good(UpstreamStatements(config.upstreams[k]))
    {
      UpstreamGood(config.upstreams[k]);
    }
    EachGood(UpstreamStatements, config.upstreams);
    forall k | 0 <= k < |config.servers|
      ensures Good(ServerStatements(config.servers[k]))
    {
      ServerGood(config.servers[k]);
    }
    EachGood(ServerStatements, config.servers);
  }

  // ---------- The round trip ----------

  /** Whatever the style, a printed configuration is parsed to itself but for merged upstreams. */
  lemma {:induction false} ParseOfPrint(config: Config, style: Style)
    requires Printable(config) && AllValid(style)
    ensures Parse(Print(config, style)) == config.(upstreams := Merged(config.upstreams))
  {
    StatementsGood(config);
    TextReads(StatementsOf(config), style);
    RunIsFold(START, Statements(Split(Print(config, style), '\n'), 1));
    FoldJoin(START, Each(UpstreamStatements, config.upstreams), Each(ServerStatements, config.servers));
    UpstreamsParse(config.upstreams);
    ServersParse(Merged(config.upstreams), config.servers);
  }

  /** Parsing gives a printed configuration back exactly if no upstream with servers is shadowed. */
  lemma {:induction false} ParsePrintRoundTrip(config: Config, style: Style)
    requires Printable(config) && AllValid(style)
    ensures Parse(Print(config, style)) == config <==> NoneShadowed(config.upstreams)
  {
    ParseOfPrint(config, style);
    MergedIff(config.upstreams);
  }
}
