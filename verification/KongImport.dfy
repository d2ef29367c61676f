/**
 Kong configurations imported as gateways: upstreams, then services, then routes, with a stub for
 every service a route refers to in vain. Every reference in the result is defined.
 */
module KongImport {
  import opened Wrappers
  import opened Text

  // ---------- Kong ----------

  datatype Target = Target(target: string, weight: Option<nat>)

  datatype KongUpstream = KongUpstream(name: string, targets: seq<Target>)

  datatype KongService = KongService(name: string, url: Option<string>, host: Option<string>, port: Option<nat>)

  datatype KongRoute = KongRoute(
    name: Option<string>,
    service: Option<string>,
    paths: seq<string>,
    methods: seq<string>,
    hosts: seq<string>,
    stripPath: Option<bool>)
  {
    /** A route without paths matches every path. */
    function Paths(): (r: seq<string>)
      ensures r != []
    {
      if paths == [] then ["/"] else paths
    }
  }

  datatype Kong = Kong(services: seq<KongService>, routes: seq<KongRoute>, upstreams: seq<KongUpstream>)
  {
    /** The service a route refers to; by default the first one. */
    function ServiceRef(r: KongRoute): string {
      match r.service
      case Some(name) => name
      case None => if services != [] then services[0].name else "default-service"
    }
  }

  // ---------- Gateways ----------

  datatype Endpoint = Endpoint(address: string, port: nat, weight: nat)

  datatype Upstream = Upstream(name: string, endpoints: seq<Endpoint>)

  datatype Service = Service(name: string, upstream: string)

  datatype PathKind = Prefix | Regex

  datatype Route = Route(name: string, service: string, kind: PathKind, path: string, host: Option<string>,
                         methods: seq<string>)

  datatype Warning =
    | NoValidTargets(upstream: string)
    | NoEndpoint(service: string)
    | StubService(route: nat, service: string)
    | StripPath(route: nat)

  datatype Gateway = Gateway(
    upstreams: map<string, Upstream>,
    services: map<string, Service>,
    routes: seq<Route>,
    warnings: seq<Warning>)

  const EMPTY: Gateway := Gateway(map[], map[], [], [])
  const STUB: Endpoint := Endpoint("127.0.0.1", 9000, 1)

  function UpstreamName(service: string): string {
    service + "-upstream"
  }

  lemma {:induction false} UpstreamNameInjective(a: string, b: string)
    requires UpstreamName(a) == UpstreamName(b)
    ensures a == b
  {
    assert a == UpstreamName(a)[..|UpstreamName(a)| - 9];
  }

  // ---------- Addresses ----------

  function ParseTarget(target: string, weight: nat): Option<Endpoint> {
    match RSplitOnce(target, ':')
    case None => None
    case Some(cut) =>
      match ParsePort(cut.1)
      case Some(port) => Some(Endpoint(cut.0, port, weight))
      case None => None
  }

  function WithoutScheme(url: string): string {
    if "http://" <= url then url[7..]
    else if "https://" <= url then url[8..]
    else url
  }

  /** Host and port of a URL; the path is dropped. */
  function ParseUrl(url: string): Option<Endpoint> {
    ParseTarget(Split(WithoutScheme(url), '/')[0], 1)
  }

  /** The endpoint a service gives itself, by its URL if it has one. */
  function OwnEndpoint(s: KongService): Option<Endpoint> {
    match s.url
    case Some(url) => ParseUrl(url)
    case None =>
      match s.host
      case Some(host) => Some(Endpoint(host, if s.port.Some? then s.port.value else 80, 1))
      case None => None
  }

  function TargetEndpoint(t: Target): Option<Endpoint> {
    ParseTarget(t.target, if t.weight.Some? then t.weight.value else 100)
  }

  /** The results that are there, in order. */
  function FilterMap<A, B>(f: A -> Option<B>, items: seq<A>): seq<B> {
    if items == [] then []
    else (match f(items[0]) case Some(b) => [b] case None => []) + FilterMap(f, items[1..])
  }

  /** The endpoints of the targets that can be parsed. */
  function Endpoints(targets: seq<Target>): seq<Endpoint> {
    FilterMap(TargetEndpoint, targets)
  }

  /** Any host, one with colons included, and any port are read back from a target. */
  lemma {:induction false} TargetReadsBack(host: string, port: nat, weight: nat)
    requires port <= MAX_PORT
    ensures ParseTarget(host + ":" + Decimal(port), weight) == Some(Endpoint(host, port, weight))
  {
    DecimalIsWord(port);
    RSplitOnceIsUnique(host, Decimal(port), ':');
    ParsePortOfDecimal(port);
  }

  lemma {:induction false} BeforeSlash(authority: string, path: string)
    requires '/' !in authority && (path == [] || path[0] == '/')
    ensures Split(authority + path, '/')[0] == authority
  {
    if path == [] {
      assert authority + path == authority;
      SplitFirstPart(authority, [], '/');
    } else {
      assert authority + path == authority + ['/'] + path[1..];
      SplitFirstPart(authority, path[1..], '/');
    }
  }

  /** Host and port are read back from a URL whatever its path, with either scheme or none. */
  lemma {:induction false} UrlReadsBack(scheme: string, host: string, port: nat, path: string)
    requires scheme == "http://" || scheme == "https://" || scheme == ""
    requires '/' !in host && port <= MAX_PORT && (path == [] || path[0] == '/')
    ensures ParseUrl(scheme + (host + ":" + Decimal(port) + path)) == Some(Endpoint(host, port, 1))
  {
    var authority := host + ":" + Decimal(port);
    var url := scheme + (authority + path);
    assert forall k :: 0 <= k < |Decimal(port)| ==> IsDigit(Decimal(port)[k]);
    if scheme == "" {
      NoSchemeInAuthority(authority, path);
    } else if scheme == "https://" {
      assert url[4] == 's';
    }
    assert WithoutScheme(url) == authority + path;
    BeforeSlash(authority, path);
    TargetReadsBack(host, port, 1);
  }

  /** Two slashes in a row do not stand where a scheme ends unless there is one. */
  lemma {:induction false} NoSchemeInAuthority(authority: string, path: string)
    requires '/' !in authority && authority != [] && IsDigit(authority[|authority| - 1])
    requires path == [] || path[0] == '/'
    ensures WithoutScheme("" + (authority + path)) == authority + path
  {
    var url := authority + path;
    assert forall k :: 0 <= k < |authority| ==> url[k] == authority[k] && url[k] != '/';
    assert IsDigit(url[|authority| - 1]);
    assert "" + url == url;
    assert "http://"[5] == '/' && "https://"[6] == '/';
  }

  /** A path that starts with a tilde is a regular expression. */
  function ConvertPath(path: string): (PathKind, string) {
    if "~" <= path then (Regex, if "/" <= path[1..] then path[1..] else "/" + path[1..])
    else (Prefix, path)
  }

  /** The endpoint a service gives itself by host: its port or 80. Its URL comes first. */
  lemma {:induction false} HostIsEndpoint(s: KongService, host: string)
    requires s.host == Some(host)
    ensures s.url == None && s.port == None ==> OwnEndpoint(s) == Some(Endpoint(host, 80, 1))
    ensures s.url == None && s.port != None ==> OwnEndpoint(s) == Some(Endpoint(host, s.port.value, 1))
    ensures s.url != None ==> OwnEndpoint(s) == ParseUrl(s.url.value)
  {
  }

  function TargetText(host: string, port: nat): string {
    host + ":" + Decimal(port)
  }

  /** Targets keep their order and their weights, 100 by default; what cannot be parsed is left out. */
  lemma {:induction false} TargetsAreEndpoints(host: string, port: nat, weight: Option<nat>, rest: seq<Target>)
    requires port <= MAX_PORT
    ensures Endpoints([Target(TargetText(host, port), weight)] + rest)
            == [Endpoint(host, port, match weight case Some(w) => w case None => 100)] + Endpoints(rest)
    ensures Endpoints([Target(host, weight)] + rest) ==
            (if TargetEndpoint(Target(host, weight)).None? then [] else [TargetEndpoint(Target(host, weight)).value])
            + Endpoints(rest)
  {
    TargetReadsBack(host, port, match weight case Some(w) => w case None => 100);
    assert ([Target(TargetText(host, port), weight)] + rest)[1..] == rest;
    assert ([Target(host, weight)] + rest)[1..] == rest;
  }

  // ---------- What the import computes ----------

  function AddUpstream(g: Gateway, u: KongUpstream): Gateway {
    var endpoints := Endpoints(u.targets);
    if endpoints == [] then g.(warnings := g.warnings + [NoValidTargets(u.name)])
    else g.(upstreams := g.upstreams[u.name := Upstream(u.name, endpoints)])
  }

  function AddService(g: Gateway, s: KongService): Gateway {
    var up, own := UpstreamName(s.name), OwnEndpoint(s);
    if up !in g.upstreams && own.None? then g.(warnings := g.warnings + [NoEndpoint(s.name)])
    else
      g.(upstreams := if up in g.upstreams then g.upstreams else g.upstreams[up := Upstream(up, [own.value])],
         services := g.services[s.name := Service(s.name, up)])
  }

  /** Defines the service route number `idx` refers to, as a stub if need be. */
  function EnsureService(g: Gateway, idx: nat, name: string): Gateway {
    if name in g.services then g
    else
      var up := UpstreamName(name);
      g.(upstreams := if up in g.upstreams then g.upstreams else g.upstreams[up := Upstream(up, [STUB])],
         services := g.services[name := Service(name, up)],
         warnings := g.warnings + [StubService(idx, name)])
  }

  function GeneratedName(idx: nat, pidx: nat): string {
    "route-" + (Decimal(idx) + ['-'] + Decimal(pidx))
  }

  /** The gateway route of path `pidx` of route `idx`. */
  function RouteAt(kong: Kong, idx: nat, pidx: nat): Route
    requires idx < |kong.routes| && pidx < |kong.routes[idx].Paths()|
  {
    var r := kong.routes[idx];
    var (kind, value) := ConvertPath(r.Paths()[pidx]);
    Route(if r.name.Some? then r.name.value else GeneratedName(idx, pidx), kong.ServiceRef(r), kind, value,
          if r.hosts == [] then None else Some(r.hosts[0]), r.methods)
  }

  /** The gateway routes of route `idx`, one for each of its paths. */
  function AllPathRoutes(kong: Kong, idx: nat): seq<Route>
    requires idx < |kong.routes|
  {
    var n := |kong.routes[idx].Paths()|;
    seq(n, p requires 0 <= p < n => RouteAt(kong, idx, p))
  }

  function AddRoute(kong: Kong, g: Gateway, idx: nat): Gateway
    requires idx < |kong.routes|
  {
    var r := kong.routes[idx];
    var ensured := EnsureService(g, idx, kong.ServiceRef(r));
    ensured.(routes := ensured.routes + AllPathRoutes(kong, idx),
             warnings := ensured.warnings + if r.stripPath == Some(true) then [StripPath(idx)] else [])
  }

  function AfterUpstreams(upstreams: seq<KongUpstream>): Gateway {
    if upstreams == [] then EMPTY
    else AddUpstream(AfterUpstreams(upstreams[..|upstreams| - 1]), upstreams[|upstreams| - 1])
  }

  function AfterServices(before: Gateway, services: seq<KongService>): Gateway {
    if services == [] then before
    else AddService(AfterServices(before, services[..|services| - 1]), services[|services| - 1])
  }

  function AfterRoutes(kong: Kong, before: Gateway, n: nat): Gateway
    requires n <= |kong.routes|
  {
    if n == 0 then before else AddRoute(kong, AfterRoutes(kong, before, n - 1), n - 1)
  }

  /** The gateway of the upstreams alone. */
  function Upstreams(kong: Kong): Gateway {
    AfterUpstreams(kong.upstreams)
  }

  /** The gateway of the upstreams and the services. */
  function Services(kong: Kong): Gateway {
    AfterServices(Upstreams(kong), kong.services)
  }

  function Import(kong: Kong): Gateway {
    AfterRoutes(kong, Services(kong), |kong.routes|)
  }

  // ---------- The import ----------

  /** `build_gateway_from_kong`: the three loops over one set of growing collections. */
  method BuildGateway(kong: Kong) returns (g: Gateway, allowEmptyRoutes: bool)
    ensures g == Import(kong)
    ensures allowEmptyRoutes <==> g.routes == []
  {
    var upstreams: map<string, Upstream> := map[];
    var services: map<string, Service> := map[];
    var warnings: seq<Warning> := [];
    var i := 0;
    while i < |kong.upstreams|
      invariant 0 <= i <= |kong.upstreams|
      invariant Gateway(upstreams, services, [], warnings) == AfterUpstreams(kong.upstreams[..i])
    {
      var up := kong.upstreams[i];
      assert kong.upstreams[..i + 1][..i] == kong.upstreams[..i];
      i := i + 1;
      var endpoints := Endpoints(up.targets);
      if endpoints == [] {
        warnings := warnings + [NoValidTargets(up.name)];
        continue;
      }
      upstreams := upstreams[up.name := Upstream(up.name, endpoints)];
    }
    assert kong.upstreams[..i] == kong.upstreams;
    i := 0;
    while i < |kong.services|
      invariant 0 <= i <= |kong.services|
      invariant Gateway(upstreams, services, [], warnings) == AfterServices(Upstreams(kong), kong.services[..i])
    {
      var svc := kong.services[i];
      assert kong.services[..i + 1][..i] == kong.services[..i];
      i := i + 1;
      var upstreamName := UpstreamName(svc.name);
      if upstreamName !in upstreams {
        var endpoint := OwnEndpoint(svc);
        if endpoint.None? {
          warnings := warnings + [NoEndpoint(svc.name)];
          continue;
        }
        upstreams := upstreams[upstreamName := Upstream(upstreamName, [endpoint.value])];
      }
      services := services[svc.name := Service(svc.name, upstreamName)];
    }
    assert kong.services[..i] == kong.services;
    g := BuildRoutes(kong, Gateway(upstreams, services, [], warnings));
    allowEmptyRoutes := g.routes == [];
  }

  /** Creates a stub for a service that is not there. */
  method DefineService(g: Gateway, idx: nat, name: string)
      returns (upstreams: map<string, Upstream>, services: map<string, Service>, warnings: seq<Warning>)
    ensures Gateway(upstreams, services, g.routes, warnings) == EnsureService(g, idx, name)
  {
    upstreams, services, warnings := g.upstreams, g.services, g.warnings;
    if name !in services {
      warnings := warnings + [StubService(idx, name)];
      var upstreamName := UpstreamName(name);
      if upstreamName !in upstreams {
        upstreams := upstreams[upstreamName := Upstream(upstreamName, [STUB])];
      }
      services := services[name := Service(name, upstreamName)];
    }
  }

  /** The inner loop: one gateway route for each path of a route. */
  method BuildPathRoutes(kong: Kong, idx: nat) returns (routes: seq<Route>)
    requires idx < |kong.routes|
    ensures routes == AllPathRoutes(kong, idx)
  {
    var kr := kong.routes[idx];
    var paths := kr.Paths();
    var host := if kr.hosts == [] then None else Some(kr.hosts[0]);
    routes := [];
    var pidx := 0;
    while pidx < |paths|
      invariant 0 <= pidx <= |paths|
      invariant |routes| == pidx && forall p :: 0 <= p < pidx ==> routes[p] == RouteAt(kong, idx, p)
    {
      var routeName := if kr.name.Some? then kr.name.value else GeneratedName(idx, pidx);
      var (kind, value) := ConvertPath(paths[pidx]);
      routes := routes + [Route(routeName, kong.ServiceRef(kr), kind, value, host, kr.methods)];
      pidx := pidx + 1;
    }
  }

  /** The loop over the routes, given what the loops before it built. */
  method BuildRoutes(kong: Kong, before: Gateway) returns (g: Gateway)
    ensures g == AfterRoutes(kong, before, |kong.routes|)
  {
    var Gateway(upstreams, services, routes, warnings) := before;
    var idx := 0;
    while idx < |kong.routes|
      invariant 0 <= idx <= |kong.routes|
      invariant Gateway(upstreams, services, routes, warnings) == AfterRoutes(kong, before, idx)
    {
      var kr := kong.routes[idx];
      var serviceName := kong.ServiceRef(kr);
      upstreams, services, warnings := DefineService(Gateway(upstreams, services, routes, warnings), idx, serviceName);
      var pathRoutes := BuildPathRoutes(kong, idx);
      routes := routes + pathRoutes;
      if kr.stripPath == Some(true) {
        warnings := warnings + [StripPath(idx)];
      }
      idx := idx + 1;
    }
    g := Gateway(upstreams, services, routes, warnings);
  }

  // ---------- Every reference is defined ----------

  predicate UpstreamsDefined(g: Gateway) {
    && (forall n :: n in g.upstreams ==> g.upstreams[n].name == n && g.upstreams[n].endpoints != [])
    && (forall n :: n in g.services ==> g.services[n].name == n && g.services[n].upstream in g.upstreams)
  }

  predicate Closed(g: Gateway) {
    UpstreamsDefined(g) && forall k :: 0 <= k < |g.routes| ==> g.routes[k].service in g.services
  }

  lemma {:induction false} UpstreamsKeepClosed(upstreams: seq<KongUpstream>)
    ensures Closed(AfterUpstreams(upstreams))
    ensures AfterUpstreams(upstreams).routes == [] && AfterUpstreams(upstreams).services == map[]
  {
    if upstreams != [] {
      UpstreamsKeepClosed(upstreams[..|upstreams| - 1]);
    }
  }

  lemma {:induction false} ServicesKeepClosed(before: Gateway, services: seq<KongService>)
    requires Closed(before)
    ensures Closed(AfterServices(before, services)) && AfterServices(before, services).routes == before.routes
  {
    if services != [] {
      ServicesKeepClosed(before, services[..|services| - 1]);
    }
  }

  lemma {:induction false} RouteKeepsClosed(kong: Kong, g: Gateway, idx: nat)
    requires idx < |kong.routes| && Closed(g)
    ensures Closed(AddRoute(kong, g, idx))
  {
    var ensured := EnsureService(g, idx, kong.ServiceRef(kong.routes[idx]));
    assert UpstreamsDefined(ensured);
    var added := AllPathRoutes(kong, idx);
    forall k | 0 <= k < |added|
      ensures added[k].service in ensured.services
    {
      assert added[k] == RouteAt(kong, idx, k);
    }
    var after := AddRoute(kong, g, idx);
    assert after.upstreams == ensured.upstreams && after.services == ensured.services;
    assert after.routes == ensured.routes + added;
  }

  /** What every route keeps, all routes keep. */
  lemma {:induction false} RoutesKeep(kong: Kong, before: Gateway, n: nat, kept: Gateway -> bool)
    requires n <= |kong.routes| && kept(before)
    requires forall g, idx: nat :: idx < |kong.routes| && kept(g) ==> kept(AddRoute(kong, g, idx))
    ensures kept(AfterRoutes(kong, before, n))
  {
    if n > 0 {
      RoutesKeep(kong, before, n - 1, kept);
    }
  }

  /** In every imported gateway all references are defined and every upstream has an endpoint. */
  lemma {:induction false} ImportIsClosed(kong: Kong)
    ensures Closed(Import(kong))
  {
    UpstreamsKeepClosed(kong.upstreams);
    ServicesKeepClosed(Upstreams(kong), kong.services);
    forall g, idx: nat | idx < |kong.routes| && Closed(g)
      ensures Closed(AddRoute(kong, g, idx))
    {
      RouteKeepsClosed(kong, g, idx);
    }
    RoutesKeep(kong, Services(kong), |kong.routes|, Closed);
  }

  // ---------- Which services, with which endpoints ----------

  /** The endpoints of the last Kong upstream of a name that has any. */
  function LastListed(upstreams: seq<KongUpstream>, name: string): Option<seq<Endpoint>> {
    if upstreams == [] then None
    else
      var last := upstreams[|upstreams| - 1];
      if last.name == name && Endpoints(last.targets) != [] then Some(Endpoints(last.targets))
      else LastListed(upstreams[..|upstreams| - 1], name)
  }

  /** The own endpoint of the first Kong service of a name that has one. */
  function FirstOwn(services: seq<KongService>, name: string): Option<Endpoint> {
    if services == [] then None
    else
      var earlier, last := FirstOwn(services[..|services| - 1], name), services[|services| - 1];
      if earlier.Some? then earlier else if last.name == name then OwnEndpoint(last) else None
  }

  predicate IsService(services: seq<KongService>, name: string) {
    exists k :: 0 <= k < |services| && services[k].name == name
  }

  predicate IsReferenced(kong: Kong, n: nat, name: string)
    requires n <= |kong.routes|
  {
    exists k :: 0 <= k < n && kong.ServiceRef(kong.routes[k]) == name
  }

  /** The endpoints configured for a service: its Kong upstream's, or else the service's own. */
  function Configured(kong: Kong, services: seq<KongService>, name: string): Option<seq<Endpoint>> {
    var listed, own := LastListed(kong.upstreams, UpstreamName(name)), FirstOwn(services, name);
    if listed.Some? then listed else if own.Some? then Some([own.value]) else None
  }

  function EndpointsAt(g: Gateway, upstream: string): Option<seq<Endpoint>> {
    if upstream in g.upstreams then Some(g.upstreams[upstream].endpoints) else None
  }

  lemma {:induction false} ListedUpstreams(upstreams: seq<KongUpstream>, up: string)
    ensures EndpointsAt(AfterUpstreams(upstreams), up) == LastListed(upstreams, up)
  {
    if upstreams != [] {
      ListedUpstreams(upstreams[..|upstreams| - 1], up);
    }
  }

  lemma {:induction false} AddedServiceAt(g: Gateway, s: KongService, name: string)
    ensures var after, up, own := AddService(g, s), UpstreamName(name), OwnEndpoint(s);
            && EndpointsAt(after, up)
               == (if s.name == name && EndpointsAt(g, up).None? && own.Some? then Some([own.value])
                 else EndpointsAt(g, up))
            && (name in after.services <==> name in g.services || (s.name == name && EndpointsAt(after, up).Some?))
  {
    if s.name != name && UpstreamName(s.name) == UpstreamName(name) {
      UpstreamNameInjective(s.name, name);
    }
  }

  lemma {:induction false} ServicesUpTo(kong: Kong, before: Gateway, services: seq<KongService>, name: string)
    requires before.services == map[]
    requires EndpointsAt(before, UpstreamName(name)) == LastListed(kong.upstreams, UpstreamName(name))
    ensures var g, configured := AfterServices(before, services), Configured(kong, services, name);
            && EndpointsAt(g, UpstreamName(name)) == configured
            && (name in g.services <==> IsService(services, name) && configured.Some?)
  {
    if services != [] {
      var earlier, last := services[..|services| - 1], services[|services| - 1];
      ServicesUpTo(kong, before, earlier, name);
      AddedServiceAt(AfterServices(before, earlier), last, name);
      assert services == earlier + [last];
      IsServiceSnoc(earlier, last, name);
    }
  }

  lemma {:induction false} IsServiceSnoc(services: seq<KongService>, last: KongService, name: string)
    ensures IsService(services + [last], name) <==> IsService(services, name) || last.name == name
  {
    var all := services + [last];
    assert all[|services|] == last;
    if k :| 0 <= k < |services| && services[k].name == name {
      assert all[k].name == name;
    }
  }

  lemma {:induction false} EnsuredAt(g: Gateway, idx: nat, ref: string, name: string)
    ensures var after, up := EnsureService(g, idx, ref), UpstreamName(name);
            && (name in after.services <==> name in g.services || ref == name)
            && EndpointsAt(after, up)
               == if ref == name && name !in g.services && EndpointsAt(g, up).None? then Some([STUB])
                 else EndpointsAt(g, up)
  {
    if ref != name && UpstreamName(ref) == UpstreamName(name) {
      UpstreamNameInjective(ref, name);
    }
  }

  lemma {:induction false} IsReferencedNext(kong: Kong, n: nat, name: string)
    requires n < |kong.routes|
    ensures IsReferenced(kong, n + 1, name) <==> IsReferenced(kong, n, name) || kong.ServiceRef(kong.routes[n]) == name
  {
  }

  lemma {:induction false} RoutesUpTo(kong: Kong, before: Gateway, n: nat, name: string)
    requires n <= |kong.routes|
    requires name in before.services ==> EndpointsAt(before, UpstreamName(name)).Some?
    ensures var g, up := AfterRoutes(kong, before, n), UpstreamName(name);
            && (name in g.services <==> IsReferenced(kong, n, name) || name in before.services)
            && EndpointsAt(g, up)
               == if EndpointsAt(before, up).None? && IsReferenced(kong, n, name) then Some([STUB])
                 else EndpointsAt(before, up)
  {
    if n > 0 {
      var g, ref := AfterRoutes(kong, before, n - 1), kong.ServiceRef(kong.routes[n - 1]);
      RoutesUpTo(kong, before, n - 1, name);
      EnsuredAt(g, n - 1, ref, name);
      IsReferencedNext(kong, n - 1, name);
      var ensured, after := EnsureService(g, n - 1, ref), AfterRoutes(kong, before, n);
      assert after.services == ensured.services && after.upstreams == ensured.upstreams;
    }
  }

  /** What the import knows of one service name. */
  lemma {:induction false} ImportedService(kong: Kong, name: string)
    ensures var g, configured := Import(kong), Configured(kong, kong.services, name);
            && (name in g.services
                <==> IsReferenced(kong, |kong.routes|, name) || (IsService(kong.services, name) && configured.Some?))
            && EndpointsAt(g, UpstreamName(name))
               == if configured.None? && IsReferenced(kong, |kong.routes|, name) then Some([STUB]) else configured
  {
    ListedUpstreams(kong.upstreams, UpstreamName(name));
    UpstreamsKeepClosed(kong.upstreams);
    ServicesUpTo(kong, Upstreams(kong), kong.services, name);
    RoutesUpTo(kong, Services(kong), |kong.routes|, name);
  }

  /**
   A service is imported exactly if a route refers to it or it is a Kong service with a
   configured endpoint.
   */
  lemma {:induction false} ServiceImportedIff(kong: Kong, name: string)
    ensures name in Import(kong).services
            <==> IsReferenced(kong, |kong.routes|, name)
                 || (IsService(kong.services, name) && Configured(kong, kong.services, name).Some?)
  {
    ImportedService(kong, name);
  }

  /**
   An imported service is served by the endpoints of its Kong upstream, or else by its own, and by
   the stub only if neither is configured.
   */
  lemma {:induction false} ServiceEndpoints(kong: Kong, name: string)
    requires name in Import(kong).services
    ensures EndpointsAt(Import(kong), UpstreamName(name))
            == Some(match Configured(kong, kong.services, name) case Some(endpoints) => endpoints case None => [STUB])
  {
    ImportedService(kong, name);
  }

  // ---------- Which stubs are reported ----------

  predicate NoStubs(warnings: seq<Warning>) {
    forall w :: w in warnings ==> !w.StubService?
  }

  lemma {:induction false} UpstreamsReportNoStubs(upstreams: seq<KongUpstream>)
    ensures NoStubs(AfterUpstreams(upstreams).warnings)
  {
    if upstreams != [] {
      UpstreamsReportNoStubs(upstreams[..|upstreams| - 1]);
    }
  }

  lemma {:induction false} ServicesReportNoStubs(before: Gateway, services: seq<KongService>)
    requires NoStubs(before.warnings)
    ensures NoStubs(AfterServices(before, services).warnings)
  {
    if services != [] {
      ServicesReportNoStubs(before, services[..|services| - 1]);
    }
  }

  lemma {:induction false} StubsReported(kong: Kong, before: Gateway, n: nat, idx: nat, name: string)
    requires n <= |kong.routes| && NoStubs(before.warnings)
    requires name in before.services ==> EndpointsAt(before, UpstreamName(name)).Some?
    ensures StubService(idx, name) in AfterRoutes(kong, before, n).warnings
            <==> idx < n && kong.ServiceRef(kong.routes[idx]) == name && !IsReferenced(kong, idx, name)
                 && name !in before.services
  {
    if n > 0 {
      var g := AfterRoutes(kong, before, n - 1);
      StubsReported(kong, before, n - 1, idx, name);
      RoutesUpTo(kong, before, n - 1, name);
    }
  }

  /**
   A stub is reported for a route exactly if its service is not imported otherwise and no earlier
   route refers to it: once for each stub, at the first reference.
   */
  lemma {:induction false} StubReportedIff(kong: Kong, idx: nat, name: string)
    ensures StubService(idx, name) in Import(kong).warnings
            <==> && idx < |kong.routes| && kong.ServiceRef(kong.routes[idx]) == name
                 && !IsReferenced(kong, idx, name)
                 && !(IsService(kong.services, name) && Configured(kong, kong.services, name).Some?)
  {
    ListedUpstreams(kong.upstreams, UpstreamName(name));
    UpstreamsKeepClosed(kong.upstreams);
    ServicesUpTo(kong, Upstreams(kong), kong.services, name);
    UpstreamsReportNoStubs(kong.upstreams);
    ServicesReportNoStubs(Upstreams(kong), kong.services);
    StubsReported(kong, Services(kong), |kong.routes|, idx, name);
  }

  // ---------- Which other warnings are given ----------

  /** Whether a warning about routes is given: only those of the route loop are. */
  predicate IsAboutRoute(w: Warning) {
    w.StubService? || w.StripPath?
  }

  lemma {:induction false} StripReports(kong: Kong, before: Gateway, n: nat, idx: nat)
    requires n <= |kong.routes| && forall w :: w in before.warnings ==> !IsAboutRoute(w)
    ensures StripPath(idx) in AfterRoutes(kong, before, n).warnings
            <==> idx < n && kong.routes[idx].stripPath == Some(true)
  {
    if n > 0 {
      StripReports(kong, before, n - 1, idx);
    }
  }

  lemma {:induction false} RoutesKeepOthers(kong: Kong, before: Gateway, n: nat, w: Warning)
    requires n <= |kong.routes| && !IsAboutRoute(w)
    ensures w in AfterRoutes(kong, before, n).warnings <==> w in before.warnings
  {
    if n > 0 {
      RoutesKeepOthers(kong, before, n - 1, w);
    }
  }

  /** Some upstream of a name has no target that can be parsed. */
  predicate HasNoTargets(upstreams: seq<KongUpstream>, name: string) {
    exists k :: 0 <= k < |upstreams| && upstreams[k].name == name && Endpoints(upstreams[k].targets) == []
  }

  lemma {:induction false} UpstreamReports(upstreams: seq<KongUpstream>, w: Warning)
    ensures w in AfterUpstreams(upstreams).warnings <==> w.NoValidTargets? && HasNoTargets(upstreams, w.upstream)
  {
    if upstreams != [] {
      var earlier, last := upstreams[..|upstreams| - 1], upstreams[|upstreams| - 1];
      UpstreamReports(earlier, w);
      assert upstreams[|upstreams| - 1] == last;
      assert forall k :: 0 <= k < |earlier| ==> upstreams[k] == earlier[k];
    }
  }

  /** Some service of a name comes without endpoint when none is configured yet. */
  predicate IsStranded(kong: Kong, services: seq<KongService>, name: string) {
    exists k :: 0 <= k < |services| && services[k].name == name && OwnEndpoint(services[k]).None?
                && Configured(kong, services[..k], name).None?
  }

  lemma {:induction false} StrandedNext(kong: Kong, earlier: seq<KongService>, last: KongService, name: string)
    ensures IsStranded(kong, earlier + [last], name)
            <==> IsStranded(kong, earlier, name)
                 || (last.name == name && OwnEndpoint(last).None? && Configured(kong, earlier, name).None?)
  {
    var all := earlier + [last];
    assert all[|earlier|] == last && all[..|earlier|] == earlier;
    assert forall k :: 0 <= k < |earlier| ==> all[k] == earlier[k] && all[..k] == earlier[..k];
  }

  lemma {:induction false} ServiceReports(kong: Kong, before: Gateway, services: seq<KongService>, w: Warning)
    requires before == Upstreams(kong)
    ensures w in AfterServices(before, services).warnings
            <==> w in before.warnings || (w.NoEndpoint? && IsStranded(kong, services, w.service))
  {
    if services != [] {
      var earlier, last := services[..|services| - 1], services[|services| - 1];
      ServiceReports(kong, before, earlier, w);
      ListedUpstreams(kong.upstreams, UpstreamName(last.name));
      UpstreamsKeepClosed(kong.upstreams);
      ServicesUpTo(kong, before, earlier, last.name);
      assert services == earlier + [last];
      if w.NoEndpoint? {
        StrandedNext(kong, earlier, last, w.service);
      }
    }
  }

  /**
   Each other warning is given exactly for its cause: an upstream without valid targets, a service that
   comes without endpoint, a route whose path is to be stripped.
   */
  lemma {:induction false} WarningsIff(kong: Kong, name: string, idx: nat)
    ensures NoValidTargets(name) in Import(kong).warnings <==> HasNoTargets(kong.upstreams, name)
    ensures NoEndpoint(name) in Import(kong).warnings <==> IsStranded(kong, kong.services, name)
    ensures StripPath(idx) in Import(kong).warnings
            <==> idx < |kong.routes| && kong.routes[idx].stripPath == Some(true)
  {
    var n := |kong.routes|;
    forall w
      ensures w in Services(kong).warnings
              <==> || (w.NoValidTargets? && HasNoTargets(kong.upstreams, w.upstream))
                   || (w.NoEndpoint? && IsStranded(kong, kong.services, w.service))
    {
      UpstreamReports(kong.upstreams, w);
      ServiceReports(kong, Upstreams(kong), kong.services, w);
    }
    RoutesKeepOthers(kong, Services(kong), n, NoValidTargets(name));
    RoutesKeepOthers(kong, Services(kong), n, NoEndpoint(name));
    StripReports(kong, Services(kong), n, idx);
  }

  // ---------- What a route matches ----------

  /**
   Path `pidx` of route `idx` is imported as a route of its service with all methods and the first host:
   a prefix match of the path as it is, or a regular expression if it starts with a tilde, to which a
   leading slash is added where there is none.
   */
  lemma {:induction false} RouteMatches(kong: Kong, idx: nat, pidx: nat) returns (k: nat)
    requires idx < |kong.routes| && pidx < |kong.routes[idx].Paths()|
    ensures k < |Import(kong).routes|
    ensures var from, to, path := kong.routes[idx], Import(kong).routes[k], kong.routes[idx].Paths()[pidx];
            && to.methods == from.methods
            && (from.service.Some? ==> to.service == from.service.value)
            && (from.service.None? ==>
                  to.service == if kong.services == [] then "default-service" else kong.services[0].name)
            && (from.hosts == [] ==> to.host == None) && (from.hosts != [] ==> to.host == Some(from.hosts[0]))
            && (path == [] || path[0] != '~' ==> to.kind == Prefix && to.path == path)
            && (path != [] && path[0] == '~' ==>
                  && to.kind == Regex && to.path != [] && to.path[0] == '/'
                  && (to.path == path[1..] || to.path == ['/'] + path[1..]))
            && ("~/" <= path ==> to.path == path[1..])
            && (from.paths == [] ==> to.kind == Prefix && to.path == "/")
            && (from.name.Some? ==> to.name == from.name.value)
  {
    ImportedRoutes(kong);
    var part := RoutesByNumber(kong);
    k := |Flat(part, idx)| + pidx;
    FlatAt(part, idx, |kong.routes|, pidx);
    assert part(idx)[pidx] == RouteAt(kong, idx, pidx);
    PathConverts(kong.routes[idx].Paths()[pidx]);
  }

  lemma {:induction false} PathConverts(path: string)
    ensures var (kind, to) := ConvertPath(path);
            && (path == [] || path[0] != '~' ==> kind == Prefix && to == path)
            && (path != [] && path[0] == '~' ==>
                  && kind == Regex && to != [] && to[0] == '/'
                  && (to == path[1..] || to == ['/'] + path[1..]))
            && ("~/" <= path ==> to == path[1..])
  {
  }

  // ---------- Route names ----------

  lemma {:induction false} GeneratedNamesDiffer(i: nat, p: nat, j: nat, q: nat)
    requires GeneratedName(i, p) == GeneratedName(j, q)
    ensures i == j && p == q
  {
    var a, b := Decimal(i) + ['-'] + Decimal(p), Decimal(j) + ['-'] + Decimal(q);
    assert GeneratedName(i, p)[6..] == a && GeneratedName(j, q)[6..] == b;
    assert forall k :: 0 <= k < |Decimal(i)| ==> IsDigit(Decimal(i)[k]);
    assert forall k :: 0 <= k < |Decimal(j)| ==> IsDigit(Decimal(j)[k]);
    SplitOnceIsUnique(Decimal(i), Decimal(p), '-');
    SplitOnceIsUnique(Decimal(j), Decimal(q), '-');
    DecimalInjective(i, j);
    DecimalInjective(p, q);
  }

  /** The first `n` of numbered sequences, one after the other. */
  function Flat<T>(part: nat -> seq<T>, n: nat): seq<T> {
    if n == 0 then [] else Flat(part, n - 1) + part(n - 1)
  }

  function RoutesByNumber(kong: Kong): nat -> seq<Route> {
    (idx: nat) => if idx < |kong.routes| then AllPathRoutes(kong, idx) else []
  }

  /** The gateway routes of the first `n` routes. */
  function RoutesOf(kong: Kong, n: nat): seq<Route> {
    Flat(RoutesByNumber(kong), n)
  }

  function RouteStep(kong: Kong): (Gateway, nat) -> Gateway {
    (g: Gateway, idx: nat) => if idx < |kong.routes| then AddRoute(kong, g, idx) else g
  }

  /** The first `n` of numbered steps. */
  function Iterate(step: (Gateway, nat) -> Gateway, before: Gateway, n: nat): Gateway {
    if n == 0 then before else step(Iterate(step, before, n - 1), n - 1)
  }

  lemma {:induction false} RoutesIterate(kong: Kong, before: Gateway, n: nat)
    requires n <= |kong.routes|
    ensures AfterRoutes(kong, before, n) == Iterate(RouteStep(kong), before, n)
  {
    if n > 0 {
      RoutesIterate(kong, before, n - 1);
    }
  }

  lemma {:induction false} RoutesAppended(step: (Gateway, nat) -> Gateway, before: Gateway, n: nat,
                                          part: nat -> seq<Route>)
    requires before.routes == []
    requires forall g, idx: nat :: idx < n ==> step(g, idx).routes == g.routes + part(idx)
    ensures Iterate(step, before, n).routes == Flat(part, n)
  {
    if n > 0 {
      RoutesAppended(step, before, n - 1, part);
    }
  }

  lemma {:induction false} ImportedRoutes(kong: Kong)
    ensures Import(kong).routes == RoutesOf(kong, |kong.routes|)
  {
    UpstreamsKeepClosed(kong.upstreams);
    ServicesKeepClosed(Upstreams(kong), kong.services);
    RoutesIterate(kong, Services(kong), |kong.routes|);
    RoutesAppended(RouteStep(kong), Services(kong), |kong.routes|, RoutesByNumber(kong));
  }

  function NameOf(): Route -> string {
    (r: Route) => r.name
  }

  predicate DistinctKeys<T(!new)>(items: seq<T>, key: T -> string) {
    forall k, l :: 0 <= k < l < |items| ==> key(items[k]) != key(items[l])
  }

  predicate DistinctNames(routes: seq<Route>) {
    DistinctKeys(routes, NameOf())
  }

  /** Routes `i` and `j` share no gateway route name. */
  predicate Apart(kong: Kong, i: nat, j: nat)
    requires i < j < |kong.routes|
  {
    var a, b := kong.routes[i], kong.routes[j];
    if a.name.Some? && b.name.Some? then a.name != b.name
    else if a.name.Some? then forall q :: 0 <= q < |b.Paths()| ==> a.name.value != GeneratedName(j, q)
    else if b.name.Some? then forall p :: 0 <= p < |a.Paths()| ==> b.name.value != GeneratedName(i, p)
    else true
  }

  /**
   Every named route has one path at most, no two named routes share a name, and no name looks
   like one generated for a nameless route.
   */
  predicate NamesFit(kong: Kong, n: nat)
    requires n <= |kong.routes|
  {
    && (forall i :: 0 <= i < n && kong.routes[i].name.Some? ==> |kong.routes[i].paths| <= 1)
    && (forall i, j :: 0 <= i < j < n ==> Apart(kong, i, j))
  }

  lemma {:induction false} FlatGrows<T>(part: nat -> seq<T>, i: nat, n: nat)
    requires i < n
    ensures Flat(part, i) + part(i) <= Flat(part, n)
  {
    if i < n - 1 {
      FlatGrows(part, i, n - 1);
    }
  }

  lemma {:induction false} FlatAt<T>(part: nat -> seq<T>, i: nat, n: nat, p: nat)
    requires i < n && p < |part(i)|
    ensures |Flat(part, i)| + p < |Flat(part, n)| && Flat(part, n)[|Flat(part, i)| + p] == part(i)[p]
  {
    FlatGrows(part, i, n);
    assert (Flat(part, i) + part(i))[|Flat(part, i)| + p] == part(i)[p];
  }

  lemma {:induction false} FlatSlot<T>(part: nat -> seq<T>, n: nat, k: nat) returns (i: nat, p: nat)
    requires k < |Flat(part, n)|
    ensures i < n && p < |part(i)| && |Flat(part, i)| + p == k
  {
    if k < |Flat(part, n - 1)| {
      i, p := FlatSlot(part, n - 1, k);
    } else {
      i, p := n - 1, k - |Flat(part, n - 1)|;
    }
  }

  /** One slot comes before another. */
  predicate Before(i: nat, p: nat, j: nat, q: nat) {
    i < j || (i == j && p < q)
  }

  /** Different slots of the first `n` parts hold different keys. */
  ghost predicate SlotsApart<T>(part: nat -> seq<T>, key: T -> string, n: nat) {
    forall i: nat, p: nat, j: nat, q: nat ::
      i < n && j < n && p < |part(i)| && q < |part(j)| && Before(i, p, j, q) ==> key(part(i)[p]) != key(part(j)[q])
  }

  /** The keys along all parts are distinct exactly if different slots hold different keys. */
  lemma {:induction false} FlatDistinctIff<T(!new)>(part: nat -> seq<T>, key: T -> string, n: nat)
    ensures DistinctKeys(Flat(part, n), key) <==> SlotsApart(part, key, n)
  {
    var all := Flat(part, n);
    if SlotsApart(part, key, n) {
      forall k, l | 0 <= k < l < |all|
        ensures key(all[k]) != key(all[l])
      {
        var i, p := FlatSlot(part, n, k);
        var j, q := FlatSlot(part, n, l);
        FlatAt(part, i, n, p);
        FlatAt(part, j, n, q);
        if j < i {
          FlatGrows(part, j, i);
        }
      }
    }
    if DistinctKeys(all, key) {
      forall i: nat, p: nat, j: nat, q: nat | i < n && j < n && p < |part(i)| && q < |part(j)| && Before(i, p, j, q)
        ensures key(part(i)[p]) != key(part(j)[q])
      {
        FlatAt(part, i, n, p);
        FlatAt(part, j, n, q);
        if i < j {
          FlatGrows(part, i, j);
        }
      }
    }
  }

  /** The name of the gateway route of path `p` of route `i`. */
  function NameAt(kong: Kong, i: nat, p: nat): string
    requires i < |kong.routes|
  {
    var name := kong.routes[i].name;
    if name.Some? then name.value else GeneratedName(i, p)
  }

  /** Different slots have different names. */
  ghost predicate NamesApart(kong: Kong) {
    forall i: nat, p: nat, j: nat, q: nat ::
      (&& i < |kong.routes| && j < |kong.routes|
       && p < |kong.routes[i].Paths()| && q < |kong.routes[j].Paths()|
       && Before(i, p, j, q))
      ==> NameAt(kong, i, p) != NameAt(kong, j, q)
  }

  lemma {:induction false} PartNames(kong: Kong, i: nat)
    requires i < |kong.routes|
    ensures |RoutesByNumber(kong)(i)| == |kong.routes[i].Paths()|
    ensures forall p :: 0 <= p < |RoutesByNumber(kong)(i)| ==>
              NameOf()(RoutesByNumber(kong)(i)[p]) == NameAt(kong, i, p)
  {
  }

  lemma {:induction false} SlotsApartIff(kong: Kong)
    ensures SlotsApart(RoutesByNumber(kong), NameOf(), |kong.routes|) <==> NamesApart(kong)
  {
    forall i: nat | i < |kong.routes|
      ensures |RoutesByNumber(kong)(i)| == |kong.routes[i].Paths()|
      ensures forall p :: 0 <= p < |RoutesByNumber(kong)(i)| ==>
                NameOf()(RoutesByNumber(kong)(i)[p]) == NameAt(kong, i, p)
    {
      PartNames(kong, i);
    }
  }

  lemma {:induction false} FittingNamesApart(kong: Kong)
    requires NamesFit(kong, |kong.routes|)
    ensures NamesApart(kong)
  {
    forall i: nat, p: nat, j: nat, q: nat
      | i < |kong.routes| && j < |kong.routes| && p < |kong.routes[i].Paths()| && q < |kong.routes[j].Paths()|
        && Before(i, p, j, q)
      ensures NameAt(kong, i, p) != NameAt(kong, j, q)
    {
      if i < j {
        assert Apart(kong, i, j);
      }
      if kong.routes[i].name.None? && kong.routes[j].name.None? && GeneratedName(i, p) == GeneratedName(j, q) {
        GeneratedNamesDiffer(i, p, j, q);
      }
    }
  }

  lemma {:induction false} ApartNamesFit(kong: Kong)
    requires NamesApart(kong)
    ensures NamesFit(kong, |kong.routes|)
  {
    forall i | 0 <= i < |kong.routes| && kong.routes[i].name.Some?
      ensures |kong.routes[i].paths| <= 1
    {
      assert Before(i, 0, i, 1) && NameAt(kong, i, 0) == NameAt(kong, i, 1);
    }
    forall i, j | 0 <= i < j < |kong.routes|
      ensures Apart(kong, i, j)
    {
      ApartRoutes(kong, i, j);
    }
  }

  lemma {:induction false} ApartRoutes(kong: Kong, i: nat, j: nat)
    requires NamesApart(kong) && i < j < |kong.routes|
    ensures Apart(kong, i, j)
  {
    forall q | 0 <= q < |kong.routes[j].Paths()|
      ensures NameAt(kong, i, 0) != NameAt(kong, j, q)
    {
      assert Before(i, 0, j, q);
    }
    forall p | 0 <= p < |kong.routes[i].Paths()|
      ensures NameAt(kong, i, p) != NameAt(kong, j, 0)
    {
      assert Before(i, p, j, 0);
    }
    if kong.routes[i].name.Some? && kong.routes[j].name.None? {
      assert forall q :: 0 <= q < |kong.routes[j].Paths()| ==> NameAt(kong, j, q) == GeneratedName(j, q);
    } else if kong.routes[i].name.None? && kong.routes[j].name.Some? {
      assert forall p :: 0 <= p < |kong.routes[i].Paths()| ==> NameAt(kong, i, p) == GeneratedName(i, p);
    } else if kong.routes[i].name.Some? {
      assert NameAt(kong, i, 0) != NameAt(kong, j, 0);
    }
  }

  /**
   The imported routes have distinct names, as a valid gateway needs, exactly if names fit. A named
   route with two paths is imported as two routes of one name.
   */
  lemma {:induction false} RouteNamesDistinctIff(kong: Kong)
    ensures DistinctNames(Import(kong).routes) <==> NamesFit(kong, |kong.routes|)
  {
    ImportedRoutes(kong);
    FlatDistinctIff(RoutesByNumber(kong), NameOf(), |kong.routes|);
    SlotsApartIff(kong);
    if NamesApart(kong) {
      ApartNamesFit(kong);
    } else if NamesFit(kong, |kong.routes|) {
      FittingNamesApart(kong);
    }
  }
}
