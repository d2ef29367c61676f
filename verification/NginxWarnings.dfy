/**
 The importer's warnings about NGINX directives: each one names a line of the text and the directive
 that stands there.
 */
module NginxWarnings {
  import opened Wrappers
  import opened Text
  import opened NginxParser
  import opened NginxBlocks

  predicate AllGood(warnings: seq<Warning>, good: Warning -> bool) {
    forall k :: 0 <= k < |warnings| ==> good(warnings[k])
  }

  predicate GoodServer(s: Server, good: Warning -> bool) {
    AllGood(s.warnings, good) && forall k :: 0 <= k < |s.locations| ==> AllGood(s.locations[k].warnings, good)
  }

  predicate GoodContext(c: Context, good: Warning -> bool) {
    match c
    case InServer(s) => GoodServer(s, good)
    case InLocation(l) => AllGood(l.warnings, good)
    case _ => true
  }

  /** All warnings so far, in finished servers and in open blocks, are good. */
  predicate GoodMachine(m: Machine, good: Warning -> bool) {
    && (forall k :: 0 <= k < |m.config.servers| ==> GoodServer(m.config.servers[k], good))
    && (forall k :: 0 <= k < |m.stack| ==> GoodContext(m.stack[k], good))
  }

  /** Whatever warning the statement gives rise to is good. */
  ghost predicate Warrants(line: nat, s: Statement, good: Warning -> bool) {
    s.Simple? ==> forall advice :: good(Warning(line, s.directive, advice))
  }

  lemma {:induction false} StepKeepsGood(m: Machine, line: nat, s: Statement, good: Warning -> bool)
    requires GoodMachine(m, good) && Warrants(line, s, good)
    ensures GoodMachine(Step(m, line, s), good)
  {
    var n := |m.stack| - 1;
    if s.Simple? && m.stack != [] {
    }
  }

  lemma {:induction false} RunKeepsGood(m: Machine, statements: seq<Numbered>, good: Warning -> bool)
    requires GoodMachine(m, good)
    requires forall k :: 0 <= k < |statements| ==> Warrants(statements[k].0, statements[k].1, good)
    ensures GoodMachine(Run(m, statements), good)
    decreases |statements|
  {
    if statements != [] {
      StepKeepsGood(m, statements[0].0, statements[0].1, good);
      RunKeepsGood(Step(m, statements[0].0, statements[0].1), statements[1..], good);
    }
  }

  /** Statements stand on the lines they are numbered by. */
  lemma {:induction false} StatementsStand(read: string -> Option<Statement>, lines: seq<string>, n: nat)
    ensures forall k :: 0 <= k < |ReadAll(read, lines, n)| ==>
              var (line, s) := ReadAll(read, lines, n)[k];
              n <= line < n + |lines| && read(lines[line - n]) == Some(s)
  {
    if lines != [] {
      StatementsStand(read, lines[1..], n + 1);
    }
  }

  /** The line a warning names has a simple directive of the warning's name. */
  predicate PointsAtDirective(lines: seq<string>, w: Warning) {
    && 1 <= w.line <= |lines|
    && ReadLine(lines[w.line - 1]).Some?
    && ReadLine(lines[w.line - 1]).value.Simple?
    && ReadLine(lines[w.line - 1]).value.directive == w.directive
  }

  function PointsInto(lines: seq<string>): Warning -> bool {
    (w: Warning) => PointsAtDirective(lines, w)
  }

  lemma {:induction false} StatementsWarrant(lines: seq<string>)
    ensures forall k :: 0 <= k < |Statements(lines, 1)| ==>
              Warrants(Statements(lines, 1)[k].0, Statements(lines, 1)[k].1, PointsInto(lines))
  {
    var statements := Statements(lines, 1);
    StatementsStand(ReadLine, lines, 1);
    forall k | 0 <= k < |statements|
      ensures Warrants(statements[k].0, statements[k].1, PointsInto(lines))
    {
      var (line, s) := statements[k];
      assert ReadLine(lines[line - 1]) == Some(s);
    }
  }

  /** Every warning of every parsed text points at the line with the directive it is about. */
  lemma {:induction false} WarningsPointAtDirectives(text: string)
    ensures var lines, servers := Split(text, '\n'), Parse(text).servers;
            forall k :: 0 <= k < |servers| ==> GoodServer(servers[k], PointsInto(lines))
  {
    var lines := Split(text, '\n');
    StatementsWarrant(lines);
    RunKeepsGood(START, Statements(lines, 1), PointsInto(lines));
  }

  // ---------- No warning is missing ----------

  lemma {:induction false} UnsupportedStarts(directive: string)
    requires IsUnsupported(directive)
    ensures |directive| >= 3
    ensures directive != "listen" && directive != "server_name" && directive != "proxy_pass"
    ensures directive != "auth_basic" && directive != "auth_basic_user_file" && directive != "limit_req"
    ensures directive != "limit_req_zone" && directive != "rewrite" && directive != "try_files" && directive != "if"
  {
  }

  /** What is warned of in a server block, and how. */
  lemma {:induction false} ServerRoles(directive: string)
    ensures RoleInServer("listen") == Listen && RoleInServer("server_name") == ServerName
    ensures RoleInServer("auth_basic") == RoleInServer("auth_basic_user_file") == Warned(UseAuthn)
    ensures RoleInServer("limit_req") == RoleInServer("limit_req_zone") == Warned(UseRateLimiting)
    ensures IsUnsupported(directive) ==> RoleInServer(directive) == Warned(ReviewManually)
  {
    if IsUnsupported(directive) {
      UnsupportedStarts(directive);
    }
  }

  /** What is warned of in a location block, and how. */
  lemma {:induction false} LocationRoles(directive: string)
    ensures RoleInLocation("proxy_pass") == ProxyPass && RoleInLocation("rewrite") == Warned(UsePathRewrite)
    ensures RoleInLocation("auth_basic") == RoleInLocation("auth_basic_user_file") == Warned(UseAuthn)
    ensures RoleInLocation("limit_req") == Warned(UseRateLimiting)
    ensures RoleInLocation("try_files") == Warned(NotAFileServer) && RoleInLocation("if") == Warned(UseConditions)
    ensures IsUnsupported(directive) ==> RoleInLocation(directive) == Warned(ReviewManually)
  {
    if IsUnsupported(directive) {
      UnsupportedStarts(directive);
    }
  }

  /** The warnings that the statements standing directly in a block give rise to, in order. */
  function DirectWarnings(b: Blocks, role: string -> Role): seq<Warning> {
    match b
    case End => []
    case Plain(line, directive, _, rest) =>
      (if role(directive).Warned? then [Warning(line, directive, role(directive).advice)] else [])
      + DirectWarnings(rest, role)
    case Block(_, _, _, _, _, rest) => DirectWarnings(rest, role)
  }

  /** A server block has exactly the warnings of the directives directly in it, with their lines. */
  lemma {:induction false} ServerWarnings(b: Blocks, config: Config, s: Server)
    ensures var after := Meaning(b, config, Some(InServer(s))).1.value;
            after.InServer? && after.server.warnings == s.warnings + DirectWarnings(b, RoleInServer)
    decreases b
  {
    match b
    case End =>
    case Plain(line, directive, args, rest) =>
      ServerWarnings(rest, config, InServerDirective(s, line, directive, args));
    case Block(_, _, _, _, _, rest) =>
      var (config', around) := MeaningOfBlock(b, config, Some(InServer(s)));
      ServerWarnings(rest, config', around.value.server);
  }

  /** And so has a location block. */
  lemma {:induction false} LocationWarnings(b: Blocks, config: Config, l: Location)
    ensures var after := Meaning(b, config, Some(InLocation(l))).1.value;
            after.InLocation? && after.location.warnings == l.warnings + DirectWarnings(b, RoleInLocation)
    decreases b
  {
    match b
    case End =>
    case Plain(line, directive, args, rest) =>
      LocationWarnings(rest, config, InLocationDirective(l, line, directive, args));
    case Block(_, _, _, _, _, rest) =>
      var (config', around) := MeaningOfBlock(b, config, Some(InLocation(l)));
      LocationWarnings(rest, config', l);
  }
}
