/**
 What an NGINX configuration means, block by block, and when the parser's stack machine computes
 it: exactly when every location block stands directly in a server block.
 */
module NginxBlocks {
  import opened Wrappers
  import opened Text
  import opened NginxParser

  /** Properly nested statements with their line numbers. */
  datatype Blocks =
    | End
    | Plain(line: nat, directive: string, args: string, rest: Blocks)
    | Block(line: nat, kind: string, args: string, body: Blocks, closeLine: nat, rest: Blocks)

  /** The statements of nested blocks in text order. */
  function Flatten(b: Blocks): seq<Numbered> {
    match b
    case End => []
    case Plain(line, directive, args, rest) => [(line, Simple(directive, args))] + Flatten(rest)
    case Block(line, kind, args, body, closeLine, rest) =>
      [(line, Open(kind, args))] + Flatten(body) + [(closeLine, Close)] + Flatten(rest)
  }

  /** The block as it is when it opens; a location keeps its own directives wherever it stands. */
  function Entering(kind: string, args: string): Context {
    Opened(kind, args, true).value
  }

  /**
   The meaning of the statements inside one block, or at top level: each nested block is evaluated
   on its own and its result handed to the configuration or to the block it stands in.
   */
  function Meaning(b: Blocks, config: Config, around: Option<Context>): (r: (Config, Option<Context>))
    ensures r.1.Some? == around.Some?
    ensures around.Some? ==> r.1.value.InServer? == around.value.InServer?
    decreases b, 1
  {
    match b
    case End => (config, around)
    case Plain(line, directive, args, rest) =>
      (match around
       case None => Meaning(rest, config, around)
       case Some(top) =>
         var (config', top') := Directive(config, top, line, directive, args);
         Meaning(rest, config', Some(top')))
    case Block(_, _, _, _, _, rest) =>
      var (config', around') := MeaningOfBlock(b, config, around);
      Meaning(rest, config', around')
  }

  /** One block, evaluated on its own, and what its end hands on. */
  function MeaningOfBlock(b: Blocks, config: Config, around: Option<Context>): (r: (Config, Option<Context>))
    requires b.Block?
    ensures r.1.Some? == around.Some?
    ensures around.Some? ==> r.1.value.InServer? == around.value.InServer?
    decreases b, 0
  {
    var (config', inner) := Meaning(b.body, Entered(config, b.kind, b.args), Some(Entering(b.kind, b.args)));
    (Closed(config', inner.value),
     match around case None => None case Some(top) => Some(Received(top, inner.value)))
  }

  /** Every location block stands directly in a server block. */
  predicate LocationsInServers(b: Blocks, inServer: bool) {
    match b
    case End => true
    case Plain(_, _, _, rest) => LocationsInServers(rest, inServer)
    case Block(_, kind, _, body, _, rest) =>
      && (kind == "location" ==> inServer)
      && LocationsInServers(body, kind == "server")
      && LocationsInServers(rest, inServer)
  }

  /** The machine's stack when the block `around` is open inside the blocks `outer`. */
  function StackOf(outer: seq<Context>, around: Option<Context>): seq<Context> {
    match around
    case None => []
    case Some(top) => outer + [top]
  }

  predicate IsServer(around: Option<Context>) {
    around.Some? && around.value.InServer?
  }

  /** The machine after a block, at its closing brace. */
  function AfterBlock(b: Blocks, m: Machine): Machine
    requires b.Block?
  {
    Step(Run(Step(m, b.line, Open(b.kind, b.args)), Flatten(b.body)), b.closeLine, Close)
  }

  lemma {:induction false} RunBlock(m: Machine, b: Blocks)
    requires b.Block?
    ensures Run(m, Flatten(b)) == Run(AfterBlock(b, m), Flatten(b.rest))
  {
    var open, close := [(b.line, Open(b.kind, b.args))], [(b.closeLine, Close)];
    RunJoin(m, open + Flatten(b.body) + close, Flatten(b.rest));
    RunJoin(m, open + Flatten(b.body), close);
    RunJoin(m, open, Flatten(b.body));
    RunOne(m, b.line, Open(b.kind, b.args));
    RunOne(Run(m, open + Flatten(b.body)), b.closeLine, Close);
  }

  lemma {:induction false} RunPlain(m: Machine, b: Blocks)
    requires b.Plain?
    ensures Run(m, Flatten(b)) == Run(Step(m, b.line, Simple(b.directive, b.args)), Flatten(b.rest))
  {
    RunJoin(m, [(b.line, Simple(b.directive, b.args))], Flatten(b.rest));
    RunOne(m, b.line, Simple(b.directive, b.args));
  }

  /** Closing the block on top hands it to what is open below. */
  lemma {:induction false} CloseTop(config: Config, outer: seq<Context>, around: Option<Context>, inner: Context,
                                    line: nat)
    requires around.None? ==> outer == []
    ensures Step(Machine(config, StackOf(outer, around) + [inner]), line, Close)
            == Machine(Closed(config, inner),
                       StackOf(outer, match around case None => None case Some(top) => Some(Received(top, inner))))
  {
    var below := StackOf(outer, around);
    assert (below + [inner])[..|below|] == below;
    if around.Some? {
      assert below[..|below| - 1] == outer;
    }
  }

  /**
   Where locations stand in servers, the stack machine computes the meaning of the blocks and
   leaves the blocks around them open.
   */
  lemma {:induction false} MachineComputesMeaning(b: Blocks, config: Config, outer: seq<Context>,
                                                  around: Option<Context>)
    requires around.None? ==> outer == []
    requires LocationsInServers(b, IsServer(around))
    ensures var (config', around') := Meaning(b, config, around);
            Run(Machine(config, StackOf(outer, around)), Flatten(b)) == Machine(config', StackOf(outer, around'))
    decreases b, 1
  {
    var m := Machine(config, StackOf(outer, around));
    match b
    case End =>
    case Plain(line, directive, args, rest) =>
      RunPlain(m, b);
      if around.None? {
        MachineComputesMeaning(rest, config, outer, around);
      } else {
        var (config', top) := Directive(config, around.value, line, directive, args);
        assert (outer + [around.value])[..|outer|] == outer;
        MachineComputesMeaning(rest, config', outer, Some(top));
      }
    case Block(_, _, _, _, _, rest) =>
      RunBlock(m, b);
      var (config', around') := MeaningOfBlock(b, config, around);
      BlockComputed(b, config, outer, around);
      MachineComputesMeaning(rest, config', outer, around');
  }

  lemma {:induction false} BlockComputed(b: Blocks, config: Config, outer: seq<Context>, around: Option<Context>)
    requires around.None? ==> outer == []
    requires b.Block? && (b.kind == "location" ==> IsServer(around)) && LocationsInServers(b.body, b.kind == "server")
    ensures var (config', around') := MeaningOfBlock(b, config, around);
            AfterBlock(b, Machine(config, StackOf(outer, around))) == Machine(config', StackOf(outer, around'))
    decreases b, 0
  {
    var stack, entered, inner := StackOf(outer, around), Entered(config, b.kind, b.args), Entering(b.kind, b.args);
    assert Opened(b.kind, b.args, TopIsServer(stack)) == Some(inner);
    MachineComputesMeaning(b.body, entered, stack, Some(inner));
    var (config', inner') := Meaning(b.body, entered, Some(inner));
    CloseTop(config', outer, around, inner'.value, b.closeLine);
  }

  // ---------- Exactly then ----------

  /**
   Every closing brace closes the block its own opening brace opened: each opening pushes, and the
   stack is as high again where the block closes.
   */
  predicate Matched(b: Blocks, m: Machine) {
    match b
    case End => true
    case Plain(line, directive, args, rest) => Matched(rest, Step(m, line, Simple(directive, args)))
    case Block(line, kind, args, body, _, rest) =>
      var inside := Step(m, line, Open(kind, args));
      && |inside.stack| == |m.stack| + 1
      && Matched(body, inside)
      && |Run(inside, Flatten(body)).stack| == |inside.stack|
      && Matched(rest, AfterBlock(b, m))
  }

  /** Well-placed blocks leave the stack as high as it was, and a server on top if one was there. */
  lemma {:induction false} WellPlacedKeepStack(b: Blocks, m: Machine)
    requires LocationsInServers(b, TopIsServer(m.stack))
    ensures var after := Run(m, Flatten(b)).stack;
            |after| == |m.stack| && TopIsServer(after) == TopIsServer(m.stack)
  {
    if m.stack == [] {
      MachineComputesMeaning(b, m.config, [], None);
    } else {
      var n := |m.stack| - 1;
      assert m.stack == m.stack[..n] + [m.stack[n]];
      MachineComputesMeaning(b, m.config, m.stack[..n], Some(m.stack[n]));
    }
  }

  /** A well-placed block, closed, leaves the stack likewise. */
  lemma {:induction false} WellPlacedBlockKeepsStack(b: Blocks, m: Machine)
    requires b.Block? && (b.kind == "location" ==> TopIsServer(m.stack))
             && LocationsInServers(b.body, b.kind == "server")
    ensures var after := AfterBlock(b, m).stack;
            |after| == |m.stack| && TopIsServer(after) == TopIsServer(m.stack)
  {
    if m.stack == [] {
      BlockComputed(b, m.config, [], None);
    } else {
      var n := |m.stack| - 1;
      assert m.stack == m.stack[..n] + [m.stack[n]];
      BlockComputed(b, m.config, m.stack[..n], Some(m.stack[n]));
    }
  }

  /**
   From whatever stack, the empty one of a whole text included, every closing brace closes its own
   block exactly if every location block stands directly in a server block.
   */
  lemma {:induction false} BracesMatchIff(b: Blocks, m: Machine)
    ensures Matched(b, m) <==> LocationsInServers(b, TopIsServer(m.stack))
    decreases b
  {
    match b
    case End =>
    case Plain(line, directive, args, rest) =>
      BracesMatchIff(rest, Step(m, line, Simple(directive, args)));
    case Block(line, kind, args, body, _, rest) =>
      var inside := Step(m, line, Open(kind, args));
      BracesMatchIff(rest, AfterBlock(b, m));
      OpeningPushesIff(m, line, kind, args);
      if kind == "location" ==> TopIsServer(m.stack) {
        BracesMatchIff(body, inside);
        if LocationsInServers(body, kind == "server") {
          WellPlacedKeepStack(body, inside);
          WellPlacedBlockKeepsStack(b, m);
        }
      }
  }

  /** An opening brace pushes unless it opens a location outside a server. */
  lemma {:induction false} OpeningPushesIff(m: Machine, line: nat, kind: string, args: string)
    ensures var inside := Step(m, line, Open(kind, args)).stack;
            && (|inside| == |m.stack| + 1 <==> (kind == "location" ==> TopIsServer(m.stack)))
            && (|inside| == |m.stack| + 1 ==> (TopIsServer(inside) <==> kind == "server"))
  {
  }

  /**
   So it is for a whole text: its braces match exactly if its locations stand in servers, and then it
   is parsed to the meaning of its blocks.
   */
  lemma {:induction false} TextBracesMatchIff(text: string, b: Blocks)
    requires Statements(Split(text, '\n'), 1) == Flatten(b)
    ensures Matched(b, START) <==> LocationsInServers(b, false)
    ensures Matched(b, START) ==> Parse(text) == Meaning(b, Config([], []), None).0
  {
    BracesMatchIff(b, START);
    if LocationsInServers(b, false) {
      MachineComputesMeaning(b, Config([], []), [], None);
    }
  }
}
