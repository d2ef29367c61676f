/**
 A location inside a location, which NGINX allows: the parser closes the wrong blocks and loses
 what comes later.
 */
module NginxNesting {
  import opened Wrappers
  import opened Text
  import opened NginxParser
  import opened NginxBlocks
  import opened NginxLayout

  /** A server with a location that has a location inside, and after it another location. */
  function NestedStatements(outer: string, inner: string, later: string): seq<Statement> {
    [Open("server", ""), Open("location", outer), Open("location", inner), Close, Close,
     Open("location", later), Close, Close]
  }

  /** The same as blocks, if statement number `i` stands on line `at(i)`. */
  function NestedBlocks(outer: string, inner: string, later: string, at: nat -> nat): Blocks {
    Block(at(0), "server", "",
          Block(at(1), "location", outer,
                Block(at(2), "location", inner, End, at(3), End), at(4),
                Block(at(5), "location", later, End, at(6), End)),
          at(7), End)
  }

  function NewLocation(args: string): Location {
    Location(ParseLocationArgs(args).0, ParseLocationArgs(args).1, None, [])
  }

  function Adding(s: Server, l: Location): Server {
    s.(locations := s.locations + [l])
  }

  /** A location without directives is handed to its server; inside another location it is dropped. */
  lemma {:induction false} EmptyLocationMeans(b: Blocks, config: Config, around: Context)
    requires b.Block? && b.kind == "location" && b.body == End
    ensures MeaningOfBlock(b, config, Some(around)) == (config, Some(Received(around, InLocation(NewLocation(b.args)))))
  {
  }

  lemma {:induction false} NestedMeaning(outer: string, inner: string, later: string, at: nat -> nat)
    ensures Meaning(NestedBlocks(outer, inner, later, at), Config([], []), None).0
            == Config([], [Adding(Adding(NEW_SERVER, NewLocation(outer)), NewLocation(later))])
  {
    var config, body := Config([], []), NestedBlocks(outer, inner, later, at).body;
    var start, within := InServer(NEW_SERVER), InLocation(NewLocation(outer));
    var first := InServer(Adding(NEW_SERVER, NewLocation(outer)));
    var both := Received(first, InLocation(NewLocation(later)));
    EmptyLocationMeans(body.body, config, within);
    assert Meaning(body.body, config, Some(within)) == (config, Some(within));
    assert MeaningOfBlock(body, config, Some(start)) == (config, Some(first));
    EmptyLocationMeans(body.rest, config, first);
    assert Meaning(body.rest, config, Some(first)) == (config, Some(both));
    assert Meaning(body, config, Some(start)) == (config, Some(both));
  }

  /** Outside a server block an empty location block closes the block it stands in. */
  lemma {:induction false} StrayLocationCloses(b: Blocks, m: Machine)
    requires b.Block? && b.kind == "location" && b.body == End && !TopIsServer(m.stack)
    ensures AfterBlock(b, m) == Step(m, b.closeLine, Close)
  {
  }

  lemma {:induction false} NestedRun(outer: string, inner: string, later: string, at: nat -> nat)
    ensures Run(START, Flatten(NestedBlocks(outer, inner, later, at))).config
            == Config([], [Adding(NEW_SERVER, NewLocation(outer))])
  {
    var b := NestedBlocks(outer, inner, later, at);
    var server := Machine(Config([], []), [InServer(NEW_SERVER)]);
    var nested := Machine(Config([], []), [InServer(NEW_SERVER), InLocation(NewLocation(outer))]);
    var popped := Machine(Config([], []), [InServer(Adding(NEW_SERVER, NewLocation(outer)))]);
    var done := Machine(Config([], [Adding(NEW_SERVER, NewLocation(outer))]), []);
    RunBlock(nested, b.body.body);
    StrayLocationCloses(b.body.body, nested);
    assert Step(nested, at(3), Close) == popped;
    assert Step(server, at(1), Open("location", outer)) == nested;
    assert Step(popped, at(4), Close) == done;
    RunBlock(server, b.body);
    StrayLocationCloses(b.body.rest, done);
    RunBlock(done, b.body.rest);
    assert Step(START, at(0), Open("server", "")) == server;
    RunBlock(START, b);
  }

  lemma {:induction false} NestedFlatten(outer: string, inner: string, later: string, at: nat -> nat,
                                         statements: seq<Numbered>)
    requires Unnumbered(statements) == NestedStatements(outer, inner, later)
    requires forall i :: 0 <= i < |statements| ==> statements[i].0 == at(i)
    ensures Flatten(NestedBlocks(outer, inner, later, at)) == statements
  {
    var b, plain := NestedBlocks(outer, inner, later, at), NestedStatements(outer, inner, later);
    var x := (i: nat) => if i < 8 then (at(i), plain[i]) else (0, Close);
    assert Flatten(b.body.body) == [x(2), x(3)];
    assert Flatten(b.body.rest) == [x(5), x(6)];
    assert Flatten(b.body) == [x(1), x(2), x(3), x(4), x(5), x(6)];
    assert Flatten(b) == [x(0), x(1), x(2), x(3), x(4), x(5), x(6), x(7)];
    forall i | 0 <= i < |statements|
      ensures statements[i] == x(i)
    {
      UnnumberedAt(statements, i);
    }
  }

  lemma {:induction false} UnnumberedAt(statements: seq<Numbered>, i: nat)
    requires i < |statements|
    ensures Unnumbered(statements)[i] == statements[i].1
  {
    if i > 0 {
      UnnumberedAt(statements[1..], i - 1);
    }
  }

  /** What a text says, line numbers apart. */
  function Says(text: string): seq<Statement> {
    Unnumbered(Statements(Split(text, '\n'), 1))
  }

  /**
   However three locations are named: of every text with these statements, which has the server own
   two locations, the parser finds one. The brace of the inner location closes the outer one, the
   next closes the server, and the later location is lost.
   */
  lemma {:induction false} NestedLocationLosesALaterOne(outer: string, inner: string, later: string, text: string)
      returns (b: Blocks)
    ensures Says(text) == NestedStatements(outer, inner, later) ==>
              && Statements(Split(text, '\n'), 1) == Flatten(b) && !LocationsInServers(b, false)
              && Meaning(b, Config([], []), None).0
                 == Config([], [Adding(Adding(NEW_SERVER, NewLocation(outer)), NewLocation(later))])
              && Parse(text) == Config([], [Adding(NEW_SERVER, NewLocation(outer))])
  {
    b := End;
    if Says(text) == NestedStatements(outer, inner, later) {
      b := NestedRead(outer, inner, later, Statements(Split(text, '\n'), 1));
    }
  }

  /** Such texts exist in every layout and for all printable paths. */
  lemma {:induction false} NestedTextExists(outer: string, inner: string, later: string, style: Style)
    requires IsPrintable(Open("location", outer)) && IsPrintable(Open("location", inner))
    requires IsPrintable(Open("location", later)) && AllValid(style)
    ensures Says(TextOf(NestedStatements(outer, inner, later), style)) == NestedStatements(outer, inner, later)
  {
    TextReads(NestedStatements(outer, inner, later), style);
  }

  lemma {:induction false} NestedRead(outer: string, inner: string, later: string, read: seq<Numbered>)
      returns (b: Blocks)
    requires Unnumbered(read) == NestedStatements(outer, inner, later)
    ensures read == Flatten(b) && !LocationsInServers(b, false)
    ensures Meaning(b, Config([], []), None).0
            == Config([], [Adding(Adding(NEW_SERVER, NewLocation(outer)), NewLocation(later))])
    ensures Run(START, read).config == Config([], [Adding(NEW_SERVER, NewLocation(outer))])
  {
    var at := (i: nat) => if i < |read| then read[i].0 else 0;
    b := NestedBlocks(outer, inner, later, at);
    assert !LocationsInServers(b.body.body, false) && !LocationsInServers(b.body, true);
    NestedFlatten(outer, inner, later, at, read);
    NestedMeaning(outer, inner, later, at);
    NestedRun(outer, inner, later, at);
  }
}
