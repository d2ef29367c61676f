/**
 Routes from an OpenAPI document: one route for each path that has an operation, under a name
 derived from its first operation and made unique by the least free numeric suffix.
 */
module OpenApiImport {
  import opened Wrappers
  import opened Text

  // ---------- Documents ----------

  datatype Operation = Operation(operationId: Option<string>, summary: Option<string>, tags: seq<string>)

  datatype PathItem = PathItem(
    get: Option<Operation>,
    post: Option<Operation>,
    put: Option<Operation>,
    delete: Option<Operation>,
    patch: Option<Operation>,
    options: Option<Operation>,
    head: Option<Operation>)
  {
    /** The recognised methods in their fixed order. */
    function Entries(): seq<(string, Option<Operation>)> {
      [("GET", get), ("POST", post), ("PUT", put), ("DELETE", delete),
       ("PATCH", patch), ("OPTIONS", options), ("HEAD", head)]
    }
  }

  /** The paths of a document in key order. */
  type Document = seq<(string, PathItem)>

  datatype Route = Route(name: string, path: string, methods: seq<string>, first: Operation, firstMethod: string)

  // ---------- Base names ----------

  predicate IsAlphanumeric(c: char) {
    'a' <= c <= 'z' || 'A' <= c <= 'Z' || '0' <= c <= '9'
  }

  predicate IsHyphen(c: char) {
    c == '-'
  }

  predicate IsSlash(c: char) {
    c == '/'
  }

  /** A lower-case letter, a digit or a hyphen. */
  predicate IsNameChar(c: char) {
    'a' <= c <= 'z' || '0' <= c <= '9' || c == '-'
  }

  function LowerCase(c: char): (r: char)
    ensures IsAlphanumeric(c) ==> IsNameChar(r) && r != '-'
  {
    if 'A' <= c <= 'Z' then (c as int + 32) as char else c
  }

  function LowerCaseAll(s: string): (r: string)
    ensures |r| == |s|
  {
    if s == [] then [] else [LowerCase(s[0])] + LowerCaseAll(s[1..])
  }

  /** An identifier with everything but ASCII letters and digits turned into hyphens. */
  function Hyphenated(id: string): (r: string)
    ensures |r| == |id|
    ensures forall k :: 0 <= k < |id| ==> IsNameChar(r[k]) && (IsHyphen(r[k]) <==> !IsAlphanumeric(id[k]))
  {
    if id == [] then [] else [if IsAlphanumeric(id[0]) then LowerCase(id[0]) else '-'] + Hyphenated(id[1..])
  }

  function SanitizeName(id: string): string {
    Trim(Hyphenated(id), IsHyphen)
  }

  /** A path with slashes turned into hyphens and braces and dots dropped. */
  function Slug(path: string): string {
    if path == [] then []
    else (if path[0] == '/' then "-" else if path[0] in "{}." then "" else [path[0]]) + Slug(path[1..])
  }

  function BaseName(op: Operation, path: string, method_: string): string {
    match op.operationId
    case Some(id) => SanitizeName(id)
    case None =>
      var slug := Trim(Slug(TrimStart(path, IsSlash)), IsHyphen);
      LowerCaseAll(method_) + if slug == [] then "-root" else "-" + slug
  }

  /** Character by character: a lower-case letter or digit stays, an upper-case letter becomes its lower
      case, and anything else a hyphen. */
  lemma {:induction false} HyphenatedAt(id: string, k: nat)
    requires k < |id|
    ensures var c, r := id[k], Hyphenated(id)[k];
            && ('a' <= c <= 'z' || '0' <= c <= '9' ==> r == c)
            && ('A' <= c <= 'Z' ==> 'a' <= r <= 'z' && r as int - 'a' as int == c as int - 'A' as int)
            && (!('a' <= c <= 'z' || '0' <= c <= '9' || 'A' <= c <= 'Z') ==> r == '-')
  {
    if k > 0 {
      HyphenatedAt(id[1..], k - 1);
    }
  }

  /** Lower case replaces upper-case letters by their lower case and nothing else. */
  lemma {:induction false} LowerCaseAt(s: string, k: nat)
    requires k < |s|
    ensures var c, r := s[k], LowerCaseAll(s)[k];
            if 'A' <= c <= 'Z' then 'a' <= r <= 'z' && r as int - 'a' as int == c as int - 'A' as int else r == c
  {
    if k > 0 {
      LowerCaseAt(s[1..], k - 1);
    }
  }

  lemma {:induction false} SlugJoin(a: string, b: string)
    ensures Slug(a + b) == Slug(a) + Slug(b)
  {
    if a == [] {
      assert a + b == b;
    } else {
      assert (a + b)[1..] == a[1..] + b;
      SlugJoin(a[1..], b);
    }
  }

  /** Braces and dots are dropped and slashes become hyphens, wherever they stand. */
  lemma {:induction false} SlugOfParts(a: string, c: char, b: string)
    ensures Slug(a + [c] + b)
            == Slug(a) + (if c == '/' then "-" else if c == '{' || c == '}' || c == '.' then "" else [c]) + Slug(b)
  {
    SlugJoin(a + [c], b);
    SlugJoin(a, [c]);
    assert [c][1..] == [];
    assert Slug([c]) == if c == '/' then "-" else if c == '{' || c == '}' || c == '.' then "" else [c];
  }

  /** No slash, brace or dot. */
  predicate IsPlain(s: string) {
    '/' !in s && '{' !in s && '}' !in s && '.' !in s
  }

  lemma {:induction false} SlugOfPlain(s: string)
    requires IsPlain(s)
    ensures Slug(s) == s
  {
    if s != [] {
      SlugOfPlain(s[1..]);
    }
  }

  lemma {:induction false} SlugOfSegments(segments: seq<string>)
    requires forall i :: 0 <= i < |segments| ==> IsPlain(segments[i])
    ensures Slug(Join(segments, '/')) == Join(segments, '-')
  {
    if segments != [] {
      SlugOfPlain(segments[0]);
      if |segments| > 1 {
        SlugOfSegments(segments[1..]);
        SlugOfParts(segments[0], '/', Join(segments[1..], '/'));
      }
    }
  }

  /** The name of an operation without identifier: the method in lower case and the path's segments. */
  lemma {:induction false} NameFromPath(op: Operation, segments: seq<string>, method_: string)
    requires op.operationId == None && segments != []
    requires forall i :: 0 <= i < |segments| ==> IsPlain(segments[i])
    requires Join(segments, '-') != [] && Trimmed(Join(segments, '-'), IsHyphen) && segments[0] != []
    ensures BaseName(op, "/" + Join(segments, '/'), method_) == LowerCaseAll(method_) + "-" + Join(segments, '-')
    ensures BaseName(op, "/", method_) == LowerCaseAll(method_) + "-root"
  {
    var path := Join(segments, '/');
    assert path[0] == segments[0][0] != '/';
    assert TrimStart("/" + path, IsSlash) == path by {
      TrimStartOfPadded("/", path, IsSlash);
    }
    SlugOfSegments(segments);
    TrimOfTrimmed(Join(segments, '-'), IsHyphen);
    TrimStartOfPadded("/", [], IsSlash);
    assert "/" + [] == "/";
  }

  /** The name of an operation with an identifier is the sanitised identifier, whatever its path. */
  lemma {:induction false} NameFromIdentifier(op: Operation, id: string, path: string, method_: string)
    requires op.operationId == Some(id) && id != []
    requires forall k :: 0 <= k < |id| ==> IsNameChar(id[k])
    requires Trimmed(id, IsHyphen)
    ensures BaseName(op, path, method_) == id
  {
    var h := Hyphenated(id);
    forall k | 0 <= k < |id|
      ensures h[k] == id[k]
    {
      HyphenatedAt(id, k);
    }
    assert h == id;
    TrimOfTrimmed(id, IsHyphen);
  }

  /**
   A sanitised name is made of lower-case letters, digits and inner hyphens; it is empty exactly
   if the identifier has no ASCII letter or digit.
   */
  lemma {:induction false} SanitizedShape(id: string)
    ensures var name := SanitizeName(id);
            && (forall k :: 0 <= k < |name| ==> IsNameChar(name[k]))
            && Trimmed(name, IsHyphen)
            && (name == [] <==> forall k :: 0 <= k < |id| ==> !IsAlphanumeric(id[k]))
  {
    var h, name := Hyphenated(id), SanitizeName(id);
    TrimKeeps(h, IsHyphen);
    assert forall c :: c in h ==> IsNameChar(c);
    assert forall k :: 0 <= k < |name| ==> name[k] in h;
    if All(h, IsHyphen) {
      assert forall k :: 0 <= k < |id| ==> IsHyphen(h[k]);
    }
  }

  /** A route is left without a name exactly if its operation's identifier has no letter or digit. */
  lemma {:induction false} NamelessRoutes(op: Operation, path: string, method_: string)
    ensures BaseName(op, path, method_) == []
            <==> && op.operationId.Some?
                 && forall k :: 0 <= k < |op.operationId.value| ==> !IsAlphanumeric(op.operationId.value[k])
  {
    if op.operationId.Some? {
      SanitizedShape(op.operationId.value);
    }
  }

  // ---------- Unique names ----------

  /** The names tried in turn: the base name, then the base name with suffixes 2, 3, ... */
  function Candidate(base: string, k: nat): string {
    if k == 1 then base else base + "-" + Decimal(k)
  }

  lemma {:induction false} CandidatesDiffer(base: string, j: nat, k: nat)
    requires Candidate(base, j) == Candidate(base, k)
    ensures j == k
  {
    if j != 1 && k != 1 {
      var s := Candidate(base, j);
      assert s[|base| + 1..] == Decimal(j);
      assert s[|base| + 1..] == Decimal(k);
      DecimalInjective(j, k);
    }
  }

  /** As many candidates can be taken as there are used names. */
  lemma {:induction false} TakenCandidates(base: string, used: set<string>, n: nat)
    requires forall j :: 1 <= j <= n ==> Candidate(base, j) in used
    ensures n <= |used|
  {
    if n > 0 {
      var last := Candidate(base, n);
      forall j | 1 <= j <= n - 1
        ensures Candidate(base, j) in used - {last}
      {
        if Candidate(base, j) == last {
          CandidatesDiffer(base, j, n);
        }
      }
      TakenCandidates(base, used - {last}, n - 1);
    }
  }

  /** `name` is the candidate number `k` and the first that is not used. */
  predicate IsLeastFree(base: string, used: set<string>, name: string, k: nat) {
    && k >= 1
    && name == Candidate(base, k)
    && name !in used
    && forall j :: 1 <= j < k ==> Candidate(base, j) in used
  }

  function FreshFrom(base: string, used: set<string>, k: nat): (name: string)
    requires k >= 1 && forall j :: 1 <= j < k ==> Candidate(base, j) in used
    ensures exists i: nat :: IsLeastFree(base, used, name, i) && i <= |used| + 1
    decreases |used| + 1 - k
  {
    TakenCandidates(base, used, k - 1);
    var name := Candidate(base, k);
    if name in used then
      TakenCandidates(base, used, k);
      FreshFrom(base, used, k + 1)
    else
      assert IsLeastFree(base, used, name, k);
      name
  }

  /** The first free candidate; its suffix never exceeds the number of used names by more than one. */
  function FreshName(base: string, used: set<string>): (name: string)
    ensures exists i: nat :: IsLeastFree(base, used, name, i) && i <= |used| + 1
  {
    FreshFrom(base, used, 1)
  }

  /** There is only one first free candidate. */
  lemma {:induction false} FreshNameIsLeastFree(base: string, used: set<string>, name: string)
    ensures FreshName(base, used) == name <==> exists k: nat :: IsLeastFree(base, used, name, k)
  {
    var i: nat :| IsLeastFree(base, used, FreshName(base, used), i);
    if k: nat :| IsLeastFree(base, used, name, k) {
    }
  }

  /** `derive_route_name`: the first candidate that can be inserted among the used names. */
  method DeriveRouteName(op: Operation, path: string, method_: string, used: set<string>)
      returns (name: string, used': set<string>)
    ensures name == FreshName(BaseName(op, path, method_), used)
    ensures name !in used && used' == used + {name}
  {
    var base := BaseName(op, path, method_);
    name := base;
    var counter := 2;
    while name in used
      invariant counter >= 2 && name == Candidate(base, counter - 1)
      invariant forall j :: 1 <= j < counter - 1 ==> Candidate(base, j) in used
      decreases |used| + 2 - counter
    {
      TakenCandidates(base, used, counter - 1);
      name := base + "-" + Decimal(counter);
      counter := counter + 1;
    }
    assert IsLeastFree(base, used, name, counter - 1);
    FreshNameIsLeastFree(base, used, name);
    used' := used + {name};
  }

  // ---------- Building the routes ----------

  /** The methods that have an operation. */
  function Methods(entries: seq<(string, Option<Operation>)>): (r: seq<string>)
    ensures forall m :: m in r <==> exists k :: 0 <= k < |entries| && entries[k].0 == m && entries[k].1.Some?
  {
    if entries == [] then []
    else
      var n := |entries| - 1;
      Methods(entries[..n]) + if entries[n].1.Some? then [entries[n].0] else []
  }

  /** The first operation and its method. */
  function First(entries: seq<(string, Option<Operation>)>): (r: Option<(string, Operation)>)
    ensures r.None? <==> Methods(entries) == []
    ensures r.Some? ==> Methods(entries)[0] == r.value.0 && (r.value.0, Some(r.value.1)) in entries
  {
    if entries == [] then None
    else
      var n := |entries| - 1;
      var r := First(entries[..n]);
      if r.None? && entries[n].1.Some? then Some((entries[n].0, entries[n].1.value)) else r
  }

  lemma {:induction false} MethodsAreNamed(item: PathItem)
    ensures var e := item.Entries();
            && |e| == 7 && e[0] == ("GET", item.get) && e[1] == ("POST", item.post) && e[2] == ("PUT", item.put)
            && e[3] == ("DELETE", item.delete) && e[4] == ("PATCH", item.patch)
            && e[5] == ("OPTIONS", item.options) && e[6] == ("HEAD", item.head)
  {
  }

  lemma {:induction false} MethodsDiffer(item: PathItem, j: nat, k: nat)
    requires j < k < 7
    ensures item.Entries()[j].0 != item.Entries()[k].0
  {
    var e := item.Entries();
    assert |e[0].0| == |e[2].0| == 3 && |e[1].0| == |e[6].0| == 4;
    assert |e[3].0| == 6 && |e[4].0| == 5 && |e[5].0| == 7;
    assert e[0].0[0] != e[2].0[0] && e[1].0[0] != e[6].0[0];
  }

  /** Each of the seven methods is imported exactly if the path has an operation under its own name. */
  lemma {:induction false} MethodsIff(item: PathItem, k: nat)
    requires k < 7
    ensures item.Entries()[k].0 in Methods(item.Entries()) <==> item.Entries()[k].1.Some?
  {
    var e := item.Entries();
    forall j | 0 <= j < 7 && j != k
      ensures e[j].0 != e[k].0
    {
      if j < k {
        MethodsDiffer(item, j, k);
      } else {
        MethodsDiffer(item, k, j);
      }
    }
  }

  predicate HasOperation(item: PathItem) {
    First(item.Entries()).Some?
  }

  function Names(routes: seq<Route>): set<string> {
    set r | r in routes :: r.name
  }

  function BaseOf(path: string, item: PathItem): string
    requires HasOperation(item)
  {
    var first := First(item.Entries()).value;
    BaseName(first.1, path, first.0)
  }

  function RouteOf(path: string, item: PathItem, name: string): Route
    requires HasOperation(item)
  {
    var first := First(item.Entries()).value;
    Route(name, path, Methods(item.Entries()), first.1, first.0)
  }

  /** Adds the route of one path, if it has an operation. */
  function AddRoute(earlier: seq<Route>, entry: (string, PathItem)): seq<Route> {
    if HasOperation(entry.1) then
      earlier + [RouteOf(entry.0, entry.1, FreshName(BaseOf(entry.0, entry.1), Names(earlier)))]
    else earlier
  }

  /** The routes of a document, named in its order. */
  function Routes(doc: Document): seq<Route> {
    if doc == [] then [] else AddRoute(Routes(doc[..|doc| - 1]), doc[|doc| - 1])
  }

  lemma {:induction false} RoutesUpTo(doc: Document, i: nat)
    requires i < |doc|
    ensures Routes(doc[..i + 1]) == AddRoute(Routes(doc[..i]), doc[i])
  {
    assert doc[..i + 1][..i] == doc[..i];
  }

  /** The inner loop of `build_gateway`: the methods of a path and its first operation. */
  method ScanMethods(item: PathItem) returns (methods: seq<string>, first: Option<(string, Operation)>)
    ensures methods == Methods(item.Entries()) && first == First(item.Entries())
  {
    methods, first := [], None;
    var entries := item.Entries();
    var k := 0;
    while k < |entries|
      invariant 0 <= k <= |entries|
      invariant methods == Methods(entries[..k]) && first == First(entries[..k])
    {
      assert entries[..k + 1][..k] == entries[..k];
      if entries[k].1.Some? {
        methods := methods + [entries[k].0];
        if first.None? {
          first := Some((entries[k].0, entries[k].1.value));
        }
      }
      k := k + 1;
    }
    assert entries[..k] == entries;
  }

  lemma {:induction false} NamesGrow(routes: seq<Route>, r: Route)
    ensures Names(routes + [r]) == Names(routes) + {r.name}
  {
  }

  lemma {:induction false} NoRoutes(doc: Document)
    ensures Routes(doc) == [] <==> forall i :: 0 <= i < |doc| ==> !HasOperation(doc[i].1)
  {
    if doc != [] {
      NoRoutes(doc[..|doc| - 1]);
      assert forall i :: 0 <= i < |doc| - 1 ==> doc[..|doc| - 1][i] == doc[i];
    }
  }

  method BuildRoutes(doc: Document) returns (routes: seq<Route>, allowEmptyRoutes: bool)
    ensures routes == Routes(doc)
    ensures allowEmptyRoutes <==> forall i :: 0 <= i < |doc| ==> !HasOperation(doc[i].1)
  {
    routes := [];
    var usedNames: set<string> := {};
    var i := 0;
    while i < |doc|
      invariant 0 <= i <= |doc|
      invariant routes == Routes(doc[..i]) && usedNames == Names(routes)
    {
      var (path, item) := doc[i];
      RoutesUpTo(doc, i);
      var methodsForPath, first := ScanMethods(item);
      if methodsForPath != [] {
        var (method_, op) := first.value;
        var name;
        name, usedNames := DeriveRouteName(op, path, method_, usedNames);
        var route := Route(name, path, methodsForPath, op, method_);
        NamesGrow(routes, route);
        assert AddRoute(routes, doc[i]) == routes + [route];
        routes := routes + [route];
      }
      i := i + 1;
    }
    assert doc[..i] == doc;
    NoRoutes(doc);
    allowEmptyRoutes := routes == [];
  }

  /** No two routes of a document have the same name. */
  lemma {:induction false} RouteNamesDistinct(doc: Document)
    ensures forall i, j :: 0 <= i < j < |Routes(doc)| ==> Routes(doc)[i].name != Routes(doc)[j].name
  {
    if doc != [] {
      var earlier := Routes(doc[..|doc| - 1]);
      RouteNamesDistinct(doc[..|doc| - 1]);
      assert forall i :: 0 <= i < |earlier| ==> earlier[i].name in Names(earlier);
    }
  }

  /** Paths added at the end of a document never rename an earlier route. */
  lemma {:induction false} EarlierRoutesKeepTheirNames(doc: Document, n: nat)
    requires n <= |doc|
    ensures Routes(doc[..n]) <= Routes(doc)
  {
    if n == |doc| {
      assert doc[..n] == doc;
    } else {
      assert doc[..|doc| - 1][..n] == doc[..n];
      EarlierRoutesKeepTheirNames(doc[..|doc| - 1], n);
    }
  }

  /** The entries of a document that have an operation. */
  function Operable(doc: Document): (r: Document)
    ensures forall i :: 0 <= i < |r| ==> HasOperation(r[i].1)
  {
    if doc == [] then []
    else Operable(doc[..|doc| - 1]) + if HasOperation(doc[|doc| - 1].1) then [doc[|doc| - 1]] else []
  }

  /** One route for each path with an operation, in order, matching exactly the methods of its operations. */
  lemma {:induction false} OneRoutePerPath(doc: Document)
    ensures |Routes(doc)| == |Operable(doc)|
    ensures forall i :: 0 <= i < |Routes(doc)| ==>
              var r, item := Routes(doc)[i], Operable(doc)[i].1;
              && r == RouteOf(Operable(doc)[i].0, item, r.name)
              && r.path == Operable(doc)[i].0
              && (r.firstMethod, Some(r.first)) in item.Entries() && r.firstMethod == r.methods[0]
              && r.methods != []
              && forall m :: m in r.methods
                             <==> exists k :: 0 <= k < 7 && item.Entries()[k].0 == m && item.Entries()[k].1.Some?
  {
    if doc != [] {
      OneRoutePerPath(doc[..|doc| - 1]);
    }
  }

  /** Route `i` bears its base name. */
  predicate KeepsBase(doc: Document, i: nat)
    requires i < |Operable(doc)| && i < |Routes(doc)|
  {
    Routes(doc)[i].name == BaseOf(Operable(doc)[i].0, Operable(doc)[i].1)
  }

  predicate BasesDistinct(operable: Document)
    requires forall i :: 0 <= i < |operable| ==> HasOperation(operable[i].1)
  {
    forall i, j :: 0 <= i < j < |operable| ==>
      BaseOf(operable[i].0, operable[i].1) != BaseOf(operable[j].0, operable[j].1)
  }

  predicate NamedByBase(doc: Document)
    requires |Routes(doc)| == |Operable(doc)|
  {
    forall i :: 0 <= i < |Routes(doc)| ==> KeepsBase(doc, i)
  }

  /** Every route bears its base name, without a suffix, exactly if the base names are distinct. */
  lemma {:induction false} SuffixesOnlyOnCollision(doc: Document)
    ensures |Routes(doc)| == |Operable(doc)|
    ensures NamedByBase(doc) <==> BasesDistinct(Operable(doc))
  {
    OneRoutePerPath(doc);
    if NamedByBase(doc) {
      RouteNamesDistinct(doc);
      forall i, j | 0 <= i < j < |Operable(doc)|
        ensures BaseOf(Operable(doc)[i].0, Operable(doc)[i].1) != BaseOf(Operable(doc)[j].0, Operable(doc)[j].1)
      {
        assert KeepsBase(doc, i) && KeepsBase(doc, j);
      }
    } else if BasesDistinct(Operable(doc)) {
      DistinctBasesKept(doc);
    }
  }

  lemma {:induction false} DistinctBasesKept(doc: Document)
    requires BasesDistinct(Operable(doc))
    ensures |Routes(doc)| == |Operable(doc)|
    ensures NamedByBase(doc)
  {
    OneRoutePerPath(doc);
    if doc != [] {
      var n := |doc| - 1;
      var earlier := Routes(doc[..n]);
      var (path, item) := doc[n];
      assert Operable(doc[..n]) <= Operable(doc);
      DistinctBasesKept(doc[..n]);
      forall i | 0 <= i < |earlier|
        ensures KeepsBase(doc, i)
      {
        assert KeepsBase(doc[..n], i);
      }
      if HasOperation(item) {
        var base := BaseOf(path, item);
        assert Operable(doc)[|earlier|] == doc[n];
        forall i | 0 <= i < |earlier|
          ensures earlier[i].name != base
        {
          assert KeepsBase(doc[..n], i);
        }
        assert base !in Names(earlier);
        assert Candidate(base, 1) == base && IsLeastFree(base, Names(earlier), base, 1);
        FreshNameIsLeastFree(base, Names(earlier), base);
      }
    }
  }
}
