/**
 Query parameters of admin requests: percent decoding and the `key=value&...` form, on bytes.
 The decoder is lenient, so its meaning is given by what a text spells: a byte list spells out as
 a row of units, and decoding answers exactly what the only row of units a text spells means.
 */
module QueryString {
  import opened Wrappers
  import opened ByteSearch
  import opened ChunkedCoding
  import opened Text

  const SPACE: byte := 32
  const PERCENT: byte := 37
  const AMPERSAND: byte := 38
  const PLUS: byte := 43
  const EQUALS: byte := 61

  // ---------- Percent decoding ----------

  /** Two hexadecimal digits follow the first byte. */
  predicate EscapeAhead(s: seq<byte>) {
    |s| >= 3 && HexValue(s[1]).Some? && HexValue(s[2]).Some?
  }

  function Escaped(high: byte, low: byte): byte
    requires HexValue(high).Some? && HexValue(low).Some?
  {
    (16 * HexValue(high).value + HexValue(low).value) as byte
  }

  function Decoded(s: seq<byte>): (r: seq<byte>)
    ensures |r| <= |s|
  {
    if s == [] then []
    else if s[0] == PLUS then [SPACE] + Decoded(s[1..])
    else if s[0] == PERCENT && EscapeAhead(s) then [Escaped(s[1], s[2])] + Decoded(s[3..])
    else [s[0]] + Decoded(s[1..])
  }

  /** Pushing the byte a tail starts with decodes that byte. */
  lemma {:induction false} PushDecoded(out: seq<byte>, s: seq<byte>, b: byte, width: nat)
    requires 0 < width <= |s|
    requires Decoded(s) == [b] + Decoded(s[width..])
    ensures out + Decoded(s) == out + [b] + Decoded(s[width..])
  {
  }

  method PercentDecode(s: seq<byte>) returns (out: seq<byte>)
    ensures out == Decoded(s)
  {
    out := [];
    var i := 0;
    assert s[i..] == s;
    while i < |s|
      invariant 0 <= i <= |s|
      invariant out + Decoded(s[i..]) == Decoded(s)
    {
      var rest := s[i..];
      ghost var width := if rest[0] == PERCENT && EscapeAhead(rest) then 3 else 1;
      assert rest[width..] == s[i + width..];
      PushDecoded(out, rest, Decoded(rest)[0], width);
      if s[i] == PLUS {
        out := out + [SPACE];
        i := i + 1;
      } else if s[i] == PERCENT {
        if EscapeAhead(rest) {
          out := out + [Escaped(s[i + 1], s[i + 2])];
          i := i + 3;
        } else {
          out := out + [PERCENT];
          i := i + 1;
        }
      } else {
        out := out + [s[i]];
        i := i + 1;
      }
    }
  }

  /** One way to write one byte. */
  datatype Unit = Literal(b: byte) | Plus | Escape(high: byte, low: byte) | StrayPercent
  {
    predicate Valid() {
      match this
      case Literal(b) => b != PERCENT && b != PLUS
      case Escape(high, low) => HexValue(high).Some? && HexValue(low).Some?
      case _ => true
    }

    function Spelling(): (r: seq<byte>)
      ensures r != []
    {
      match this
      case Literal(b) => [b]
      case Plus => [PLUS]
      case Escape(high, low) => [PERCENT, high, low]
      case StrayPercent => [PERCENT]
    }

    function Meaning(): byte
      requires Valid()
    {
      match this
      case Literal(b) => b
      case Plus => SPACE
      case Escape(high, low) => Escaped(high, low)
      case StrayPercent => PERCENT
    }
  }

  function Spell(units: seq<Unit>): (r: seq<byte>) {
    if units == [] then [] else units[0].Spelling() + Spell(units[1..])
  }

  /** A percent sign is stray only if no two hexadecimal digits follow it. */
  predicate WellFormed(units: seq<Unit>) {
    units != [] ==>
      && units[0].Valid()
      && (units[0].StrayPercent? ==> !EscapeAhead(Spell(units)))
      && WellFormed(units[1..])
  }

  function Meaning(units: seq<Unit>): (r: seq<byte>)
    requires WellFormed(units)
    ensures |r| == |units|
  {
    if units == [] then [] else [units[0].Meaning()] + Meaning(units[1..])
  }

  lemma {:induction false} DecodedOfSpelling(units: seq<Unit>)
    requires WellFormed(units)
    ensures Decoded(Spell(units)) == Meaning(units)
  {
    if units != [] {
      var first := units[0].Spelling();
      assert Spell(units)[|first|..] == Spell(units[1..]);
      assert Spell(units)[..|first|] == first;
      DecodedOfSpelling(units[1..]);
      if units[0].Escape? {
        assert Spell(units)[1] == first[1] && Spell(units)[2] == first[2];
      }
    }
  }

  /** The unit a text starts with. */
  function FirstUnit(s: seq<byte>): (u: Unit)
    requires s != []
    ensures u.Valid() && u.Spelling() <= s && (u.StrayPercent? ==> !EscapeAhead(s))
  {
    if s[0] == PLUS then Plus
    else if s[0] != PERCENT then Literal(s[0])
    else if EscapeAhead(s) then Escape(s[1], s[2])
    else StrayPercent
  }

  /** The units of a text, read off from the left. */
  function Units(s: seq<byte>): (units: seq<Unit>) {
    if s == [] then [] else [FirstUnit(s)] + Units(s[|FirstUnit(s).Spelling()|..])
  }

  lemma {:induction false} PrefixUnit(first: Unit, rest: seq<Unit>, s: seq<byte>)
    requires first.Valid() && first.Spelling() <= s && (first.StrayPercent? ==> !EscapeAhead(s))
    requires WellFormed(rest) && Spell(rest) == s[|first.Spelling()|..]
    ensures WellFormed([first] + rest) && Spell([first] + rest) == s
  {
    var units := [first] + rest;
    assert units[0] == first && units[1..] == rest;
    assert s == first.Spelling() + s[|first.Spelling()|..];
    assert Spell(units) == first.Spelling() + Spell(rest);
  }

  lemma {:induction false} UnitsSpellIt(s: seq<byte>)
    ensures WellFormed(Units(s)) && Spell(Units(s)) == s
  {
    if s != [] {
      var first := FirstUnit(s);
      var n := |first.Spelling()|;
      UnitsSpellIt(s[n..]);
      PrefixUnit(first, Units(s[n..]), s);
    }
  }

  /** Percent decoding answers `out` exactly if the text spells a row of units that means `out`. */
  lemma {:induction false} DecodesIffSpelled(s: seq<byte>, out: seq<byte>)
    ensures Decoded(s) == out <==> exists units :: WellFormed(units) && Spell(units) == s && Meaning(units) == out
  {
    UnitsSpellIt(s);
    DecodedOfSpelling(Units(s));
    forall units | WellFormed(units) && Spell(units) == s
      ensures Meaning(units) == Decoded(s)
    {
      DecodedOfSpelling(units);
    }
  }

  // ---------- The pairs of a query ----------

  type Pair = (seq<byte>, seq<byte>)

  function DecodePair(part: seq<byte>): Pair {
    match SplitOnce(part, EQUALS)
    case Some(cut) => (Decoded(cut.0), Decoded(cut.1))
    case None => (Decoded(part), [])
  }

  function DecodePairs(parts: seq<seq<byte>>): seq<Pair> {
    if parts == [] then []
    else (if parts[0] == [] then [] else [DecodePair(parts[0])]) + DecodePairs(parts[1..])
  }

  /** `query_params`, given the query of the request's target. */
  function QueryParams(query: Option<seq<byte>>): seq<Pair> {
    match query
    case None => []
    case Some(q) => DecodePairs(Split(q, AMPERSAND))
  }

  /** One part of a query: nothing between two ampersands, or a key with or without a value. */
  datatype Part = Blank | Flag(key: seq<Unit>) | Field(key: seq<Unit>, value: seq<Unit>)
  {
    predicate Valid() {
      match this
      case Blank => true
      case Flag(key) => WellFormed(key) && key != [] && EQUALS !in Spell(key) && AMPERSAND !in Spell(key)
      case Field(key, value) =>
        && WellFormed(key) && EQUALS !in Spell(key) && AMPERSAND !in Spell(key)
        && WellFormed(value) && AMPERSAND !in Spell(value)
    }

    function Text(): seq<byte> {
      match this
      case Blank => []
      case Flag(key) => Spell(key)
      case Field(key, value) => Spell(key) + [EQUALS] + Spell(value)
    }

    function Pairs(): seq<Pair>
      requires Valid()
    {
      match this
      case Blank => []
      case Flag(key) => [(Meaning(key), [])]
      case Field(key, value) => [(Meaning(key), Meaning(value))]
    }
  }

  predicate AllValid(parts: seq<Part>) {
    forall i :: 0 <= i < |parts| ==> parts[i].Valid()
  }

  function Texts(parts: seq<Part>): (r: seq<seq<byte>>)
    ensures |r| == |parts|
    ensures forall i :: 0 <= i < |parts| ==> r[i] == parts[i].Text()
  {
    if parts == [] then [] else [parts[0].Text()] + Texts(parts[1..])
  }

  function Pairs(parts: seq<Part>): seq<Pair>
    requires AllValid(parts)
  {
    if parts == [] then [] else parts[0].Pairs() + Pairs(parts[1..])
  }

  lemma {:induction false} PartDecodes(p: Part)
    requires p.Valid()
    ensures DecodePairs([p.Text()]) == p.Pairs() && AMPERSAND !in p.Text()
  {
    match p
    case Blank =>
    case Flag(key) =>
      DecodedOfSpelling(key);
    case Field(key, value) =>
      SplitOnceIsUnique(Spell(key), Spell(value), EQUALS);
      DecodedOfSpelling(key);
      DecodedOfSpelling(value);
  }

  lemma {:induction false} PartsDecode(parts: seq<Part>)
    requires AllValid(parts)
    ensures DecodePairs(Texts(parts)) == Pairs(parts)
  {
    if parts != [] {
      PartDecodes(parts[0]);
      PartsDecode(parts[1..]);
      assert DecodePairs([parts[0].Text()]) == if parts[0].Text() == [] then [] else [DecodePair(parts[0].Text())];
    }
  }

  /**
   Whatever way each byte is spelled, whatever empty parts stand between the ampersands, and
   whether or not an empty value is written: a query decodes to the pairs its parts mean.
   */
  lemma {:induction false} QueryDecodes(parts: seq<Part>)
    requires AllValid(parts) && parts != []
    ensures QueryParams(Some(Join(Texts(parts), AMPERSAND))) == Pairs(parts)
  {
    forall i | 0 <= i < |parts|
      ensures AMPERSAND !in Texts(parts)[i]
    {
      PartDecodes(parts[i]);
    }
    SplitOfJoin(Texts(parts), AMPERSAND);
    PartsDecode(parts);
  }

  // ---------- Round trip ----------

  /** Unreserved characters (section 2.3 of RFC 3986) are written as themselves. */
  predicate IsUnreserved(b: byte) {
    || 48 <= b <= 57 || 65 <= b <= 90 || 97 <= b <= 122
    || b == 45 || b == 46 || b == 95 || b == 126
  }

  function EncodeByte(b: byte, plusForSpace: bool, upper: bool): (u: Unit)
    ensures u.Valid() && u.Meaning() == b && !u.StrayPercent?
    ensures EQUALS !in u.Spelling() && AMPERSAND !in u.Spelling()
  {
    if IsUnreserved(b) then Literal(b)
    else if b == SPACE && plusForSpace then Plus
    else
      EscapeDenotes(b, upper);
      Escape(HexDigit(b as nat / 16, upper), HexDigit(b as nat % 16, upper))
  }

  lemma {:induction false} EscapeDenotes(b: byte, upper: bool)
    ensures HexValue(HexDigit(b as nat / 16, upper)) == Some(b as nat / 16)
    ensures HexValue(HexDigit(b as nat % 16, upper)) == Some(b as nat % 16)
  {
  }

  function EncodeBytes(s: seq<byte>, plusForSpace: bool, upper: bool): (units: seq<Unit>)
    ensures WellFormed(units) && Meaning(units) == s
    ensures EQUALS !in Spell(units) && AMPERSAND !in Spell(units)
  {
    if s == [] then [] else [EncodeByte(s[0], plusForSpace, upper)] + EncodeBytes(s[1..], plusForSpace, upper)
  }

  function EncodePairs(pairs: seq<Pair>, plusForSpace: bool, upper: bool): (parts: seq<Part>)
    ensures AllValid(parts) && |parts| == |pairs| && Pairs(parts) == pairs
  {
    if pairs == [] then []
    else
      var part := Field(EncodeBytes(pairs[0].0, plusForSpace, upper), EncodeBytes(pairs[0].1, plusForSpace, upper));
      [part] + EncodePairs(pairs[1..], plusForSpace, upper)
  }

  /** Percent-encodes keys and values (section 2.1 of RFC 3986) and joins them. */
  function EncodeQuery(pairs: seq<Pair>, plusForSpace: bool, upper: bool): seq<byte> {
    Join(Texts(EncodePairs(pairs, plusForSpace, upper)), AMPERSAND)
  }

  lemma {:induction false} QueryRoundTrip(pairs: seq<Pair>, plusForSpace: bool, upper: bool)
    ensures QueryParams(Some(EncodeQuery(pairs, plusForSpace, upper))) == pairs
  {
    if pairs == [] {
      assert Split([], AMPERSAND) == [[]];
      assert DecodePairs([[]]) == [] + DecodePairs([]);
    } else {
      QueryDecodes(EncodePairs(pairs, plusForSpace, upper));
    }
  }

  // ---------- Looking a parameter up ----------

  /** The value of the first pair with a key. */
  function Param(params: seq<Pair>, key: seq<byte>): (r: Option<seq<byte>>)
    ensures r.None? <==> forall i :: 0 <= i < |params| ==> params[i].0 != key
    ensures r.Some? ==> exists i :: 0 <= i < |params| && params[i] == (key, r.value)
                                    && forall j :: 0 <= j < i ==> params[j].0 != key
  {
    if params == [] then None
    else if params[0].0 == key then
      assert params[0] == (key, params[0].1);
      Some(params[0].1)
    else
      var r := Param(params[1..], key);
      assert forall i :: 0 < i < |params| ==> params[i] == params[1..][i - 1];
      assert r.Some? ==>
          var i :| 0 <= i < |params[1..]| && params[1..][i] == (key, r.value)
                   && forall j :: 0 <= j < i ==> params[1..][j].0 != key;
          params[i + 1] == (key, r.value) && forall j :: 0 <= j < i + 1 ==> params[j].0 != key;
      r
  }
}
