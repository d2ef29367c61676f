/** The string operations the importers and the admin surface are written with, and decimal numerals. */
module Text {
  import opened Wrappers

  // ---------- Splitting at a separator ----------

  function Split<T(==)>(s: seq<T>, sep: T): (r: seq<seq<T>>)
    ensures r != []
  {
    if s == [] then [[]]
    else
      var rest := Split(s[1..], sep);
      if s[0] == sep then [[]] + rest else [[s[0]] + rest[0]] + rest[1..]
  }

  function Join<T(==)>(parts: seq<seq<T>>, sep: T): (r: seq<T>) {
    if parts == [] then []
    else if |parts| == 1 then parts[0]
    else parts[0] + [sep] + Join(parts[1..], sep)
  }

  lemma {:induction false} SplitFirstPart<T>(part: seq<T>, rest: seq<T>, sep: T)
    requires sep !in part
    ensures Split(part + [sep] + rest, sep) == [part] + Split(rest, sep)
    ensures Split(part, sep) == [part]
  {
    if part == [] {
      assert [] + [sep] + rest == [sep] + rest;
    } else {
      SplitFirstPart(part[1..], rest, sep);
      assert (part + [sep] + rest)[1..] == part[1..] + [sep] + rest;
      assert [part[0]] + part[1..] == part;
    }
  }

  lemma {:induction false} SplitOfJoin<T>(parts: seq<seq<T>>, sep: T)
    requires parts != [] && forall i :: 0 <= i < |parts| ==> sep !in parts[i]
    ensures Split(Join(parts, sep), sep) == parts
  {
    SplitFirstPart(parts[0], Join(parts[1..], sep), sep);
    if |parts| > 1 {
      SplitOfJoin(parts[1..], sep);
    }
  }

  /** The text before the first separator and the text after it. */
  function SplitOnce<T(==)>(s: seq<T>, sep: T): (r: Option<(seq<T>, seq<T>)>)
    ensures r.Some? ==> sep !in r.value.0 && s == r.value.0 + [sep] + r.value.1
    ensures r.None? ==> sep !in s
  {
    if s == [] then None
    else if s[0] == sep then Some(([], s[1..]))
    else
      match SplitOnce(s[1..], sep)
      case Some(cut) => Some(([s[0]] + cut.0, cut.1))
      case None => None
  }

  lemma {:induction false} SplitOnceIsUnique<T>(left: seq<T>, right: seq<T>, sep: T)
    requires sep !in left
    ensures SplitOnce(left + [sep] + right, sep) == Some((left, right))
  {
    var s := left + [sep] + right;
    assert s[|left|] == sep;
    var cut := SplitOnce(s, sep).value;
    var n := |cut.0|;
    assert s[n] == sep && s[..n] == cut.0 && s[n + 1..] == cut.1;
    assert forall k :: 0 <= k < |left| ==> s[k] == left[k];
    assert forall k :: 0 <= k < n ==> s[k] == cut.0[k];
    assert n == |left|;
    assert s[..n] == left;
  }

  /** The text before the last separator and the text after it. */
  function RSplitOnce<T(==)>(s: seq<T>, sep: T): (r: Option<(seq<T>, seq<T>)>)
    ensures r.Some? ==> sep !in r.value.1 && s == r.value.0 + [sep] + r.value.1
    ensures r.None? ==> sep !in s
  {
    if s == [] then None
    else
      var n := |s| - 1;
      if s[n] == sep then Some((s[..n], []))
      else
        match RSplitOnce(s[..n], sep)
        case Some(cut) => Some((cut.0, cut.1 + [s[n]]))
        case None => None
  }

  lemma {:induction false} RSplitOnceIsUnique<T>(left: seq<T>, right: seq<T>, sep: T)
    requires sep !in right
    ensures RSplitOnce(left + [sep] + right, sep) == Some((left, right))
  {
    var s := left + [sep] + right;
    var n := |right| - 1;
    if right != [] {
      assert s[..|s| - 1] == left + [sep] + right[..n];
      RSplitOnceIsUnique(left, right[..n], sep);
      assert right[..n] + [right[n]] == right;
    } else {
      assert s[..|s| - 1] == left;
    }
  }

  lemma {:induction false} NothingToSplit<T>(s: seq<T>, sep: T)
    requires sep !in s
    ensures RSplitOnce(s, sep).None?
  {
  }

  // ---------- Trimming ----------

  /** Without the leading elements that satisfy a predicate. */
  function TrimStart<T>(s: seq<T>, p: T -> bool): (r: seq<T>)
    ensures |r| <= |s|
  {
    if s != [] && p(s[0]) then TrimStart(s[1..], p) else s
  }

  /** Without the trailing elements that satisfy a predicate. */
  function TrimEnd<T>(s: seq<T>, p: T -> bool): (r: seq<T>)
    ensures |r| <= |s|
  {
    if s != [] && p(s[|s| - 1]) then TrimEnd(s[..|s| - 1], p) else s
  }

  function Trim<T>(s: seq<T>, p: T -> bool): (r: seq<T>) {
    TrimEnd(TrimStart(s, p), p)
  }

  /** Nothing to trim at either end. */
  predicate Trimmed<T>(s: seq<T>, p: T -> bool) {
    s != [] ==> !p(s[0]) && !p(s[|s| - 1])
  }

  predicate All<T>(s: seq<T>, p: T -> bool) {
    forall k :: 0 <= k < |s| ==> p(s[k])
  }

  lemma {:induction false} TrimStartOfPadded<T>(left: seq<T>, s: seq<T>, p: T -> bool)
    requires All(left, p) && (s != [] ==> !p(s[0]))
    ensures TrimStart(left + s, p) == s
  {
    if left == [] {
      assert left + s == s;
    } else {
      assert (left + s)[1..] == left[1..] + s;
      TrimStartOfPadded(left[1..], s, p);
    }
  }

  lemma {:induction false} TrimEndOfPadded<T>(s: seq<T>, right: seq<T>, p: T -> bool)
    requires All(right, p) && (s != [] ==> !p(s[|s| - 1]))
    ensures TrimEnd(s + right, p) == s
  {
    if right == [] {
      assert s + right == s;
    } else {
      var n := |right| - 1;
      assert (s + right)[..|s + right| - 1] == s + right[..n];
      TrimEndOfPadded(s, right[..n], p);
    }
  }

  lemma {:induction false} TrimEndOfTail<T>(s: seq<T>, tail: seq<T>, p: T -> bool)
    requires tail != [] && !p(tail[0])
    ensures TrimEnd(s + tail, p) == s + TrimEnd(tail, p) && TrimEnd(tail, p) != []
  {
    var n := |tail| - 1;
    if p(tail[n]) {
      assert (s + tail)[..|s| + n] == s + tail[..n];
      TrimEndOfTail(s, tail[..n], p);
    }
  }

  /** Trimming takes off exactly the padding around a trimmed text. */
  lemma {:induction false} TrimOfPadded<T>(left: seq<T>, s: seq<T>, right: seq<T>, p: T -> bool)
    requires All(left, p) && All(right, p) && Trimmed(s, p)
    ensures Trim(left + s + right, p) == s
  {
    if s == [] {
      assert left + s + right == left + right + [];
      TrimStartOfPadded(left + right, [], p);
    } else {
      assert left + s + right == left + (s + right);
      TrimStartOfPadded(left, s + right, p);
      TrimEndOfPadded(s, right, p);
    }
  }

  lemma {:induction false} TrimOfTrimmed<T>(s: seq<T>, p: T -> bool)
    requires Trimmed(s, p)
    ensures Trim(s, p) == s
  {
  }

  lemma {:induction false} TrimStartShape<T>(s: seq<T>, p: T -> bool)
    ensures var r := TrimStart(s, p);
            && (r != [] ==> !p(r[0]))
            && r == s[|s| - |r|..]
            && forall k :: 0 <= k < |s| - |r| ==> p(s[k])
  {
    if s != [] && p(s[0]) {
      TrimStartShape(s[1..], p);
    }
  }

  lemma {:induction false} TrimEndShape<T>(s: seq<T>, p: T -> bool)
    ensures var r := TrimEnd(s, p);
            && (r != [] ==> !p(r[|r| - 1]))
            && r <= s
            && forall k :: |r| <= k < |s| ==> p(s[k])
  {
    if s != [] && p(s[|s| - 1]) {
      TrimEndShape(s[..|s| - 1], p);
    }
  }

  /** What is left of a text by trimming is part of it, and nothing is left only of padding. */
  lemma {:induction false} TrimKeeps<T>(s: seq<T>, p: T -> bool)
    ensures Trimmed(Trim(s, p), p)
    ensures forall c :: c in Trim(s, p) ==> c in s
    ensures Trim(s, p) == [] <==> All(s, p)
  {
    var t := TrimStart(s, p);
    TrimStartShape(s, p);
    TrimEndShape(t, p);
    var r, i := TrimEnd(t, p), |s| - |t|;
    if r == [] {
      assert t == [];
    } else {
      assert !p(s[i]);
    }
  }

  // ---------- Decimal numerals ----------

  predicate IsDigit(c: char) {
    '0' <= c <= '9'
  }

  function DigitChar(d: nat): (c: char)
    requires d < 10
    ensures IsDigit(c) && c as nat - '0' as nat == d
  {
    (d + '0' as nat) as char
  }

  function Decimal(n: nat): (s: string)
    ensures s != [] && All(s, IsDigit)
  {
    if n < 10 then [DigitChar(n)] else Decimal(n / 10) + [DigitChar(n % 10)]
  }

  /** The number a digit string denotes. */
  function Denoted(s: string): (n: nat)
    requires All(s, IsDigit)
  {
    if s == [] then 0 else 10 * Denoted(s[..|s| - 1]) + (s[|s| - 1] as nat - '0' as nat)
  }

  lemma {:induction false} DecimalDenotes(n: nat)
    ensures Denoted(Decimal(n)) == n
  {
    if n >= 10 {
      DecimalDenotes(n / 10);
      assert Decimal(n)[..|Decimal(n)| - 1] == Decimal(n / 10);
    } else {
      assert Denoted([]) == 0;
      assert Decimal(n)[..0] == [];
    }
  }

  /** Different numbers have different numerals. */
  lemma {:induction false} DecimalInjective(m: nat, n: nat)
    requires Decimal(m) == Decimal(n)
    ensures m == n
  {
    DecimalDenotes(m);
    DecimalDenotes(n);
  }

  const MAX_PORT: nat := 65535

  /** `parse::<u16>()`: one optional plus sign, at least one digit, no overflow. */
  function ParsePort(s: string): (r: Option<nat>)
    ensures r.Some? ==> r.value <= MAX_PORT
  {
    var digits := if s != [] && s[0] == '+' then s[1..] else s;
    if digits != [] && All(digits, IsDigit) && Denoted(digits) <= MAX_PORT then Some(Denoted(digits)) else None
  }

  lemma {:induction false} ParsePortOfDecimal(n: nat)
    ensures ParsePort(Decimal(n)) == if n <= MAX_PORT then Some(n) else None
    ensures ParsePort("+" + Decimal(n)) == if n <= MAX_PORT then Some(n) else None
  {
    DecimalDenotes(n);
    assert IsDigit(Decimal(n)[0]);
    assert ("+" + Decimal(n))[1..] == Decimal(n);
  }

  // ---------- White space ----------

  /** The characters of the Unicode property White_Space. */
  predicate IsWhitespace(c: char) {
    || '\t' <= c <= '\r' || c == ' ' || c == '\U{0085}' || c == '\U{00A0}' || c == '\U{1680}'
    || '\U{2000}' <= c <= '\U{200A}' || c == '\U{2028}' || c == '\U{2029}' || c == '\U{202F}'
    || c == '\U{205F}' || c == '\U{3000}'
  }

  function TrimSpace(s: string): string {
    Trim(s, IsWhitespace)
  }

  /** No white space in it. */
  predicate IsWord(s: string) {
    s != [] && forall k :: 0 <= k < |s| ==> !IsWhitespace(s[k])
  }

  lemma {:induction false} DecimalIsWord(n: nat)
    ensures IsWord(Decimal(n)) && ':' !in Decimal(n)
  {
    assert forall k :: 0 <= k < |Decimal(n)| ==> IsDigit(Decimal(n)[k]);
  }

  predicate AllWords(words: seq<string>) {
    words != [] ==> IsWord(words[0]) && AllWords(words[1..])
  }

  /** The text before the first white-space character and the text after it, empty if there is none. */
  function SplitWord(s: string): (string, string) {
    if s == [] then ([], [])
    else if IsWhitespace(s[0]) then ([], s[1..])
    else
      var (word, rest) := SplitWord(s[1..]);
      ([s[0]] + word, rest)
  }

  lemma {:induction false} SplitWordOfWord(word: string, rest: string)
    requires forall k :: 0 <= k < |word| ==> !IsWhitespace(word[k])
    requires rest != [] ==> IsWhitespace(rest[0])
    ensures SplitWord(word + rest) == (word, if rest == [] then [] else rest[1..])
  {
    if word == [] {
      assert word + rest == rest;
    } else {
      assert (word + rest)[1..] == word[1..] + rest;
      SplitWordOfWord(word[1..], rest);
      assert [word[0]] + word[1..] == word;
    }
  }

  /** The words of a text. */
  function Words(s: string): seq<string>
    decreases |s|
  {
    var t := TrimStart(s, IsWhitespace);
    if t == [] then []
    else
      var (word, rest) := SplitWord(t);
      SplitWordShortens(t);
      [word] + Words(rest)
  }

  lemma {:induction false} SplitWordShortens(s: string)
    requires s != []
    ensures |SplitWord(s).1| < |s|
  {
    if |s| > 1 && !IsWhitespace(s[0]) {
      SplitWordShortens(s[1..]);
    }
  }

  lemma {:induction false} OnlyWord(word: string)
    requires IsWord(word)
    ensures Words(word) == [word]
  {
    assert TrimStart(word, IsWhitespace) == word;
    SplitWordOfWord(word, []);
    assert word + [] == word;
  }

  lemma {:induction false} FirstWord(word: string, sep: char, more: string)
    requires IsWord(word) && IsWhitespace(sep)
    ensures Words(word + [sep] + more) == [word] + Words(more)
  {
    var s, rest := word + [sep] + more, [sep] + more;
    assert s == word + rest && s[0] == word[0] && rest[1..] == more;
    assert TrimStart(s, IsWhitespace) == s;
    SplitWordOfWord(word, rest);
  }

  /** Words joined by single spaces are found again. */
  lemma {:induction false} WordsOfJoin(words: seq<string>)
    requires AllWords(words)
    ensures Words(Join(words, ' ')) == words
  {
    if words != [] {
      WordsOfJoin(words[1..]);
      if |words| == 1 {
        OnlyWord(words[0]);
      } else {
        FirstWord(words[0], ' ', Join(words[1..], ' '));
      }
      assert words == [words[0]] + words[1..];
    }
  }
}
