/** Bytes and the first occurrence of a byte pattern, as `windows(n).position(..)` finds it. */
module ByteSearch {
  import opened Wrappers

  newtype byte = b: int | 0 <= b < 256

  const CR: byte := 13
  const LF: byte := 10
  const CRLF: seq<byte> := [CR, LF]
  const BLANK_LINE: seq<byte> := [CR, LF, CR, LF]

  predicate Occurs(s: seq<byte>, pat: seq<byte>, p: nat) {
    p + |pat| <= |s| && s[p..p + |pat|] == pat
  }

  function FindFrom(s: seq<byte>, pat: seq<byte>, from: nat): (r: Option<nat>)
    ensures r.Some? ==> from <= r.value && r.value + |pat| <= |s|
    decreases |s| - from
  {
    if |s| < from + |pat| then None
    else if Occurs(s, pat, from) then Some(from)
    else if from < |s| then FindFrom(s, pat, from + 1) else None
  }

  function Find(s: seq<byte>, pat: seq<byte>): (r: Option<nat>)
    ensures r.Some? ==> r.value + |pat| <= |s|
  {
    FindFrom(s, pat, 0)
  }

  /** `p` is where `pat` first occurs in `s`. */
  ghost predicate FirstOccurrence(s: seq<byte>, pat: seq<byte>, p: nat) {
    Occurs(s, pat, p) && forall q: nat :: q < p ==> !Occurs(s, pat, q)
  }

  lemma {:induction false} FindFromIsFirst(s: seq<byte>, pat: seq<byte>, from: nat)
    requires forall q: nat :: q < from ==> !Occurs(s, pat, q)
    ensures match FindFrom(s, pat, from)
            case Some(p) => FirstOccurrence(s, pat, p)
            case None => forall q: nat :: !Occurs(s, pat, q)
    decreases |s| - from
  {
    if from + |pat| <= |s| && !Occurs(s, pat, from) && from < |s| {
      FindFromIsFirst(s, pat, from + 1);
    }
  }

  /** `Find` answers the first occurrence, or that there is none. */
  lemma {:induction false} FindIsFirst(s: seq<byte>, pat: seq<byte>)
    ensures match Find(s, pat)
            case Some(p) => FirstOccurrence(s, pat, p)
            case None => forall q: nat :: !Occurs(s, pat, q)
  {
    FindFromIsFirst(s, pat, 0);
  }

  lemma {:induction false} FirstIsFound(s: seq<byte>, pat: seq<byte>, p: nat)
    requires FirstOccurrence(s, pat, p)
    ensures Find(s, pat) == Some(p)
  {
    FindIsFirst(s, pat);
    assert Occurs(s, pat, p);
  }

  /** A longer buffer never moves an occurrence already found, and a shorter one finds it as
      soon as it holds all of it. */
  lemma {:induction false} FindInPrefix(s: seq<byte>, pat: seq<byte>, n: nat)
    requires n <= |s|
    ensures Find(s[..n], pat) ==
            match Find(s, pat)
            case Some(p) => if p + |pat| <= n then Some(p) else None
            case None => None
  {
    forall p: nat ensures Occurs(s[..n], pat, p) <==> p + |pat| <= n && Occurs(s, pat, p) {
    }
    FindIsFirst(s, pat);
    FindIsFirst(s[..n], pat);
    if Find(s, pat).Some? && Find(s, pat).value + |pat| <= n {
      FirstIsFound(s[..n], pat, Find(s, pat).value);
    }
  }
}
