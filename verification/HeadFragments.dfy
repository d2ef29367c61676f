/**
 How the bytes of a response head arrive in fragments, and when that decides whether the head is
 accepted: exactly if it ends in the last kilobyte that the final read may bring past the cap.
 */
module HeadFragments {
  import opened Wrappers
  import opened ByteSearch
  import opened ChunkedCoding

  const MAX_RESPONSE_HEAD_BYTES: nat := 64 * 1024
  /** The most one read of the head delivers. */
  const HEAD_READ: nat := 1024

  function Sum(cuts: seq<nat>): nat {
    if cuts == [] then 0 else Sum(cuts[..|cuts| - 1]) + cuts[|cuts| - 1]
  }

  /** What the reader decides with `have` bytes buffered: where the head ends, that it is too long, or
      nothing yet. */
  function Decision(stream: seq<byte>, have: nat): Option<Result<nat, ReadError>>
    requires have <= |stream|
  {
    match Find(stream[..have], BLANK_LINE)
    case Some(pos) => Some(Ok(pos))
    case None => if have > MAX_RESPONSE_HEAD_BYTES then Some(Err(HeadTooLong)) else None
  }

  /** Fragments of a stream as reads deliver them. */
  predicate AreFragments(stream: seq<byte>, cuts: seq<nat>) {
    && Sum(cuts) <= |stream|
    && forall k :: 0 <= k < |cuts| ==> 1 <= cuts[k] <= HEAD_READ
  }

  lemma {:induction false} SumGrows(cuts: seq<nat>, k: nat)
    requires k <= |cuts|
    ensures Sum(cuts[..k]) <= Sum(cuts)
  {
    if k == |cuts| {
      assert cuts[..k] == cuts;
    } else {
      assert cuts[..|cuts| - 1][..k] == cuts[..k];
      SumGrows(cuts[..|cuts| - 1], k);
    }
  }

  /** The head is read in these fragments, without a decision before the last, and with answer `r`. */
  ghost predicate HeadRun(stream: seq<byte>, cuts: seq<nat>, r: Result<nat, ReadError>) {
    && Reading(stream, cuts, Sum(cuts))
    && match Decision(stream, Sum(cuts))
       case Some(answer) => r == answer
       case None => Sum(cuts) == |stream| && r == Err(ClosedInHead)
  }

  /** The fragments read so far make up `have` bytes, and before the last there was no decision. */
  predicate Reading(stream: seq<byte>, cuts: seq<nat>, have: nat) {
    && AreFragments(stream, cuts) && Sum(cuts) == have
    && forall k :: 0 <= k < |cuts| ==> Undecided(stream, Sum(cuts[..k]))
  }

  predicate Undecided(stream: seq<byte>, have: nat) {
    have <= |stream| && Decision(stream, have).None?
  }

  lemma {:induction false} UndecidedIff(stream: seq<byte>, have: nat)
    requires have <= |stream|
    ensures Undecided(stream, have)
            <==> && have <= MAX_RESPONSE_HEAD_BYTES
                 && (Find(stream, BLANK_LINE).Some? ==> have < Find(stream, BLANK_LINE).value + 4)
  {
    FindInPrefix(stream, BLANK_LINE, have);
  }

  /** Reading on after no decision. */
  lemma {:induction false} FragmentAdded(stream: seq<byte>, cuts: seq<nat>, have: nat, n: nat)
    requires Reading(stream, cuts, have) && Undecided(stream, have)
    requires 1 <= n <= HEAD_READ && have + n <= |stream|
    ensures Reading(stream, cuts + [n], have + n)
  {
    var longer := cuts + [n];
    assert longer[..|cuts|] == cuts;
    assert forall k :: 0 <= k <= |cuts| ==> longer[..k] == cuts[..k];
    assert cuts[..|cuts|] == cuts;
  }

  /** The answer where it does not depend on fragments. */
  function HeadAnswer(stream: seq<byte>): Result<nat, ReadError> {
    match Find(stream, BLANK_LINE)
    case None => Err(if |stream| > MAX_RESPONSE_HEAD_BYTES then HeadTooLong else ClosedInHead)
    case Some(pos) => if pos + 4 > MAX_RESPONSE_HEAD_BYTES + 1 then Err(HeadTooLong) else Ok(pos)
  }

  /** The head ends after the first byte past the cap, but within one read past it. */
  predicate InLastRead(stream: seq<byte>) {
    && Find(stream, BLANK_LINE).Some?
    && MAX_RESPONSE_HEAD_BYTES + 1 < Find(stream, BLANK_LINE).value + 4 <= MAX_RESPONSE_HEAD_BYTES + HEAD_READ
  }

  lemma {:induction false} HeadDecided(stream: seq<byte>, cuts: seq<nat>, r: Result<nat, ReadError>)
    requires HeadRun(stream, cuts, r)
    ensures r == HeadAnswer(stream) || (InLastRead(stream) && r == Ok(Find(stream, BLANK_LINE).value))
  {
    var have := Sum(cuts);
    FindInPrefix(stream, BLANK_LINE, have);
    if cuts != [] {
      var before := Sum(cuts[..|cuts| - 1]);
      assert Undecided(stream, before);
      UndecidedIff(stream, before);
    }
  }

  lemma {:induction false} SumOfEqual(n: nat, c: nat)
    ensures Sum(seq(n, _ => c)) == n * c
  {
    if n > 0 {
      SumOfEqual(n - 1, c);
      assert seq(n, _ => c)[..n - 1] == seq(n - 1, _ => c);
      assert n * c == (n - 1) * c + c;
    }
  }

  /** Fragments of equal size that stay within the undecided part, and one more. */
  lemma {:induction false} EqualThenLast(stream: seq<byte>, n: nat, c: nat, last: nat)
    requires 1 <= c <= HEAD_READ && 1 <= last <= HEAD_READ && n * c + last <= |stream|
    requires Undecided(stream, n * c)
    ensures var cuts := seq(n, _ => c) + [last];
            Reading(stream, cuts, n * c + last)
  {
    var cuts := seq(n, _ => c) + [last];
    SumOfEqual(n, c);
    assert cuts[..n] == seq(n, _ => c);
    UndecidedIff(stream, n * c);
    forall k | 0 <= k < |cuts|
      ensures Undecided(stream, Sum(cuts[..k]))
    {
      assert cuts[..k] == seq(k, _ => c);
      SumOfEqual(k, c);
      SumGrows(cuts[..n], k);
      assert cuts[..n][..k] == cuts[..k];
      UndecidedIff(stream, Sum(cuts[..k]));
    }
  }

  /** Such a head is rejected when it comes byte by byte, and accepted when it comes in full reads. */
  lemma {:induction false} LastReadDecides(stream: seq<byte>) returns (slow: seq<nat>, fast: seq<nat>)
    requires InLastRead(stream)
    ensures HeadRun(stream, slow, Err(HeadTooLong))
    ensures HeadRun(stream, fast, Ok(Find(stream, BLANK_LINE).value))
  {
    var end := Find(stream, BLANK_LINE).value + 4;
    UndecidedIff(stream, MAX_RESPONSE_HEAD_BYTES);
    slow := seq(MAX_RESPONSE_HEAD_BYTES, _ => 1) + [1];
    EqualThenLast(stream, MAX_RESPONSE_HEAD_BYTES, 1, 1);
    FindInPrefix(stream, BLANK_LINE, MAX_RESPONSE_HEAD_BYTES + 1);
    fast := seq(64, _ => HEAD_READ) + [end - MAX_RESPONSE_HEAD_BYTES];
    EqualThenLast(stream, 64, HEAD_READ, end - MAX_RESPONSE_HEAD_BYTES);
    FindInPrefix(stream, BLANK_LINE, end);
  }

  /** Two ways for the head to arrive, with their answers, do not differ. */
  ghost predicate SameAnswer(stream: seq<byte>, cuts: seq<nat>, r: Result<nat, ReadError>, cuts': seq<nat>,
                             r': Result<nat, ReadError>)
  {
    HeadRun(stream, cuts, r) && HeadRun(stream, cuts', r') ==> r == r'
  }

  /** Fragmentation decides about a head exactly if it ends in the last read. */
  lemma {:induction false} FragmentsDecideIff(stream: seq<byte>)
    ensures InLastRead(stream) <==> !(forall cuts, r, cuts', r' :: SameAnswer(stream, cuts, r, cuts', r'))
  {
    if InLastRead(stream) {
      var slow, fast := LastReadDecides(stream);
      assert !SameAnswer(stream, slow, Err(HeadTooLong), fast, Ok(Find(stream, BLANK_LINE).value));
    } else {
      forall cuts, r, cuts', r'
        ensures SameAnswer(stream, cuts, r, cuts', r')
      {
        if HeadRun(stream, cuts, r) && HeadRun(stream, cuts', r') {
          HeadDecided(stream, cuts, r);
          HeadDecided(stream, cuts', r');
        }
      }
    }
  }
}
