/**
 The OTLP exporter's bounded retry loop: up to a number of posts under one shared deadline,
 with doubling capped backoff that a `Retry-After` answer replaces for one wait. Durations
 and instants are nanoseconds; the clock only moves forward and a sleep lasts at least as
 long as asked.
 */
module ExportRetry {
  import opened Wrappers
  import opened Numbers

  const MAX_EXPORT_ATTEMPTS: nat := 3
  /** `Duration::MAX`, where `saturating_mul` stops. */
  const DURATION_MAX: nat := 0xFFFF_FFFF_FFFF_FFFF * 1_000_000_000 + 999_999_999

  /** The attempt count from the environment: unset, unparseable and zero fall back to the
      default, so it is never zero. */
  function MaxExportAttempts(setting: Option<Option<nat>>): (n: nat)
    ensures n >= 1
    ensures setting.Some? && setting.value.Some? && setting.value.value > 0 ==> n == setting.value.value
  {
    match setting
    case Some(Some(n)) => if n > 0 then n else MAX_EXPORT_ATTEMPTS
    case _ => MAX_EXPORT_ATTEMPTS
  }

  /** What one post came to: the endpoint is unsupported, no connection, a socket failure at an
      instant, or the collector's answer with its seconds-form `Retry-After` as a duration. */
  datatype Exchange =
    | Unsupported
    | Unreachable
    | Broken(at: nat)
    | Answer(status: nat, retryAfter: Option<nat>)

  datatype Attempt = Accepted(status: nat) | Fatal | Retry(retryAfter: Option<nat>)

  predicate IsRetryableStatus(status: nat) {
    status == 429 || status == 502 || status == 503 || status == 504
  }

  /** A socket failure after the deadline is the spent budget, so retrying it is pointless. */
  function Classify(x: Exchange, deadline: nat): Attempt {
    match x
    case Unsupported => Fatal
    case Unreachable => Retry(None)
    case Broken(at) => if at >= deadline then Fatal else Retry(None)
    case Answer(status, retryAfter) =>
      if status < 400 then Accepted(status)
      else if IsRetryableStatus(status) then Retry(retryAfter)
      else Fatal
  }

  /** What is worth another post: no connection, a failure before the deadline, and four statuses. */
  predicate IsTransient(x: Exchange, deadline: nat) {
    || x == Unreachable
    || (x.Broken? && x.at < deadline)
    || (x.Answer? && x.status in {429, 502, 503, 504})
  }

  lemma {:induction false} ClassifyIff(x: Exchange, deadline: nat)
    ensures Classify(x, deadline).Retry? <==> IsTransient(x, deadline)
    ensures Classify(x, deadline).Accepted? <==> x.Answer? && x.status < 400
    ensures x.Answer? && x.status < 400 ==> Classify(x, deadline) == Accepted(x.status)
  {
  }

  function NextBackoff(backoff: nat, cap: nat): nat {
    Min(Min(2 * backoff, DURATION_MAX), cap)
  }

  /** The computed backoff before the retry after `retries` earlier ones. */
  function Backoff(base: nat, cap: nat, retries: nat): nat {
    if retries == 0 then base else NextBackoff(Backoff(base, cap, retries - 1), cap)
  }

  lemma {:induction false} DoubledMin(base: nat, p: nat, cap: nat)
    ensures Min(2 * Min(base * p, cap), cap) == Min(base * (2 * p), cap)
  {
    assert 2 * (base * p) == base * (2 * p);
  }

  /** The first wait is the base, even above the cap; every later one the doubled base, capped. */
  lemma {:induction false} BackoffClosedForm(base: nat, cap: nat, retries: nat)
    requires base <= DURATION_MAX && cap <= DURATION_MAX
    ensures Backoff(base, cap, retries) == if retries == 0 then base else Min(base * Pow2(retries), cap)
  {
    if retries == 1 {
      assert Pow2(1) == 2 * Pow2(0) == 2;
    } else if retries > 1 {
      BackoffClosedForm(base, cap, retries - 1);
      DoubledMin(base, Pow2(retries - 1), cap);
    }
  }

  /** The wait after a retryable attempt: a positive `Retry-After`, else the computed backoff. */
  function WaitAfter(a: Attempt, backoff: nat): nat
    requires a.Retry?
  {
    if a.retryAfter.Some? && a.retryAfter.value != 0 then a.retryAfter.value else backoff
  }

  /** The clock and the collector. */
  class World {
    var now: nat

    constructor (start: nat)
      ensures now == start
    {
      now := start;
    }

    method Now() returns (t: nat)
      modifies this
      ensures t == now >= old(now)
    {
      var passed: nat :| passed >= 0;
      now := now + passed;
      t := now;
    }

    method Sleep(wait: nat)
      modifies this
      ensures now >= old(now) + wait
    {
      var late: nat :| late >= 0;
      now := now + wait + late;
    }

    method Post() returns (x: Exchange)
      modifies this
      ensures now >= old(now)
      ensures x.Broken? ==> old(now) <= x.at <= now
    {
      var t := Now();
      x := *;
      if x.Broken? {
        x := Broken(t);
      }
    }
  }

  /** A sleep: the clock reading it was decided on and its length. */
  datatype Nap = Nap(start: nat, wait: nat)

  /** Naps follow one another from `from` on, each one decided to end before the deadline. */
  predicate NapsFrom(naps: seq<Nap>, from: nat, deadline: nat) {
    && (forall i :: 0 <= i < |naps| ==> naps[i].start + naps[i].wait < deadline)
    && (naps != [] ==> from <= naps[0].start)
    && (forall i :: 0 <= i < |naps| - 1 ==> naps[i].start + naps[i].wait <= naps[i + 1].start)
  }

  /** Each nap follows a retryable post, for as long as its answer or the backoff says. */
  predicate NapsDue(posts: seq<Exchange>, naps: seq<Nap>, base: nat, cap: nat, deadline: nat) {
    && |naps| <= |posts|
    && forall i :: 0 <= i < |naps| ==>
         && Classify(posts[i], deadline).Retry?
         && naps[i].wait == WaitAfter(Classify(posts[i], deadline), Backoff(base, cap, i))
  }

  /**
   Every nap follows a transient failure. It lasts as long as the answer asked for, if that is not
   zero, and else the base at first and the doubled base, capped, after that.
   */
  lemma {:induction false} NapsLast(posts: seq<Exchange>, naps: seq<Nap>, base: nat, cap: nat, deadline: nat, i: nat)
    requires NapsDue(posts, naps, base, cap, deadline) && i < |naps| && base <= DURATION_MAX && cap <= DURATION_MAX
    ensures IsTransient(posts[i], deadline)
    ensures naps[i].wait ==
            if posts[i].Answer? && posts[i].retryAfter.Some? && posts[i].retryAfter.value > 0 then
              posts[i].retryAfter.value
            else if i == 0 then base
            else Min(base * Pow2(i), cap)
  {
    ClassifyIff(posts[i], deadline);
    BackoffClosedForm(base, cap, i);
  }

  function TotalWait(naps: seq<Nap>): nat {
    if naps == [] then 0 else naps[0].wait + TotalWait(naps[1..])
  }

  /** Retries cannot stretch an export: all waits together fit before the deadline. */
  lemma {:induction false} WaitsWithinBudget(naps: seq<Nap>, from: nat, deadline: nat)
    requires NapsFrom(naps, from, deadline) && naps != []
    ensures from + TotalWait(naps) < deadline
    decreases |naps|
  {
    if |naps| == 1 {
      assert naps[1..] == [];
    } else {
      WaitsWithinBudget(naps[1..], naps[0].start + naps[0].wait, deadline);
    }
  }

  /**
   Posts until an attempt is accepted or fatal, the attempts are used up, or the next wait
   would reach the deadline. Answers the last attempt; `posts` and `naps` tell the run.
   */
  method SendWithRetry(world: World, maxAttempts: nat, base: nat, cap: nat, deadline: nat)
    returns (result: Attempt, posts: seq<Exchange>, naps: seq<Nap>)
    requires maxAttempts >= 1
    modifies world
    ensures 1 <= |posts| <= maxAttempts && |naps| == |posts| - 1
    ensures result == Classify(posts[|posts| - 1], deadline)
    ensures NapsDue(posts, naps, base, cap, deadline)
    ensures result.Retry? <==> IsTransient(posts[|posts| - 1], deadline)
    ensures result.Accepted? <==> posts[|posts| - 1].Answer? && posts[|posts| - 1].status < 400
    ensures NapsFrom(naps, old(world.now), deadline)
    ensures result.Retry? && |posts| < maxAttempts ==>
              world.now + WaitAfter(result, Backoff(base, cap, |posts| - 1)) >= deadline
  {
    posts, naps := [], [];
    var backoff := base;
    for attempt := 1 to maxAttempts + 1
      invariant |posts| == |naps| == attempt - 1 < maxAttempts
      invariant backoff == Backoff(base, cap, attempt - 1)
      invariant NapsDue(posts, naps, base, cap, deadline)
      invariant NapsFrom(naps, old(world.now), deadline)
      invariant world.now >= old(world.now)
      invariant naps != [] ==> world.now >= naps[|naps| - 1].start + naps[|naps| - 1].wait
    {
      var x := world.Post();
      posts := posts + [x];
      result := Classify(x, deadline);
      ClassifyIff(x, deadline);
      if !result.Retry? || attempt == maxAttempts {
        return;
      }
      var wait := WaitAfter(result, backoff);
      backoff := NextBackoff(backoff, cap);
      var t := world.Now();
      if t >= deadline || wait >= deadline - t {
        return;
      }
      naps := naps + [Nap(t, wait)];
      world.Sleep(wait);
    }
    assert false;
  }
}
