/**
 Paced load generation. One dispenser tops up a shared permit balance on a 50 ms grid; any
 number of workers take permits from it by compare-and-swap. Loads, additions and swaps are
 steps of their own, interleaved arbitrarily. Time is nanoseconds since the pacing epoch and
 rates are exact.
 */
module Pacing {
  import opened Numbers

  const SECOND: nat := 1_000_000_000
  const MILLISECOND: nat := 1_000_000
  const PACE_SLICE: nat := 50 * MILLISECOND

  /** Tokens per slice, rounded up and at least one. */
  function PerSlice(rate: nat): nat {
    var n := (rate + 19) / 20;
    if n < 1 then 1 else n
  }

  /** It is the least number of tokens, at least one, that twenty slices a second turn into the rate. */
  lemma {:induction false} PerSliceIsLeast(rate: nat)
    ensures PerSlice(rate) >= 1 && 20 * PerSlice(rate) >= rate
    ensures forall n: nat :: n >= 1 && 20 * n >= rate ==> PerSlice(rate) <= n
  {
  }

  /** What the schedule owes at `t`: the rate so far, rounded down, plus one slice. */
  function Owed(rate: nat, t: nat): nat {
    rate * t / SECOND + PerSlice(rate)
  }

  function SaturatingSub(a: nat, b: nat): nat {
    if a < b then 0 else a - b
  }

  /** One dispenser tick's decision. */
  function PaceTopUp(owed: nat, paid: nat, balance: nat, perSlice: nat): nat {
    SaturatingSub(Min(owed, SaturatingSub(paid, balance) + perSlice), paid)
  }

  /** Nanoseconds from `now` to the wake-up after it: the phase is taken in whole milliseconds,
      and a `now` before the epoch counts as phase 0. */
  function UntilNextTick(now: int, epoch: int): (wait: nat) {
    var phase := (if now < epoch then 0 else (now - epoch) / MILLISECOND) % 50;
    (if phase == 0 then 50 else 50 - phase) * MILLISECOND
  }

  // ---------- The grid ----------

  /** The first grid point strictly after `t`. */
  function NextBoundary(t: nat): nat {
    (t / PACE_SLICE + 1) * PACE_SLICE
  }

  /** A starved worker wakes at the next grid point, late only by the fraction of a millisecond
      that the phase ignores. */
  lemma {:induction false} WakesOnGrid(t: nat)
    ensures t + UntilNextTick(t, 0) == NextBoundary(t) + t % MILLISECOND
    ensures t < NextBoundary(t) <= t + UntilNextTick(t, 0) < NextBoundary(t) + MILLISECOND
  {
    var ms := t / MILLISECOND;
    assert t == ms * MILLISECOND + t % MILLISECOND;
    assert ms == (ms / 50) * 50 + ms % 50;
    assert t / PACE_SLICE == ms / 50;
  }

  /** Any epoch will do; before it a wait is a full slice. */
  lemma {:induction false} WaitsFromEpoch(now: int, epoch: int)
    ensures now >= epoch ==> UntilNextTick(now, epoch) == UntilNextTick(now - epoch, 0)
    ensures now < epoch ==> UntilNextTick(now, epoch) == PACE_SLICE
  {
  }

  /** When a worker that finds no permit again and again wakes for the n-th time. */
  function NthWake(t: nat, n: nat): nat {
    if n == 0 then t
    else
      var before := NthWake(t, n - 1);
      before + UntilNextTick(before, 0)
  }

  lemma {:induction false} GridPoint(k: nat, r: nat)
    requires r < MILLISECOND
    ensures (k * PACE_SLICE + r) / PACE_SLICE == k && (k * PACE_SLICE + r) % MILLISECOND == r
  {
    assert k * PACE_SLICE == (50 * k) * MILLISECOND;
  }

  /** Repeated sleeps never drift: the n-th wake-up is the n-th grid point after `t`, late by the
      same fraction of a millisecond as the first. */
  lemma {:induction false} SleepsNeverDrift(t: nat, n: nat)
    requires n >= 1
    ensures NthWake(t, n) == (t / PACE_SLICE + n) * PACE_SLICE + t % MILLISECOND
  {
    if n == 1 {
      assert NthWake(t, 0) == t;
      WakesOnGrid(t);
    } else {
      SleepsNeverDrift(t, n - 1);
      GridPoint(t / PACE_SLICE + n - 1, t % MILLISECOND);
      WakesOnGrid(NthWake(t, n - 1));
    }
  }

  // ---------- The exact schedule ----------

  /** Over at most one slice of time the schedule grows by at most one slice of tokens. */
  lemma {:induction false} OwedGrowth(rate: nat, t: nat, d: nat)
    requires d <= PACE_SLICE
    ensures Owed(rate, t) <= Owed(rate, t + d) <= Owed(rate, t) + PerSlice(rate)
  {
    var p := PerSlice(rate);
    assert rate <= 20 * p;
    assert rate * d <= (20 * p) * PACE_SLICE == p * SECOND by {
      MulMonotone(rate, 20 * p, d, PACE_SLICE);
    }
    assert rate * (t + d) == rate * t + rate * d;
    DivMonotone(rate * t, rate * (t + d), SECOND);
    DivMonotone(rate * (t + d), rate * t + p * SECOND, SECOND);
    assert (rate * t + p * SECOND) / SECOND == rate * t / SECOND + p;
  }

  lemma {:induction false} MulMonotone(a: nat, b: nat, c: nat, d: nat)
    requires a <= b && c <= d
    ensures a * c <= b * d
  {
    assert a * c <= b * c;
    assert b * c <= b * d;
  }

  lemma {:induction false} DivMonotone(a: nat, b: nat, d: nat)
    requires a <= b && d > 0
    ensures a / d <= b / d
  {
    var q, r := a / d, b / d;
    assert q * d <= a <= b < (r + 1) * d;
    if q > r {
      MulMonotone(r + 1, q, d, d);
    }
  }

  /** With an empty balance a tick reaches the schedule exactly when it is at most one slice
      behind it. */
  lemma {:induction false} TickReachesSchedule(owed: nat, paid: nat, perSlice: nat)
    requires paid <= owed
    ensures paid + PaceTopUp(owed, paid, 0, perSlice) == owed <==> owed - paid <= perSlice
  {
  }

  // ---------- The protocol ----------

  /** Where a worker stands in its measurement loop. */
  datatype Worker =
    | Ready
    | Acquiring
    | Seen(balance: nat)
    | Missed
    | Starved(until: nat)
    | Granted
    | GivenUp
    | Measuring
    | Done

  /** Where the dispenser stands in its tick. */
  datatype Dispenser = Waiting | Owing(owed: nat) | Sampled(owed: nat, balance: nat)

  /** `consumed` counts successful swaps, `measured` requests begun in the measurement loop,
      `unused` permits held past the deadline, `ticks` completed dispenser ticks. */
  datatype State = State(
    now: nat,
    permits: nat,
    paid: nat,
    dispenser: Dispenser,
    workers: seq<Worker>,
    consumed: nat,
    measured: nat,
    unused: nat,
    ticks: nat)

  datatype Step =
    | Pass(time: nat)
    | ReadClock
    | LoadBalance
    | TopUp
    | WorkerStep(w: nat)

  /** The run's parameters. */
  datatype Rig = Rig(rate: nat, deadline: nat)

  predicate Enabled(s: State, step: Step) {
    match step
    case Pass(_) => true
    case ReadClock => s.dispenser == Waiting
    case LoadBalance => s.dispenser.Owing?
    case TopUp => s.dispenser.Sampled?
    case WorkerStep(w) =>
      && w < |s.workers| && s.workers[w] != Done
      && (s.workers[w].Starved? ==> s.workers[w].until <= s.now)
  }

  /** One step of worker `w`: the loop test, the load, the swap, the deadline test after a miss,
      the wake-up, the deadline test after `acquire_permit`, the end of a request. */
  function WorkerNext(rig: Rig, s: State, w: nat): State
    requires w < |s.workers|
  {
    match s.workers[w]
    case Ready => s.(workers := s.workers[w := if s.now < rig.deadline then Acquiring else Done])
    case Acquiring => s.(workers := s.workers[w := Seen(s.permits)])
    case Seen(b) =>
      if b > 0 && s.permits == b then
        s.(permits := b - 1, consumed := s.consumed + 1, workers := s.workers[w := Granted])
      else s.(workers := s.workers[w := Missed])
    case Missed =>
      s.(workers := s.workers[w := if s.now >= rig.deadline then GivenUp else Starved(s.now + UntilNextTick(s.now, 0))])
    case Starved(_) => s.(workers := s.workers[w := Acquiring])
    case Granted =>
      if s.now >= rig.deadline then s.(unused := s.unused + 1, workers := s.workers[w := Done])
      else s.(measured := s.measured + 1, workers := s.workers[w := Measuring])
    case GivenUp =>
      if s.now >= rig.deadline then s.(workers := s.workers[w := Done])
      else s.(measured := s.measured + 1, workers := s.workers[w := Measuring])
    case Measuring => s.(workers := s.workers[w := Ready])
    case Done => s
  }

  function Next(rig: Rig, s: State, step: Step): State
    requires Enabled(s, step)
  {
    match step
    case Pass(time) => s.(now := s.now + time)
    case ReadClock => s.(dispenser := Owing(Owed(rig.rate, s.now)))
    case LoadBalance => s.(dispenser := Sampled(s.dispenser.owed, s.permits))
    case TopUp =>
      var add := PaceTopUp(s.dispenser.owed, s.paid, s.dispenser.balance, PerSlice(rig.rate));
      s.(permits := s.permits + add, paid := s.paid + add, dispenser := Waiting, ticks := s.ticks + 1)
    case WorkerStep(w) => WorkerNext(rig, s, w)
  }

  /** How many workers hold a permit they have not used yet. */
  function Holding(workers: seq<Worker>): nat {
    if workers == [] then 0 else (if workers[0] == Granted then 1 else 0) + Holding(workers[1..])
  }

  lemma {:induction false} HoldingUpdate(workers: seq<Worker>, w: nat, x: Worker)
    requires w < |workers|
    ensures Holding(workers[w := x]) + (if workers[w] == Granted then 1 else 0)
            == Holding(workers) + (if x == Granted then 1 else 0)
  {
    if w == 0 {
      assert workers[0 := x][1..] == workers[1..];
    } else {
      HoldingUpdate(workers[1..], w - 1, x);
      assert workers[w := x][1..] == workers[1..][w - 1 := x];
    }
  }

  predicate Init(s: State) {
    && s.permits == s.paid == s.consumed == s.measured == s.unused == s.ticks == 0
    && s.dispenser == Waiting
    && forall i :: 0 <= i < |s.workers| ==> s.workers[i] == Ready
  }

  predicate WorkerInv(rig: Rig, now: nat, w: Worker) {
    match w
    case GivenUp => now >= rig.deadline
    case Done => now >= rig.deadline
    case Starved(until) => until % PACE_SLICE < MILLISECOND && until <= now + PACE_SLICE
    case _ => true
  }

  predicate DispenserInv(rig: Rig, s: State) {
    match s.dispenser
    case Waiting => true
    case Owing(owed) => owed <= Owed(rig.rate, s.now)
    case Sampled(owed, balance) => owed <= Owed(rig.rate, s.now) && s.permits <= balance <= s.paid
  }

  predicate Inv(rig: Rig, s: State) {
    && s.paid == s.consumed + s.permits
    && s.permits <= PerSlice(rig.rate)
    && s.paid <= Owed(rig.rate, s.now)
    && s.consumed == s.measured + s.unused + Holding(s.workers)
    && (s.unused > 0 ==> s.now >= rig.deadline)
    && DispenserInv(rig, s)
    && forall i :: 0 <= i < |s.workers| ==> WorkerInv(rig, s.now, s.workers[i])
  }

  lemma {:induction false} NobodyHolds(workers: seq<Worker>)
    requires forall i :: 0 <= i < |workers| ==> workers[i] == Ready
    ensures Holding(workers) == 0
  {
    if workers != [] {
      NobodyHolds(workers[1..]);
    }
  }

  lemma {:induction false} OwedGrows(rate: nat, t: nat, d: nat)
    ensures Owed(rate, t) <= Owed(rate, t + d)
  {
    MulMonotone(rate, rate, t, t + d);
    DivMonotone(rate * t, rate * (t + d), SECOND);
  }

  /** A worker step keeps the books: a permit leaves the balance only into a worker's hand, and
      leaves the hand only for one measured request or unused past the deadline. */
  lemma {:induction false} WorkerStepKeepsBooks(rig: Rig, s: State, w: nat)
    requires Inv(rig, s) && Enabled(s, WorkerStep(w))
    ensures var t := WorkerNext(rig, s, w);
            && t.paid == t.consumed + t.permits && t.permits <= s.permits
            && t.consumed == t.measured + t.unused + Holding(t.workers)
            && (t.unused > 0 ==> t.now >= rig.deadline)
  {
    assert WorkerInv(rig, s.now, s.workers[w]);
    var t := WorkerNext(rig, s, w);
    assert s.now == t.now;
    HoldingUpdate(s.workers, w, t.workers[w]);
    assert t.workers == s.workers[w := t.workers[w]];
  }

  lemma {:induction false} WorkerStepKeepsWorkers(rig: Rig, s: State, w: nat)
    requires Inv(rig, s) && Enabled(s, WorkerStep(w))
    ensures var t := WorkerNext(rig, s, w);
            && |t.workers| == |s.workers| && t.now == s.now && t.paid == s.paid && t.dispenser == s.dispenser
            && forall i :: 0 <= i < |t.workers| ==> WorkerInv(rig, t.now, t.workers[i])
  {
    WakesOnGrid(s.now);
    GridPoint(s.now / PACE_SLICE + 1, s.now % MILLISECOND);
  }

  lemma {:induction false} StepKeepsInv(rig: Rig, s: State, step: Step)
    requires Inv(rig, s) && Enabled(s, step)
    ensures Inv(rig, Next(rig, s, step))
  {
    match step
    case Pass(time) => OwedGrows(rig.rate, s.now, time);
    case WorkerStep(w) =>
      WorkerStepKeepsBooks(rig, s, w);
      WorkerStepKeepsWorkers(rig, s, w);
    case _ =>
  }

  ghost predicate MoveAt(rig: Rig, path: seq<State>, i: nat)
    requires i + 1 < |path|
  {
    exists step :: Enabled(path[i], step) && path[i + 1] == Next(rig, path[i], step)
  }

  ghost predicate Run(rig: Rig, path: seq<State>) {
    path != [] && forall i: nat :: i + 1 < |path| ==> MoveAt(rig, path, i)
  }

  lemma {:induction false} RunKeepsInv(rig: Rig, path: seq<State>, n: nat)
    requires Run(rig, path) && Init(path[0]) && n < |path|
    ensures Inv(rig, path[n])
  {
    if n == 0 {
      NobodyHolds(path[0].workers);
    } else {
      RunKeepsInv(rig, path, n - 1);
      assert MoveAt(rig, path, n - 1);
      var step :| Enabled(path[n - 1], step) && path[n] == Next(rig, path[n - 1], step);
      StepKeepsInv(rig, path[n - 1], step);
    }
  }

  /** Pacing safety over every interleaving: the books balance, the balance never exceeds one
      slice, and the requests measured by time `now` never exceed the rate so far plus one slice.
      Before the deadline no permit is wasted and no worker stops: each permit taken is a request
      measured or one about to be, and a starved worker sleeps a slice at most. */
  lemma {:induction false} PacingIsSafe(rig: Rig, path: seq<State>, n: nat)
    requires Run(rig, path) && Init(path[0]) && n < |path|
    ensures var s := path[n];
            && s.paid == s.consumed + s.permits
            && s.permits <= PerSlice(rig.rate)
            && s.measured <= s.consumed <= s.paid <= rig.rate * s.now / SECOND + PerSlice(rig.rate)
            && (s.now < rig.deadline ==> s.consumed == s.measured + Holding(s.workers))
    ensures forall w :: 0 <= w < |path[n].workers| ==>
              && (path[n].workers[w] == Done ==> path[n].now >= rig.deadline)
              && (path[n].workers[w].Starved? ==> path[n].workers[w].until <= path[n].now + PACE_SLICE)
  {
    RunKeepsInv(rig, path, n);
    forall w | 0 <= w < |path[n].workers|
      ensures WorkerInv(rig, path[n].now, path[n].workers[w])
    {
    }
  }

  /** What one step adds: to the paid total at most a slice, and only by completing a tick. */
  lemma {:induction false} StepPays(rig: Rig, s: State, step: Step)
    requires Enabled(s, step)
    ensures var t := Next(rig, s, step);
            && s.ticks <= t.ticks && s.paid <= t.paid
            && t.paid - s.paid <= (t.ticks - s.ticks) * PerSlice(rig.rate)
  {
  }

  lemma {:induction false} TicksPay(rig: Rig, path: seq<State>, m: nat, n: nat)
    requires Run(rig, path) && m <= n < |path|
    ensures path[m].ticks <= path[n].ticks
    ensures path[n].paid <= path[m].paid + (path[n].ticks - path[m].ticks) * PerSlice(rig.rate)
    decreases n - m
  {
    if m < n {
      TicksPay(rig, path, m, n - 1);
      assert MoveAt(rig, path, n - 1);
      var step :| Enabled(path[n - 1], step) && path[n] == Next(rig, path[n - 1], step);
      StepPays(rig, path[n - 1], step);
      var k, l, p := path[n - 1].ticks - path[m].ticks, path[n].ticks - path[n - 1].ticks, PerSlice(rig.rate);
      assert (k + l) * p == k * p + l * p;
    }
  }

  /** No burst: in any window with k dispenser ticks workers consume at most k + 1 slices, however
      long they idled before. */
  lemma {:induction false} NoBurst(rig: Rig, path: seq<State>, m: nat, n: nat)
    requires Run(rig, path) && Init(path[0]) && m <= n < |path|
    ensures path[n].consumed - path[m].consumed <= (path[n].ticks - path[m].ticks + 1) * PerSlice(rig.rate)
  {
    RunKeepsInv(rig, path, m);
    RunKeepsInv(rig, path, n);
    TicksPay(rig, path, m, n);
    var k, p := path[n].ticks - path[m].ticks, PerSlice(rig.rate);
    assert (k + 1) * p == k * p + p;
  }
}
