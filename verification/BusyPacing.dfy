/**
 What busy workers get: in runs of the dispenser and its workers in which the dispenser always finds
 the balance empty, every tick pays the schedule in full exactly if the schedule never grows by more
 than a slice from one tick to the next.
 */
module BusyPacing {
  import opened Pacing

  /** What is paid after ticks that owed `owes`, each one finding the balance empty. */
  function PaidFor(owes: seq<nat>, perSlice: nat): nat {
    if owes == [] then 0
    else
      var paid := PaidFor(owes[..|owes| - 1], perSlice);
      paid + PaceTopUp(owes[|owes| - 1], paid, 0, perSlice)
  }

  predicate Ascends(owes: seq<nat>) {
    forall i :: 0 < i < |owes| ==> owes[i - 1] <= owes[i]
  }

  function LastOwed(owes: seq<nat>): nat {
    if owes == [] then 0 else owes[|owes| - 1]
  }

  /** The schedule starts within a slice and grows by at most a slice between ticks. */
  predicate InSlices(owes: seq<nat>, perSlice: nat) {
    && (owes != [] ==> owes[0] <= perSlice)
    && forall i :: 0 < i < |owes| ==> owes[i] <= owes[i - 1] + perSlice
  }

  lemma {:induction false} NeverOverpaid(owes: seq<nat>, perSlice: nat)
    requires Ascends(owes)
    ensures PaidFor(owes, perSlice) <= LastOwed(owes)
    ensures InSlices(owes, perSlice) ==> PaidFor(owes, perSlice) == LastOwed(owes)
  {
    if owes != [] {
      NeverOverpaid(owes[..|owes| - 1], perSlice);
    }
  }

  /** One more tick reaches the schedule exactly if it is within a slice of the tick before. */
  lemma {:induction false} NextTickIff(owes: seq<nat>, owed: nat, perSlice: nat)
    requires Ascends(owes) && LastOwed(owes) <= owed && InSlices(owes, perSlice)
    ensures PaidFor(owes + [owed], perSlice) == owed <==> InSlices(owes + [owed], perSlice)
  {
    var longer := owes + [owed];
    assert longer[..|owes|] == owes;
    NeverOverpaid(owes, perSlice);
    TickReachesSchedule(owed, PaidFor(owes, perSlice), perSlice);
  }

  // ---------- The ticks of a run ----------

  /** At step `i` the dispenser completes a tick. */
  predicate TickAt(path: seq<State>, i: nat)
    requires i + 1 < |path|
  {
    path[i].dispenser.Sampled? && path[i + 1].dispenser == Waiting
  }

  /** What the completed ticks of a run owed, in order. */
  function TicksOf(path: seq<State>): seq<nat>
    requires path != []
  {
    var n := |path| - 1;
    if n == 0 then []
    else TicksOf(path[..n]) + if TickAt(path, n - 1) then [path[n - 1].dispenser.owed] else []
  }

  /** The workers have emptied the balance whenever the dispenser loads it. */
  predicate Busy(path: seq<State>) {
    forall i: nat :: i + 1 < |path| ==> EmptyWhenLoaded(path, i)
  }

  predicate EmptyWhenLoaded(path: seq<State>, i: nat)
    requires i + 1 < |path|
  {
    path[i].dispenser.Owing? && path[i + 1].dispenser.Sampled? ==> path[i].permits == 0
  }

  /** Every completed tick of the run has paid all it owed. */
  predicate PaysInFull(path: seq<State>) {
    forall i: nat :: i + 1 < |path| ==> TickPays(path, i)
  }

  predicate TickPays(path: seq<State>, i: nat)
    requires i + 1 < |path|
  {
    TickAt(path, i) ==> path[i + 1].paid == path[i].dispenser.owed
  }

  lemma {:induction false} Front(rig: Rig, path: seq<State>)
    requires Run(rig, path) && Busy(path) && |path| > 1
    ensures var n := |path| - 1;
            && Run(rig, path[..n]) && Busy(path[..n]) && MoveAt(rig, path, n - 1) && EmptyWhenLoaded(path, n - 1)
            && (PaysInFull(path) <==> PaysInFull(path[..n]) && TickPays(path, n - 1))
  {
    var n := |path| - 1;
    var front := path[..n];
    forall i: nat | i + 1 < |front|
      ensures MoveAt(rig, front, i) && EmptyWhenLoaded(front, i) && (TickPays(front, i) <==> TickPays(path, i))
    {
      assert MoveAt(rig, path, i) && EmptyWhenLoaded(path, i);
    }
    assert MoveAt(rig, path, n - 1) && EmptyWhenLoaded(path, n - 1);
    if PaysInFull(front) && TickPays(path, n - 1) {
      forall i: nat | i + 1 < |path|
        ensures TickPays(path, i)
      {
        assert i + 1 < |front| ==> TickPays(front, i);
      }
    }
    if PaysInFull(path) {
      forall i: nat | i + 1 < |front|
        ensures TickPays(front, i)
      {
        assert TickPays(path, i);
      }
    }
  }

  /** What the dispenser owes in the tick it is at, and what it found. */
  predicate TickInv(rate: nat, s: State, owes: seq<nat>) {
    && s.paid == PaidFor(owes, PerSlice(rate)) && Ascends(owes) && LastOwed(owes) <= Owed(rate, s.now)
    && match s.dispenser
       case Waiting => true
       case Owing(owed) => LastOwed(owes) <= owed <= Owed(rate, s.now)
       case Sampled(owed, balance) => LastOwed(owes) <= owed <= Owed(rate, s.now) && balance == 0
  }

  lemma {:induction false} StepKeepsTicks(rig: Rig, s: State, step: Step, owes: seq<nat>)
    requires TickInv(rig.rate, s, owes) && Enabled(s, step)
    requires step.LoadBalance? ==> s.permits == 0
    ensures TickInv(rig.rate, Next(rig, s, step), if step.TopUp? then owes + [s.dispenser.owed] else owes)
  {
    match step
    case Pass(time) => OwedGrows(rig.rate, s.now, time);
    case TopUp => assert (owes + [s.dispenser.owed])[..|owes|] == owes;
    case WorkerStep(w) => WorkerLeavesDispenser(rig, s, w);
    case _ =>
  }

  lemma {:induction false} WorkerLeavesDispenser(rig: Rig, s: State, w: nat)
    requires w < |s.workers|
    ensures var t := WorkerNext(rig, s, w); t.dispenser == s.dispenser && t.paid == s.paid && t.now == s.now
  {
  }

  /** The last move of a busy run, by some step. */
  lemma {:induction false} LastStep(rig: Rig, path: seq<State>) returns (step: Step)
    requires Run(rig, path) && Busy(path) && |path| > 1
    ensures var s, t := path[|path| - 2], path[|path| - 1];
            && Enabled(s, step) && t == Next(rig, s, step) && (step.LoadBalance? ==> s.permits == 0)
            && (TickAt(path, |path| - 2) <==> step.TopUp?)
    ensures var earlier := TicksOf(path[..|path| - 1]);
            TicksOf(path) == if step.TopUp? then earlier + [path[|path| - 2].dispenser.owed] else earlier
  {
    var n := |path| - 1;
    Front(rig, path);
    step :| Enabled(path[n - 1], step) && path[n] == Next(rig, path[n - 1], step);
    assert TicksOf(path[..n]) + [] == TicksOf(path[..n]);
  }

  lemma {:induction false} RunKeepsTicks(rig: Rig, path: seq<State>)
    requires Run(rig, path) && Init(path[0]) && Busy(path)
    ensures TickInv(rig.rate, path[|path| - 1], TicksOf(path))
    decreases |path|
  {
    var n := |path| - 1;
    if n > 0 {
      Front(rig, path);
      RunKeepsTicks(rig, path[..n]);
      var step := LastStep(rig, path);
      StepKeepsTicks(rig, path[n - 1], step, TicksOf(path[..n]));
    }
  }

  /** A completed tick pays in full exactly if it is within a slice of an orderly past. */
  lemma {:induction false} TickPaysIff(rig: Rig, s: State, owes: seq<nat>)
    requires TickInv(rig.rate, s, owes) && Enabled(s, TopUp)
    ensures var t, p := Next(rig, s, TopUp), PerSlice(rig.rate);
            InSlices(owes, p) && t.paid == s.dispenser.owed <==> InSlices(owes + [s.dispenser.owed], p)
  {
    var owed, p := s.dispenser.owed, PerSlice(rig.rate);
    if InSlices(owes, p) {
      StepKeepsTicks(rig, s, TopUp, owes);
      NextTickIff(owes, owed, p);
    } else {
      LongerNotInSlices(owes, owed, p);
    }
  }

  lemma {:induction false} LongerNotInSlices(owes: seq<nat>, owed: nat, perSlice: nat)
    requires !InSlices(owes, perSlice)
    ensures !InSlices(owes + [owed], perSlice)
  {
    var longer := owes + [owed];
    assert forall i :: 0 <= i < |owes| ==> longer[i] == owes[i];
  }

  /**
   With busy workers, in whatever interleaving, every tick of a run pays the schedule in full if and
   only if the first tick owes at most a slice and no tick owes a slice more than the one before.
   */
  lemma {:induction false} BusyWorkersPaidIff(rig: Rig, path: seq<State>)
    requires Run(rig, path) && Init(path[0]) && Busy(path)
    ensures PaysInFull(path) <==> InSlices(TicksOf(path), PerSlice(rig.rate))
    decreases |path|
  {
    var n := |path| - 1;
    if n > 0 {
      Front(rig, path);
      BusyWorkersPaidIff(rig, path[..n]);
      RunKeepsTicks(rig, path[..n]);
      var step := LastStep(rig, path);
      if step.TopUp? {
        TickPaysIff(rig, path[n - 1], TicksOf(path[..n]));
      }
    }
  }

  // ---------- Timely ticks ----------

  /** What is owed at each of a list of times. */
  function OwedAt(rate: nat, times: seq<nat>): seq<nat> {
    seq(|times|, i requires 0 <= i < |times| => Owed(rate, times[i]))
  }

  /** The first tick finds nothing owed but the opening slice, and ticks come at most 50 ms apart. */
  predicate OnTime(rate: nat, times: seq<nat>) {
    && (times != [] ==> Owed(rate, times[0]) == PerSlice(rate))
    && forall i :: 0 < i < |times| ==> times[i - 1] <= times[i] <= times[i - 1] + PACE_SLICE
  }

  /** Busy workers get exactly the requested schedule, for every rate: when ticks are timely the
      catch-up cap never costs throughput. */
  lemma {:induction false} BusyWorkersGetSchedule(rig: Rig, path: seq<State>, times: seq<nat>)
    requires Run(rig, path) && Init(path[0]) && Busy(path)
    requires TicksOf(path) == OwedAt(rig.rate, times) && OnTime(rig.rate, times)
    ensures PaysInFull(path)
  {
    var owes := OwedAt(rig.rate, times);
    forall i | 0 < i < |owes|
      ensures owes[i] <= owes[i - 1] + PerSlice(rig.rate)
    {
      OwedGrowth(rig.rate, times[i - 1], times[i] - times[i - 1]);
    }
    BusyWorkersPaidIff(rig, path);
  }

  /** The completed ticks owed what `times` owe, and the present one, if any, what `t` owes. */
  predicate TimesInv(rate: nat, s: State, owes: seq<nat>, times: seq<nat>, t: nat) {
    && owes == OwedAt(rate, times)
    && (forall i :: 0 < i < |times| ==> times[i - 1] <= times[i])
    && (times != [] ==> times[|times| - 1] <= t) && t <= s.now
    && (s.dispenser != Waiting ==> s.dispenser.owed == Owed(rate, t))
  }

  lemma {:induction false} StepKeepsTimes(rig: Rig, s: State, step: Step, owes: seq<nat>, times: seq<nat>, t: nat)
      returns (times': seq<nat>, t': nat)
    requires TimesInv(rig.rate, s, owes, times, t) && Enabled(s, step)
    ensures TimesInv(rig.rate, Next(rig, s, step), if step.TopUp? then owes + [s.dispenser.owed] else owes, times', t')
  {
    times', t' := times, t;
    if step.WorkerStep? {
      WorkerLeavesDispenser(rig, s, step.w);
    } else if step.TopUp? {
      times' := times + [t];
    } else if step.ReadClock? {
      t' := s.now;
    }
  }

  /** The ticks of every run have such times, in ascending order. */
  lemma {:induction false} TicksHaveTimes(rig: Rig, path: seq<State>) returns (times: seq<nat>, t: nat)
    requires Run(rig, path) && Init(path[0]) && Busy(path)
    ensures TimesInv(rig.rate, path[|path| - 1], TicksOf(path), times, t)
    decreases |path|
  {
    var n := |path| - 1;
    if n == 0 {
      times, t := [], 0;
    } else {
      Front(rig, path);
      var before, u := TicksHaveTimes(rig, path[..n]);
      var step := LastStep(rig, path);
      assert path[..n][|path[..n]| - 1] == path[n - 1];
      times, t := StepKeepsTimes(rig, path[n - 1], step, TicksOf(path[..n]), before, u);
    }
  }
}
