/**
 The drain of in-flight splices at shutdown: a counter of live guards and a notification that
 wakes only waiters already registered. The decrement and the notification of a guard's drop
 are separate steps, as are the drainer's registration, load, deadline test and park; guards
 come and go between any two of them.
 */
module SpliceDrain {

  /** Where `drain` stands. `woken` says whether the registered interest was notified. */
  datatype Drainer =
    | NotCalled
    | Top
    | Registered(woken: bool)
    | SawBusy(woken: bool)
    | Parked(woken: bool)
    | TimedOut
    | Returned(drained: bool)

  /** Guards are numbered by `track`. `live` guards have not been dropped; `notifying` ones took
      the counter to zero and are about to notify. `observed` is the drainer's latest load. */
  datatype State = State(
    inFlight: nat,
    live: set<nat>,
    notifying: set<nat>,
    next: nat,
    drainer: Drainer,
    observed: nat,
    now: nat)

  datatype Step =
    | Track
    | Decrement(guard: nat)
    | Notify(guard: nat)
    | Call
    | Register
    | LoadCount
    | TestDeadline
    | Wake
    | Expire
    | FinalLoad
    | Pass(time: nat)

  predicate Enabled(deadline: nat, s: State, step: Step) {
    match step
    case Track => true
    case Decrement(g) => g in s.live
    case Notify(g) => g in s.notifying
    case Call => s.drainer == NotCalled
    case Register => s.drainer == Top
    case LoadCount => s.drainer.Registered?
    case TestDeadline => s.drainer.SawBusy?
    case Wake => s.drainer == Parked(true)
    case Expire => s.drainer.Parked? && s.now >= deadline
    case FinalLoad => s.drainer == TimedOut
    case Pass(_) => true
  }

  /** `notify_waiters` reaches the drainer from its registration on. */
  function Woken(d: Drainer): Drainer {
    match d
    case Registered(_) => Registered(true)
    case SawBusy(_) => SawBusy(true)
    case Parked(_) => Parked(true)
    case _ => d
  }

  function Next(deadline: nat, s: State, step: Step): State
    requires Enabled(deadline, s, step)
  {
    match step
    case Track => s.(inFlight := s.inFlight + 1, live := s.live + {s.next}, next := s.next + 1)
    case Decrement(g) =>
      s.(inFlight := if s.inFlight == 0 then 0 else s.inFlight - 1, live := s.live - {g},
         notifying := if s.inFlight == 1 then s.notifying + {g} else s.notifying)
    case Notify(g) => s.(notifying := s.notifying - {g}, drainer := Woken(s.drainer))
    case Call => s.(drainer := Top)
    case Register => s.(drainer := Registered(false))
    case LoadCount =>
      s.(observed := s.inFlight, drainer := if s.inFlight == 0 then Returned(true) else SawBusy(s.drainer.woken))
    case TestDeadline => s.(drainer := if s.now >= deadline then Returned(false) else Parked(s.drainer.woken))
    case Wake => s.(drainer := Top)
    case Expire => s.(drainer := TimedOut)
    case FinalLoad => s.(observed := s.inFlight, drainer := Returned(s.inFlight == 0))
    case Pass(time) => s.(now := s.now + time)
  }

  predicate Init(s: State) {
    s.inFlight == 0 && s.live == {} && s.notifying == {} && s.drainer == NotCalled
  }

  /** The drainer has seen splices in flight and was not notified since it registered. */
  predicate Waiting(s: State) {
    (s.drainer.SawBusy? || s.drainer.Parked?) && !s.drainer.woken
  }

  predicate Inv(deadline: nat, s: State) {
    && s.inFlight == |s.live|
    && (forall g :: g in s.live ==> g < s.next)
    && (Waiting(s) ==> s.inFlight > 0 || s.notifying != {})
    && match s.drainer
       case TimedOut => s.now >= deadline
       case Returned(drained) => (drained <==> s.observed == 0) && (!drained ==> s.now >= deadline)
       case SawBusy(_) => s.observed > 0
       case Parked(_) => s.observed > 0
       case _ => true
  }

  lemma {:induction false} RemoveOne(s: set<nat>, g: nat)
    requires g in s
    ensures |s - {g}| == |s| - 1
  {
  }

  lemma {:induction false} TrackKeepsInv(deadline: nat, s: State)
    requires Inv(deadline, s)
    ensures Inv(deadline, Next(deadline, s, Track))
  {
    assert s.next !in s.live;
    assert |s.live + {s.next}| == |s.live| + 1;
  }

  lemma {:induction false} DecrementKeepsInv(deadline: nat, s: State, g: nat)
    requires Inv(deadline, s) && g in s.live
    ensures Inv(deadline, Next(deadline, s, Decrement(g)))
  {
    RemoveOne(s.live, g);
    assert s.inFlight == 1 ==> g in s.notifying + {g};
  }

  lemma {:induction false} OtherStepKeepsInv(deadline: nat, s: State, step: Step)
    requires Inv(deadline, s) && Enabled(deadline, s, step)
    requires !step.Track? && !step.Decrement?
    ensures Inv(deadline, Next(deadline, s, step))
  {
  }

  /** A move; without `tracks` no new splice is registered, time does not pass and `drain` is not
      called anew. */
  ghost predicate Move(deadline: nat, tracks: bool, s: State, t: State) {
    exists step ::
      && Enabled(deadline, s, step) && t == Next(deadline, s, step)
      && (tracks || !(step.Track? || step.Pass? || step.Call?))
  }

  ghost predicate MoveAt(deadline: nat, path: seq<State>, i: nat)
    requires i + 1 < |path|
  {
    Move(deadline, true, path[i], path[i + 1])
  }

  ghost predicate Run(deadline: nat, path: seq<State>) {
    path != [] && forall i: nat :: i + 1 < |path| ==> MoveAt(deadline, path, i)
  }

  lemma {:induction false} MoveKeepsInv(deadline: nat, tracks: bool, s: State, t: State)
    requires Inv(deadline, s) && Move(deadline, tracks, s, t)
    ensures Inv(deadline, t)
  {
    var step :| Enabled(deadline, s, step) && t == Next(deadline, s, step);
    if step.Track? {
      TrackKeepsInv(deadline, s);
    } else if step.Decrement? {
      DecrementKeepsInv(deadline, s, step.guard);
    } else {
      OtherStepKeepsInv(deadline, s, step);
    }
  }

  lemma {:induction false} RunKeepsInv(deadline: nat, path: seq<State>, n: nat)
    requires Run(deadline, path) && Init(path[0]) && n < |path|
    ensures Inv(deadline, path[n])
  {
    if n > 0 {
      RunKeepsInv(deadline, path, n - 1);
      assert MoveAt(deadline, path, n - 1);
      MoveKeepsInv(deadline, true, path[n - 1], path[n]);
    }
  }

  /** No lost wakeup: a parked drainer that was not woken still has a splice in flight or a guard
      about to notify it. The counter is the number of live guards; `true` means the drainer read
      zero, `false` that it read something else and the deadline has come. */
  lemma {:induction false} NoLostWakeup(deadline: nat, path: seq<State>, n: nat)
    requires Run(deadline, path) && Init(path[0]) && n < |path|
    ensures var s := path[n];
            && s.inFlight == |s.live|
            && (s.drainer == Parked(false) ==> s.live != {} || s.notifying != {})
            && (s.drainer == Returned(true) ==> s.observed == 0)
            && (s.drainer == Returned(false) ==> s.observed > 0 && s.now >= deadline)
  {
    RunKeepsInv(deadline, path, n);
  }

  // ---------- What an answer rests on ----------

  /** The drainer returns in the step from `n`. */
  predicate ReturnsAt(path: seq<State>, n: nat)
    requires n + 1 < |path|
  {
    !path[n].drainer.Returned? && path[n + 1].drainer.Returned?
  }

  /** The drainer loads a nonzero count in the step from `m`, and tests the deadline next, not before `n`. */
  predicate SawSpliceAt(path: seq<State>, m: nat, n: nat)
    requires m < n < |path|
  {
    && path[m].drainer.Registered? && path[m].live != {}
    && forall k :: m < k <= n ==> path[k].drainer.SawBusy?
  }

  lemma {:induction false} SawBusyByLoad(deadline: nat, path: seq<State>, n: nat) returns (m: nat)
    requires Run(deadline, path) && Init(path[0]) && n < |path| && path[n].drainer.SawBusy?
    ensures m < n && SawSpliceAt(path, m, n)
  {
    m := n - 1;
    RunKeepsInv(deadline, path, m);
    assert MoveAt(deadline, path, m);
    if path[m].drainer.SawBusy? {
      m := SawBusyByLoad(deadline, path, m);
    }
  }

  /**
   `drain` answers `true` only in a step that finds no splice alive. It answers `false` only at or
   after the deadline, and only in a step that finds one alive or right after a load that did: an
   expired wait always loads once more.
   */
  lemma {:induction false} AnswersAreCurrent(deadline: nat, path: seq<State>, n: nat)
    requires Run(deadline, path) && Init(path[0]) && n + 1 < |path| && ReturnsAt(path, n)
    ensures path[n + 1].drainer.drained ==> path[n].live == {}
    ensures !path[n + 1].drainer.drained ==>
              && path[n].now >= deadline
              && (|| (path[n].drainer == TimedOut && path[n].live != {})
                  || exists m: nat :: m < n && SawSpliceAt(path, m, n))
  {
    RunKeepsInv(deadline, path, n);
    assert MoveAt(deadline, path, n);
    if path[n].drainer.SawBusy? {
      var m := SawBusyByLoad(deadline, path, n);
    }
  }

  /** A notification reaches the drainer in whatever state it is registered, and lets a parked one go on. */
  lemma {:induction false} NotificationWakes(deadline: nat, s: State, g: nat)
    requires g in s.notifying && (s.drainer.Registered? || s.drainer.SawBusy? || s.drainer.Parked?)
    ensures var t := Next(deadline, s, Notify(g));
            && t.drainer.woken && t.drainer.Parked? == s.drainer.Parked? && t.drainer.SawBusy? == s.drainer.SawBusy?
            && (s.drainer.Parked? ==> Enabled(deadline, t, Wake))
  {
  }

  /** While no splice lives and none starts, a parked drain goes on to nothing but `true`. */
  lemma {:induction false} ParkedWithoutSplices(deadline: nat, path: seq<State>, i: nat, n: nat)
    requires Run(deadline, path) && Init(path[0]) && i <= n < |path|
    requires path[i].drainer.Parked? && path[i].live == {} && path[n].next == path[i].next
    ensures path[n].live == {} && !path[n].drainer.SawBusy? && path[n].drainer != Returned(false)
  {
    RunKeepsInv(deadline, path, n);
    if i < n {
      NumbersGrow(deadline, path, i, n - 1);
      assert MoveAt(deadline, path, n - 1);
      RunKeepsInv(deadline, path, n - 1);
      ParkedWithoutSplices(deadline, path, i, n - 1);
    }
  }

  lemma {:induction false} NumbersGrow(deadline: nat, path: seq<State>, i: nat, n: nat)
    requires Run(deadline, path) && i <= n < |path|
    ensures path[i].next <= path[n].next && (n + 1 < |path| ==> path[n].next <= path[n + 1].next)
  {
    if n + 1 < |path| {
      assert MoveAt(deadline, path, n);
    }
    if i < n {
      NumbersGrow(deadline, path, i, n - 1);
    }
  }

  // ---------- The drain ends without waiting for the deadline ----------

  /** How far the drainer is from returning, notified interests first. */
  function DrainerRank(d: Drainer): nat {
    match d
    case Registered(woken) => if woken then 8 else 4
    case SawBusy(woken) => if woken then 7 else 3
    case Parked(woken) => if woken then 6 else 2
    case Top => 5
    case TimedOut => 1
    case Returned(_) => 0
    case NotCalled => 0
  }

  ghost predicate HasLessToDo(t: State, s: State) {
    || |t.live| < |s.live|
    || (t.live == s.live && |t.notifying| < |s.notifying|)
    || (t.live == s.live && t.notifying == s.notifying && DrainerRank(t.drainer) < DrainerRank(s.drainer))
  }

  lemma {:induction false} MoveMakesProgress(deadline: nat, s: State, t: State)
    requires Move(deadline, false, s, t)
    ensures HasLessToDo(t, s)
  {
    var step :| Enabled(deadline, s, step) && t == Next(deadline, s, step)
                && !(step.Track? || step.Pass? || step.Call?);
    if step.Decrement? {
      RemoveOne(s.live, step.guard);
    } else if step.Notify? {
      RemoveOne(s.notifying, step.guard);
    }
  }

  predicate HasReturned(s: State) {
    s.drainer.Returned?
  }

  /** As long as `drain` has not returned, somebody can move without time passing: a guard, or the
      drainer itself once all guards are gone. */
  lemma {:induction false} DrainIsNeverStuck(deadline: nat, s: State) returns (step: Step)
    requires Inv(deadline, s) && s.drainer != NotCalled && !HasReturned(s)
    ensures Enabled(deadline, s, step) && !(step.Track? || step.Pass? || step.Call?)
  {
    if s.live != {} {
      var g :| g in s.live;
      step := Decrement(g);
    } else if s.notifying != {} {
      var g :| g in s.notifying;
      step := Notify(g);
    } else {
      step := match s.drainer
        case Top => Register
        case Registered(_) => LoadCount
        case SawBusy(_) => TestDeadline
        case Parked(_) => Wake
        case _ => FinalLoad;
    }
  }

  /** An endless schedule in which splices only end: it stops moving only when `drain` returns. */
  ghost predicate MovesUnlessReturned(deadline: nat, schedule: nat -> State, i: nat) {
    HasReturned(schedule(i)) || Move(deadline, false, schedule(i), schedule(i + 1))
  }

  lemma {:induction false} ReturnsFrom(deadline: nat, schedule: nat -> State, from: nat) returns (n: nat)
    requires forall i: nat :: MovesUnlessReturned(deadline, schedule, i)
    requires Inv(deadline, schedule(from))
    ensures from <= n && HasReturned(schedule(n)) && Inv(deadline, schedule(n)) && schedule(n).now == schedule(from).now
    decreases |schedule(from).live|, |schedule(from).notifying|, DrainerRank(schedule(from).drainer)
  {
    if HasReturned(schedule(from)) {
      n := from;
    } else {
      assert MovesUnlessReturned(deadline, schedule, from);
      MoveKeepsInv(deadline, false, schedule(from), schedule(from + 1));
      MoveMakesProgress(deadline, schedule(from), schedule(from + 1));
      n := ReturnsFrom(deadline, schedule, from + 1);
    }
  }

  /** Once no splice is added, the remaining drops and the drainer make `drain` return in whatever
      order they move and without any time passing; before the deadline it returns `true`. */
  lemma {:induction false} DrainReturns(deadline: nat, path: seq<State>, schedule: nat -> State) returns (n: nat)
    requires Run(deadline, path) && Init(path[0]) && path[|path| - 1] == schedule(0)
    requires forall i: nat :: MovesUnlessReturned(deadline, schedule, i)
    ensures HasReturned(schedule(n)) && (schedule(0).now < deadline ==> schedule(n).drainer == Returned(true))
  {
    RunKeepsInv(deadline, path, |path| - 1);
    n := ReturnsFrom(deadline, schedule, 0);
  }

  // ---------- The drain ends at the deadline at the latest ----------

  /** The drainer's own steps. */
  predicate IsOwn(step: Step) {
    || step.Register? || step.LoadCount? || step.TestDeadline? || step.Wake? || step.Expire? || step.FinalLoad?
  }

  /** How many own steps the drainer can still take once the deadline has come. */
  function LateRank(d: Drainer): nat {
    match d
    case Parked(_) => 5
    case Top => 4
    case Registered(_) => 3
    case SawBusy(_) => 2
    case TimedOut => 1
    case _ => 0
  }

  predicate IsLate(deadline: nat, s: State) {
    s.now >= deadline && s.drainer != NotCalled
  }

  /** From the deadline on the drainer itself can always move, whoever else still lives. */
  lemma {:induction false} LateDrainerCanMove(deadline: nat, s: State) returns (step: Step)
    requires IsLate(deadline, s) && !HasReturned(s)
    ensures Enabled(deadline, s, step) && IsOwn(step)
  {
    step := match s.drainer
      case Top => Register
      case Registered(_) => LoadCount
      case SawBusy(_) => TestDeadline
      case Parked(_) => Expire
      case _ => FinalLoad;
  }

  /** Each own step brings it nearer to its return, and no step of anybody else takes it back. */
  lemma {:induction false} LateStepAdvances(deadline: nat, s: State, step: Step)
    requires IsLate(deadline, s) && Enabled(deadline, s, step)
    ensures var t := Next(deadline, s, step);
            && IsLate(deadline, t)
            && (if IsOwn(step) then LateRank(t.drainer) < LateRank(s.drainer)
                else LateRank(t.drainer) == LateRank(s.drainer) && (HasReturned(s) ==> t.drainer == s.drainer))
  {
  }

  /** An endless schedule of any steps, with splices starting and ending at will and time passing. */
  ghost predicate MovesOrRests(deadline: nat, schedule: nat -> State, i: nat) {
    schedule(i + 1) == schedule(i) || Move(deadline, true, schedule(i), schedule(i + 1))
  }

  /** At `i` the drainer takes a step of its own, unless it has returned. */
  ghost predicate DrainerMoves(deadline: nat, schedule: nat -> State, i: nat) {
    || HasReturned(schedule(i))
    || exists step :: IsOwn(step) && Enabled(deadline, schedule(i), step)
                      && schedule(i + 1) == Next(deadline, schedule(i), step)
  }

  /** The drainer is given a turn again and again: at `turn(i)`, not before `i`. */
  ghost predicate DrainerGetsTurns(deadline: nat, schedule: nat -> State, turn: nat -> nat) {
    forall i: nat :: i <= turn(i) && DrainerMoves(deadline, schedule, turn(i))
  }

  lemma {:induction false} LateStays(deadline: nat, schedule: nat -> State, from: nat, n: nat)
    requires forall i: nat :: MovesOrRests(deadline, schedule, i)
    requires from <= n && IsLate(deadline, schedule(from))
    ensures IsLate(deadline, schedule(n)) && LateRank(schedule(n).drainer) <= LateRank(schedule(from).drainer)
    decreases n
  {
    if from < n {
      LateStays(deadline, schedule, from, n - 1);
      assert MovesOrRests(deadline, schedule, n - 1);
      if schedule(n) != schedule(n - 1) {
        var step :| Enabled(deadline, schedule(n - 1), step) && schedule(n) == Next(deadline, schedule(n - 1), step);
        LateStepAdvances(deadline, schedule(n - 1), step);
      }
    }
  }

  lemma {:induction false} LateReturnsFrom(deadline: nat, schedule: nat -> State, turn: nat -> nat, from: nat)
      returns (n: nat)
    requires forall i: nat :: MovesOrRests(deadline, schedule, i)
    requires DrainerGetsTurns(deadline, schedule, turn) && IsLate(deadline, schedule(from))
    ensures from <= n && HasReturned(schedule(n))
    decreases LateRank(schedule(from).drainer)
  {
    n := turn(from);
    assert DrainerMoves(deadline, schedule, n);
    LateStays(deadline, schedule, from, n);
    if !HasReturned(schedule(n)) {
      var step :| IsOwn(step) && Enabled(deadline, schedule(n), step)
                  && schedule(n + 1) == Next(deadline, schedule(n), step);
      LateStepAdvances(deadline, schedule(n), step);
      n := LateReturnsFrom(deadline, schedule, turn, n + 1);
    }
  }

  lemma {:induction false} ScheduleKeepsInv(deadline: nat, schedule: nat -> State, n: nat)
    requires forall i: nat :: MovesOrRests(deadline, schedule, i)
    requires Inv(deadline, schedule(0))
    ensures Inv(deadline, schedule(n))
  {
    if n > 0 {
      ScheduleKeepsInv(deadline, schedule, n - 1);
      assert MovesOrRests(deadline, schedule, n - 1);
      if schedule(n) != schedule(n - 1) {
        MoveKeepsInv(deadline, true, schedule(n - 1), schedule(n));
      }
    }
  }

  /**
   The wait is bounded: in every schedule in which the deadline comes and the drainer gets turns,
   `drain` returns, though splices may start and never end. `true` means it read zero, and `false`
   that it read something else at or after the deadline.
   */
  lemma {:induction false} DrainReturnsByDeadline(deadline: nat, schedule: nat -> State, turn: nat -> nat, late: nat)
      returns (n: nat)
    requires Init(schedule(0)) && forall i: nat :: MovesOrRests(deadline, schedule, i)
    requires DrainerGetsTurns(deadline, schedule, turn) && IsLate(deadline, schedule(late))
    ensures HasReturned(schedule(n))
    ensures schedule(n).drainer == Returned(schedule(n).observed == 0)
    ensures schedule(n).observed > 0 ==> schedule(n).now >= deadline
  {
    n := LateReturnsFrom(deadline, schedule, turn, late);
    ScheduleKeepsInv(deadline, schedule, n);
  }

  lemma {:induction false} Extend(deadline: nat, path: seq<State>, step: Step) returns (longer: seq<State>)
    requires Run(deadline, path) && Enabled(deadline, path[|path| - 1], step)
    ensures Run(deadline, longer) && longer == path + [Next(deadline, path[|path| - 1], step)]
  {
    longer := path + [Next(deadline, path[|path| - 1], step)];
    forall i: nat | i + 1 < |longer|
      ensures MoveAt(deadline, longer, i)
    {
      if i + 1 < |path| {
        assert MoveAt(deadline, path, i);
        assert longer[i] == path[i] && longer[i + 1] == path[i + 1];
      } else {
        assert Enabled(deadline, longer[i], step) && longer[i + 1] == Next(deadline, longer[i], step);
      }
    }
  }

  /** It does come to `false`: a splice that never ends is waited for until the deadline, and given up. */
  lemma {:induction false} EndlessSpliceIsGivenUp(deadline: nat) returns (path: seq<State>)
    ensures Run(deadline, path) && Init(path[0])
    ensures path[|path| - 1].drainer == Returned(false) && path[|path| - 1].live != {}
  {
    path := [State(0, {}, {}, 0, NotCalled, 0, 0)];
    path := Extend(deadline, path, Track);
    path := Extend(deadline, path, Call);
    path := Extend(deadline, path, Register);
    path := Extend(deadline, path, LoadCount);
    if deadline == 0 {
      path := Extend(deadline, path, TestDeadline);
    } else {
      path := Extend(deadline, path, TestDeadline);
      path := Extend(deadline, path, Pass(deadline));
      path := Extend(deadline, path, Expire);
      path := Extend(deadline, path, FinalLoad);
    }
  }
}
