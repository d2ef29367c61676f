/**
 The configuration publication protocol of the gateway.

 Two writers share two variables, the configuration file and the published snapshot.
 Admin requests write the file and then publish, holding the patch lock across both.
 The reload driver, woken by SIGHUP or by file-watch events, takes a snapshot, loads the
 file, compares, and publishes; it takes no lock. Every read, write, comparison and
 publication below is a step of its own, and any number of admin requests, signals, watch
 events and file edits interleave with them.
 */
module ConfigPublication {

  /** What a configuration document is to the protocol: its text, whether `load` accepts it,
      whether `compile` accepts it, and the content hash `compile` derives from it. Two
      documents may share a hash. */
  datatype Content = Content(text: string, loads: bool, compiles: bool, hash: int) {
    predicate Publishable() {
      loads && compiles
    }
  }

  datatype Trigger = FileWatch | Sighup

  /** Where the single reload driver stands. */
  datatype Driver =
    | Idle
    | Debouncing
    | Draining
    | Started(trigger: Trigger)
    | Snapped(trigger: Trigger, base: Content)
    | Loaded(trigger: Trigger, base: Content, loaded: Content)
    | Publishing(loaded: Content)
    | Refreshing

  /** The patch lock and, while it is held, the request document that passed the dry run. */
  datatype PatchLock = Free | Held(candidate: Content) | Written(candidate: Content)

  /** `inFlight` counts watch events between the rename and the driver's channel, `queued`
      those in the channel. `applied` is the snapshot the listener manager last applied, and
      `byDriver` says whether the latest publication was the driver's. */
  datatype State = State(
    file: Content,
    published: Content,
    applied: Content,
    byDriver: bool,
    inFlight: nat,
    queued: nat,
    hup: bool,
    lock: PatchLock,
    driver: Driver)

  datatype Step =
    // Inputs: a dry-run-approved admin request gets the patch lock, a signal arrives, the
    // file is edited by other means, a watch event is repeated.
    | Accept(candidate: Content)
    | Hup
    | Edit(content: Content, events: nat)
    | Noise
    // The admin request holding the lock.
    | WriteFails
    | WriteFile(events: nat)
    | AdminPublish
    // The watcher's forwarding thread and the reload driver.
    | Forward
    | Receive
    | ReceiveHup
    | Debounced
    | DrainOne
    | DrainDone
    | TakeSnapshot
    | Load
    | Compare
    | Publish
    | ApplyListeners

  predicate IsInput(step: Step) {
    step.Accept? || step.Hup? || step.Edit? || step.Noise?
  }

  predicate Pending(s: State) {
    s.inFlight + s.queued > 0
  }

  /** The skip test of a file-watch reload: the loaded document compiles to the hash of the
      snapshot taken before the load. */
  predicate Skips(trigger: Trigger, base: Content, loaded: Content) {
    trigger == FileWatch && loaded.compiles && loaded.hash == base.hash
  }

  predicate Enabled(s: State, step: Step) {
    match step
    case Accept(c) => s.lock == Free && c.Publishable()
    case Hup => true
    case Edit(_, events) => events >= 1
    case Noise => true
    case WriteFails => s.lock.Held?
    case WriteFile(events) => s.lock.Held? && events >= 1
    case AdminPublish => s.lock.Written?
    case Forward => s.inFlight > 0
    case Receive => s.driver == Idle && s.queued > 0
    case ReceiveHup => s.driver == Idle && s.hup
    case Debounced => s.driver == Debouncing
    case DrainOne => s.driver == Draining && s.queued > 0
    case DrainDone => s.driver == Draining && s.queued == 0
    case TakeSnapshot => s.driver.Started?
    case Load => s.driver.Snapped?
    case Compare => s.driver.Loaded?
    case Publish => s.driver.Publishing?
    case ApplyListeners => s.driver == Refreshing
  }

  function Next(s: State, step: Step): State
    requires Enabled(s, step)
  {
    match step
    case Accept(c) => s.(lock := Held(c))
    case Hup => s.(hup := true)
    case Edit(c, events) => s.(file := c, inFlight := s.inFlight + events)
    case Noise => s.(inFlight := s.inFlight + 1)
    case WriteFails => s.(lock := Free)
    case WriteFile(events) =>
      s.(file := s.lock.candidate, inFlight := s.inFlight + events, lock := Written(s.lock.candidate))
    case AdminPublish => s.(published := s.lock.candidate, byDriver := false, lock := Free)
    case Forward => s.(inFlight := s.inFlight - 1, queued := s.queued + 1)
    case Receive => s.(queued := s.queued - 1, driver := Debouncing)
    case ReceiveHup => s.(hup := false, driver := Started(Sighup))
    case Debounced => s.(driver := Draining)
    case DrainOne => s.(queued := s.queued - 1)
    case DrainDone => s.(driver := Started(FileWatch))
    case TakeSnapshot => s.(driver := Snapped(s.driver.trigger, s.published))
    case Load =>
      s.(driver := if s.file.loads then Loaded(s.driver.trigger, s.driver.base, s.file) else Idle)
    case Compare =>
      var Loaded(trigger, base, loaded) := s.driver;
      s.(driver := if Skips(trigger, base, loaded) then Idle else Publishing(loaded))
    case Publish =>
      var loaded := s.driver.loaded;
      if loaded.compiles then s.(published := loaded, byDriver := true, driver := Refreshing)
      else s.(driver := Idle)
    case ApplyListeners => s.(applied := s.published, driver := Idle)
  }

  /** The gateway right after startup: it has loaded, published and bound `file`. */
  predicate Init(s: State) {
    && s.file.Publishable() && s.published == s.file && s.applied == s.file
    && s.inFlight == 0 && s.queued == 0 && !s.hup
    && s.lock == Free && s.driver == Idle
  }

  /** Which steps a run may take: any; any, but with no edit by other means between an admin
      request's write and its publication; none by other means at all; internal ones and repeated
      watch events only; none but internal ones. */
  datatype World = Unrestricted | EditsOutsideWindow | AdminOnly | Undisturbed | NoInput

  predicate Allowed(w: World, s: State, step: Step) {
    match w
    case Unrestricted => true
    case EditsOutsideWindow => !(step.Edit? && s.lock.Written?)
    case AdminOnly => !step.Edit?
    case Undisturbed => !IsInput(step) || step.Noise?
    case NoInput => !IsInput(step)
  }

  ghost predicate Move(w: World, s: State, t: State) {
    exists step :: Enabled(s, step) && Allowed(w, s, step) && t == Next(s, step)
  }

  ghost predicate MoveAt(w: World, path: seq<State>, i: nat)
    requires i + 1 < |path|
  {
    Move(w, path[i], path[i + 1])
  }

  /** A finite run: each state comes from the one before by an allowed step. */
  ghost predicate Run(w: World, path: seq<State>) {
    path != [] && forall i: nat :: i + 1 < |path| ==> MoveAt(w, path, i)
  }

  function Last(path: seq<State>): State
    requires path != []
  {
    path[|path| - 1]
  }

  predicate Quiescent(s: State) {
    s.lock == Free && s.driver == Idle && !Pending(s)
  }

  /** Nothing is left to do unless an input arrives. */
  predicate Settled(s: State) {
    Quiescent(s) && !s.hup
  }

  /** The published snapshot is up to date, or something is still on its way to repair it. */
  predicate Repairable(s: State) {
    || s.published.hash == s.file.hash
    || Pending(s)
    || s.lock.Written?
    || !s.file.Publishable()
  }

  predicate Inv(s: State) {
    && (s.lock.Written? ==> s.file == s.lock.candidate)
    && (s.lock != Free ==> s.lock.candidate.Publishable())
    && s.published.Publishable()
    && match s.driver
       case Idle => Repairable(s)
       case Refreshing => Repairable(s)
       case Snapped(_, base) => s.published == base || Repairable(s)
       case Loaded(trigger, base, loaded) =>
         && loaded.loads
         && (loaded == s.file || Pending(s))
         && (Skips(trigger, base, loaded) ==> Repairable(s))
       case Publishing(loaded) => loaded.loads && (loaded == s.file || Pending(s))
       case _ => true
  }

  predicate IsDriverStep(step: Step) {
    || step.Receive? || step.ReceiveHup? || step.Debounced? || step.DrainOne? || step.DrainDone?
    || step.TakeSnapshot? || step.Load? || step.Compare? || step.Publish? || step.ApplyListeners?
  }

  lemma {:induction false} DriverStepKeepsInv(s: State, step: Step)
    requires Inv(s) && Enabled(s, step) && IsDriverStep(step)
    ensures Inv(Next(s, step))
  {
  }

  lemma {:induction false} OtherStepKeepsInv(s: State, step: Step)
    requires Inv(s) && Enabled(s, step) && !IsDriverStep(step) && Allowed(EditsOutsideWindow, s, step)
    ensures Inv(Next(s, step))
    ensures !step.Edit? && s.file.Publishable() ==> Next(s, step).file.Publishable()
  {
  }

  lemma {:induction false} MoveKeepsInv(w: World, s: State, t: State)
    requires Inv(s) && Move(w, s, t) && w != Unrestricted
    ensures Inv(t)
    ensures w == AdminOnly && s.file.Publishable() ==> t.file.Publishable()
  {
    var step :| Enabled(s, step) && Allowed(w, s, step) && t == Next(s, step);
    if IsDriverStep(step) {
      DriverStepKeepsInv(s, step);
    } else {
      OtherStepKeepsInv(s, step);
    }
  }

  /** A run without its last step is a run. */
  lemma {:induction false} Front(w: World, path: seq<State>)
    requires Run(w, path) && |path| > 1
    ensures Run(w, path[..|path| - 1]) && Move(w, path[|path| - 2], Last(path))
  {
    var front := path[..|path| - 1];
    forall i: nat | i + 1 < |front|
      ensures MoveAt(w, front, i)
    {
      assert MoveAt(w, path, i);
    }
    assert MoveAt(w, path, |path| - 2);
  }

  lemma {:induction false} RunKeepsInv(w: World, path: seq<State>)
    requires Run(w, path) && Inv(path[0]) && w != Unrestricted
    ensures Inv(Last(path))
    ensures w == AdminOnly && path[0].file.Publishable() ==> Last(path).file.Publishable()
    decreases |path|
  {
    var n := |path| - 1;
    if n > 0 {
      Front(w, path);
      RunKeepsInv(w, path[..n]);
      MoveKeepsInv(w, path[n - 1], path[n]);
    }
  }

  /** Self-healing: whatever the interleaving, once the patch lock is free, the driver idle
      and no watch event outstanding, the published snapshot has the hash of the file, unless
      an edit left a file that no publication could accept. The published document is always
      one that loads and compiles. */
  lemma {:induction false} PublishedConvergesToFile(path: seq<State>)
    requires Run(EditsOutsideWindow, path) && Init(path[0])
    ensures Last(path).published.Publishable()
    ensures Quiescent(Last(path)) && Last(path).file.Publishable()
            ==> Last(path).published.hash == Last(path).file.hash
  {
    RunKeepsInv(EditsOutsideWindow, path);
  }

  /** With admin requests as the only writers the file always holds a publishable document,
      so convergence is unconditional. */
  lemma {:induction false} AdminOnlyConvergence(path: seq<State>)
    requires Run(AdminOnly, path) && Init(path[0])
    ensures Quiescent(Last(path)) ==> Last(path).published.hash == Last(path).file.hash
  {
    RunKeepsInv(AdminOnly, path);
  }

  // ---------- Reaching quiescence ----------

  function LockRank(l: PatchLock): nat {
    match l case Free => 0 case Written(_) => 1 case Held(_) => 2
  }

  function DriverRank(d: Driver): nat {
    match d
    case Idle => 0
    case Refreshing => 1
    case Publishing(_) => 2
    case Loaded(_, _, _) => 3
    case Snapped(_, _) => 4
    case Started(_) => 5
    case Draining => 6
    case Debouncing => 7
  }

  /** An unsettled gateway can always move by itself. */
  lemma {:induction false} UnsettledCanMove(s: State) returns (step: Step)
    requires !Settled(s)
    ensures Enabled(s, step) && !IsInput(step)
  {
    step := match s.lock
      case Held(_) => WriteFails
      case Written(_) => AdminPublish
      case Free =>
        match s.driver
        case Idle => if s.hup then ReceiveHup else if s.inFlight > 0 then Forward else Receive
        case Debouncing => Debounced
        case Draining => if s.queued > 0 then DrainOne else DrainDone
        case Started(_) => TakeSnapshot
        case Snapped(_, _) => Load
        case Loaded(_, _, _) => Compare
        case Publishing(_) => Publish
        case Refreshing => ApplyListeners;
  }

  /** The work left, in decreasing order of weight: the running admin request, the signal, the
      events, their way to the driver, and the driver's present reload. */
  ghost predicate HasLessToDo(t: State, s: State) {
    || LockRank(t.lock) < LockRank(s.lock)
    || (LockRank(t.lock) == LockRank(s.lock) &&
        (|| (!t.hup && s.hup)
         || (t.hup == s.hup &&
             (|| t.inFlight + t.queued < s.inFlight + s.queued
              || (t.inFlight + t.queued == s.inFlight + s.queued &&
                  (|| t.inFlight < s.inFlight
                   || (t.inFlight == s.inFlight && DriverRank(t.driver) < DriverRank(s.driver))))))))
  }

  lemma {:induction false} InternalMoveMakesProgress(s: State, t: State)
    requires Move(NoInput, s, t)
    ensures HasLessToDo(t, s)
  {
  }

  /** An endless schedule without inputs: it stops moving only in a settled state. */
  ghost predicate MovesUnlessSettled(schedule: nat -> State, i: nat) {
    Settled(schedule(i)) || Move(NoInput, schedule(i), schedule(i + 1))
  }

  /** What every internal move keeps. */
  ghost predicate IsKept(kept: State -> bool) {
    forall s, t :: kept(s) && Move(NoInput, s, t) ==> kept(t)
  }

  /** Without inputs every schedule settles, and what internal moves keep holds there. */
  lemma {:induction false} SettlesFrom(schedule: nat -> State, from: nat, kept: State -> bool) returns (n: nat)
    requires forall i: nat :: MovesUnlessSettled(schedule, i)
    requires kept(schedule(from)) && IsKept(kept)
    ensures from <= n && Settled(schedule(n)) && kept(schedule(n))
    decreases LockRank(schedule(from).lock), if schedule(from).hup then 1 else 0,
      schedule(from).inFlight + schedule(from).queued, schedule(from).inFlight, DriverRank(schedule(from).driver)
  {
    if Settled(schedule(from)) {
      n := from;
    } else {
      assert MovesUnlessSettled(schedule, from);
      InternalMoveMakesProgress(schedule(from), schedule(from + 1));
      n := SettlesFrom(schedule, from + 1, kept);
    }
  }

  /** From any reachable state, once inputs stop, every schedule reaches a settled state, and
      there the published snapshot matches the file. */
  lemma {:induction false} SelfHeals(path: seq<State>, schedule: nat -> State) returns (n: nat)
    requires Run(EditsOutsideWindow, path) && Init(path[0]) && Last(path) == schedule(0)
    requires forall i: nat :: MovesUnlessSettled(schedule, i)
    ensures Settled(schedule(n))
    ensures schedule(n).file.Publishable() ==> schedule(n).published.hash == schedule(n).file.hash
  {
    RunKeepsInv(EditsOutsideWindow, path);
    forall s, t | Inv(s) && Move(NoInput, s, t)
      ensures Inv(t)
    {
      MoveKeepsInv(NoInput, s, t);
    }
    n := SettlesFrom(schedule, 0, Inv);
  }

  // ---------- What convergence does not cover ----------

  /** Appends one step to a run. */
  lemma {:induction false} Extend(w: World, path: seq<State>, step: Step) returns (longer: seq<State>)
    requires Run(w, path) && Enabled(Last(path), step) && Allowed(w, Last(path), step)
    ensures Run(w, longer) && longer[0] == path[0] && Last(longer) == Next(Last(path), step)
    ensures longer == path + [Next(Last(path), step)]
  {
    longer := path + [Next(Last(path), step)];
    forall i: nat | i + 1 < |longer| ensures MoveAt(w, longer, i) {
      if i + 1 < |path| {
        assert MoveAt(w, path, i);
      }
    }
  }

  /** The watch event in flight reaches the idle driver, which debounces, drains and starts. */
  lemma {:induction false} WakeDriver(w: World, path: seq<State>) returns (longer: seq<State>)
    requires Run(w, path) && Last(path).driver == Idle && Last(path).inFlight == 1 && Last(path).queued == 0
    ensures Run(w, longer) && longer[0] == path[0]
    ensures Last(longer) == Last(path).(inFlight := 0, driver := Started(FileWatch))
  {
    longer := Extend(w, path, Forward);
    longer := Extend(w, longer, Receive);
    longer := Extend(w, longer, Debounced);
    longer := Extend(w, longer, DrainDone);
  }

  /** What one reload does when no other writer moves during it. */
  function ReloadAlone(s: State): State
    requires s.driver.Started?
  {
    if !s.file.loads || !s.file.compiles || Skips(s.driver.trigger, s.published, s.file) then s.(driver := Idle)
    else s.(published := s.file, applied := s.file, byDriver := true, driver := Idle)
  }

  lemma {:induction false} ReloadUninterrupted(w: World, path: seq<State>) returns (longer: seq<State>)
    requires Run(w, path) && Last(path).driver.Started?
    ensures Run(w, longer) && longer[0] == path[0] && Last(longer) == ReloadAlone(Last(path))
  {
    longer := Extend(w, path, TakeSnapshot);
    longer := Extend(w, longer, Load);
    if Last(longer).driver.Loaded? {
      longer := Extend(w, longer, Compare);
      if Last(longer).driver.Publishing? {
        longer := Extend(w, longer, Publish);
        if Last(longer).driver == Refreshing {
          longer := Extend(w, longer, ApplyListeners);
        }
      }
    }
  }

  /** The condition on edits is needed: a run in which an edit falls inside the window, the
      watch reload publishes it, and the admin publication then overwrites it for good. */
  lemma {:induction false} EditInWindowCanDiverge(a: Content, b: Content, c: Content) returns (path: seq<State>)
    requires a.Publishable() && b.Publishable() && c.Publishable()
    requires a.hash != c.hash && b.hash != c.hash
    ensures Run(Unrestricted, path) && Init(path[0]) && Settled(Last(path))
    ensures Last(path).file == c && Last(path).published == b
  {
    path := [State(a, a, a, false, 0, 0, false, Free, Idle)];
    path := Extend(Unrestricted, path, Accept(b));
    path := Extend(Unrestricted, path, WriteFile(1));
    path := WakeDriver(Unrestricted, path);
    path := ReloadUninterrupted(Unrestricted, path);
    path := Extend(Unrestricted, path, Edit(c, 1));
    path := WakeDriver(Unrestricted, path);
    path := ReloadUninterrupted(Unrestricted, path);
    path := Extend(Unrestricted, path, AdminPublish);
  }

  /** The listener set follows every publication of the driver. */
  lemma {:induction false} DriverPublicationIsApplied(path: seq<State>)
    requires Run(Unrestricted, path) && Init(path[0])
    ensures Last(path).byDriver && Last(path).driver != Refreshing ==> Last(path).applied == Last(path).published
    decreases |path|
  {
    var n := |path| - 1;
    if n > 0 {
      Front(Unrestricted, path);
      DriverPublicationIsApplied(path[..n]);
    }
  }
}
