/**
 Exactly which states of the publication protocol heal by themselves, edits by other means and at
 any moment included.
 */
module SelfHealing {
  import opened ConfigPublication

  predicate Agree(s: State) {
    s.published.hash == s.file.hash
  }

  /**
   The gateway will publish what the file says: the document an admin request has written is still in
   the file; or, with no such document to be published, a reload is certain to come, or has loaded
   the file and will not skip it, or there is nothing to repair. A file that cannot be published
   leaves nothing to promise.
   */
  predicate Heals(s: State) {
    || !s.file.Publishable()
    || (if s.lock.Written? then s.lock.candidate.hash == s.file.hash
        else
          || Pending(s) || s.hup
          || match s.driver
             case Idle => Agree(s)
             case Refreshing => Agree(s)
             case Snapped(trigger, base) => Skips(trigger, base, s.file) ==> Agree(s)
             case Loaded(trigger, base, loaded) => Skips(trigger, base, loaded) ==> Agree(s)
             case _ => true)
  }

  /** What every reachable state satisfies, whatever is edited when. */
  predicate Reachable(s: State) {
    && s.published.Publishable()
    && (s.lock != Free ==> s.lock.candidate.Publishable())
    && match s.driver
       case Loaded(_, _, loaded) => loaded.loads && (loaded == s.file || Pending(s))
       case Publishing(loaded) => loaded.loads && (loaded == s.file || Pending(s))
       case _ => true
  }

  lemma {:induction false} StepReaches(s: State, step: Step)
    requires Reachable(s) && Enabled(s, step)
    ensures Reachable(Next(s, step))
  {
  }

  lemma {:induction false} RunReaches(path: seq<State>)
    requires Run(Unrestricted, path) && Init(path[0])
    ensures Reachable(Last(path))
    decreases |path|
  {
    var n := |path| - 1;
    if n > 0 {
      Front(Unrestricted, path);
      RunReaches(path[..n]);
      var step :| Enabled(path[n - 1], step) && path[n] == Next(path[n - 1], step);
      StepReaches(path[n - 1], step);
    }
  }

  /** Nothing the gateway does by itself stops it from healing. */
  lemma {:induction false} StepHeals(s: State, step: Step)
    requires Reachable(s) && Heals(s) && Enabled(s, step) && !IsInput(step)
    ensures Heals(Next(s, step))
  {
  }

  predicate Healing(s: State) {
    Reachable(s) && Heals(s)
  }

  lemma {:induction false} MoveHeals(s: State, t: State)
    requires Healing(s) && Move(NoInput, s, t)
    ensures Healing(t)
  {
    var step :| Enabled(s, step) && Allowed(NoInput, s, step) && t == Next(s, step);
    StepReaches(s, step);
    StepHeals(s, step);
  }

  lemma {:induction false} RunHeals(path: seq<State>)
    requires Run(NoInput, path) && Healing(path[0])
    ensures Healing(Last(path))
    decreases |path|
  {
    var n := |path| - 1;
    if n > 0 {
      Front(NoInput, path);
      RunHeals(path[..n]);
      MoveHeals(path[n - 1], path[n]);
    }
  }

  // ---------- Elsewhere it may stay apart for good ----------

  /** The next step of the watcher and the driver, which they take while an admin request waits. */
  function RestStep(s: State): (step: Step)
    requires s.driver != Idle || s.hup || Pending(s)
    ensures Enabled(s, step) && !IsInput(step)
    ensures Next(s, step).file == s.file && Next(s, step).lock == s.lock
  {
    match s.driver
    case Idle => if s.hup then ReceiveHup else if s.inFlight > 0 then Forward else Receive
    case Debouncing => Debounced
    case Draining => if s.queued > 0 then DrainOne else DrainDone
    case Started(_) => TakeSnapshot
    case Snapped(_, _) => Load
    case Loaded(_, _, _) => Compare
    case Publishing(_) => Publish
    case Refreshing => ApplyListeners
  }

  /** Watcher and driver come to rest while file and patch lock stay as they are. */
  lemma {:induction false} ComeToRest(path: seq<State>) returns (longer: seq<State>)
    requires Run(NoInput, path)
    ensures Run(NoInput, longer) && longer[0] == path[0]
    ensures var s := Last(longer);
            && s.file == Last(path).file && s.lock == Last(path).lock
            && s.driver == Idle && !s.hup && !Pending(s)
    decreases if Last(path).hup then 1 else 0, Last(path).inFlight + Last(path).queued, Last(path).inFlight,
      DriverRank(Last(path).driver)
  {
    var s := Last(path);
    if s.driver == Idle && !s.hup && !Pending(s) {
      longer := path;
    } else {
      longer := Extend(NoInput, path, RestStep(s));
      longer := ComeToRest(longer);
    }
  }

  /** Settled, with a good file that is not what is published. */
  predicate Diverged(s: State) {
    Settled(s) && s.file.Publishable() && !Agree(s)
  }

  lemma {:induction false} DivergesFrom(s: State) returns (path: seq<State>)
    requires Reachable(s) && !Heals(s)
    ensures Run(NoInput, path) && path[0] == s && Diverged(Last(path))
  {
    path := [s];
    if s.lock.Written? {
      path := ComeToRest(path);
      path := Extend(NoInput, path, AdminPublish);
    } else {
      path := FinishReload(path);
      if s.lock.Held? {
        path := Extend(NoInput, path, WriteFails);
      }
    }
  }

  /** A reload that skips, or has published already, ends and leaves everything as it is. */
  lemma {:induction false} FinishReload(path: seq<State>) returns (longer: seq<State>)
    requires Run(NoInput, path) && Reachable(Last(path)) && !Heals(Last(path)) && !Last(path).lock.Written?
    ensures Run(NoInput, longer) && longer[0] == path[0]
    ensures var s, t := Last(path), Last(longer);
            && t.driver == Idle && !t.hup && !Pending(t)
            && t.file == s.file && t.published == s.published && t.lock == s.lock
  {
    longer := path;
    if Last(longer).driver.Snapped? {
      longer := Extend(NoInput, longer, Load);
    }
    if Last(longer).driver.Loaded? {
      longer := Extend(NoInput, longer, Compare);
    }
    if Last(longer).driver == Refreshing {
      longer := Extend(NoInput, longer, ApplyListeners);
    }
  }

  // ---------- Exactly then ----------

  /** One way for things to go on without inputs does not end apart. */
  ghost predicate EndsWell(s: State, later: seq<State>) {
    Run(NoInput, later) && later[0] == s ==> !Diverged(Last(later))
  }

  /**
   Self-healing, for every reachable state and any edits: without further inputs the gateway settles
   apart from the file in no run exactly if the state heals.
   */
  lemma {:induction false} HealsIff(path: seq<State>)
    requires Run(Unrestricted, path) && Init(path[0])
    ensures Heals(Last(path)) <==> forall later :: EndsWell(Last(path), later)
  {
    var s := Last(path);
    RunReaches(path);
    if Heals(s) {
      forall later
        ensures EndsWell(s, later)
      {
        if Run(NoInput, later) && later[0] == s {
          RunHeals(later);
        }
      }
    } else {
      var later := DivergesFrom(s);
      assert !EndsWell(s, later);
    }
  }

  /** And from such a state every schedule does settle, with file and published snapshot agreeing. */
  lemma {:induction false} HealingSettles(path: seq<State>, schedule: nat -> State) returns (n: nat)
    requires Run(Unrestricted, path) && Init(path[0]) && Last(path) == schedule(0) && Heals(schedule(0))
    requires forall i: nat :: MovesUnlessSettled(schedule, i)
    ensures Settled(schedule(n)) && (schedule(n).file.Publishable() ==> Agree(schedule(n)))
  {
    RunReaches(path);
    forall s, t | Healing(s) && Move(NoInput, s, t)
      ensures Healing(t)
    {
      MoveHeals(s, t);
    }
    n := SettlesFrom(schedule, 0, Healing);
  }

  /** Without edits between a write and its publication every reachable state heals. */
  lemma {:induction false} OutsideWindowHeals(path: seq<State>)
    requires Run(EditsOutsideWindow, path) && Init(path[0])
    ensures Heals(Last(path))
  {
    RunKeepsInv(EditsOutsideWindow, path);
  }
}
