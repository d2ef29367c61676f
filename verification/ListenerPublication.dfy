/**
 When the listener set follows a publication: always one of the driver; one of the admin API exactly
 if the watch reload it causes took its snapshot before it, so that the reload is not skipped. A
 SIGHUP brings everything together.
 */
module ListenerPublication {
  import opened ConfigPublication

  /** The gateway settled at `s`, right after an admin request has written `c` to the file. */
  function AfterWrite(s: State, c: Content, events: nat): State
    requires Settled(s) && c.Publishable() && events >= 1
  {
    Next(Next(s, Accept(c)), WriteFile(events))
  }

  /** Some reload of the run took its snapshot while the admin publication was still to come. */
  ghost predicate SnapshotBeforePublication(path: seq<State>) {
    exists i: nat :: i + 1 < |path| && path[i].lock.Written? && SnapshotAt(path, i)
  }

  predicate SnapshotAt(path: seq<State>, i: nat)
    requires i + 1 < |path|
  {
    path[i].driver.Started? && path[i + 1].driver.Snapped?
  }

  /** Such a snapshot is outdated, and its reload not skipped, if the document is new. */
  ghost predicate ReloadSeesChange(s: State, c: Content, path: seq<State>) {
    SnapshotBeforePublication(path) && s.published.hash != c.hash
  }

  predicate BeforeSnapshot(d: Driver) {
    d == Idle || d == Debouncing || d == Draining || d == Started(FileWatch)
  }

  /** Everything about a patched gateway `t` that was settled at `s`; `seen` if some reload sees
      the change. */
  predicate Patched(s: State, c: Content, t: State, seen: bool) {
    && t.file == c && !t.hup && (t.lock == Free || t.lock == Written(c))
    && (t.published == c || (t.published == s.published && t.lock.Written?))
    && (if seen then
          match t.driver
          case Snapped(trigger, base) => trigger == FileWatch && (base.hash != c.hash || t.published == t.applied == c)
          case Loaded(trigger, base, loaded) =>
            trigger == FileWatch && loaded == c && (base.hash != c.hash || t.published == t.applied == c)
          case Publishing(loaded) => loaded == c
          case Refreshing => t.published == c
          case _ => BeforeSnapshot(t.driver) && t.published == t.applied == c
        else
          && t.applied == s.applied && (t.lock.Written? ==> t.published == s.published)
          && match t.driver
             case Snapped(trigger, base) => trigger == FileWatch && base.hash == c.hash
             case Loaded(trigger, base, loaded) => trigger == FileWatch && loaded == c && base.hash == c.hash
             case _ => BeforeSnapshot(t.driver))
  }

  /** A step keeps this, and makes the change seen exactly by an outdated snapshot. */
  lemma {:induction false} PatchedStep(s: State, c: Content, t: State, seen: bool, step: Step)
    requires c.Publishable() && Patched(s, c, t, seen) && Enabled(t, step) && Allowed(Undisturbed, t, step)
    ensures Patched(s, c, Next(t, step),
                    seen || (step.TakeSnapshot? && t.lock.Written? && s.published.hash != c.hash))
  {
  }

  lemma {:induction false} PatchedRun(s: State, c: Content, events: nat, path: seq<State>)
    requires Settled(s) && c.Publishable() && events >= 1
    requires Run(Undisturbed, path) && path[0] == AfterWrite(s, c, events)
    ensures Patched(s, c, Last(path), ReloadSeesChange(s, c, path))
    decreases |path|
  {
    var n := |path| - 1;
    if n > 0 {
      Front(Undisturbed, path);
      PatchedRun(s, c, events, path[..n]);
      var t := path[n - 1];
      var step :| Enabled(t, step) && Allowed(Undisturbed, t, step) && path[n] == Next(t, step);
      PatchedStep(s, c, t, ReloadSeesChange(s, c, path[..n]), step);
    }
  }

  /**
   An undisturbed PATCH, in whatever order its publication and the watch reload of its write take
   their steps and however often the watch event is repeated: the gateway settles with the document
   in the file and published, and the listener set follows exactly if a reload took its snapshot
   before the publication of a new document, or the set was that of the document before.
   */
  lemma {:induction false} PatchAppliesListenersIff(s: State, c: Content, events: nat, path: seq<State>)
    requires Settled(s) && c.Publishable() && events >= 1
    requires Run(Undisturbed, path) && path[0] == AfterWrite(s, c, events) && Settled(Last(path))
    ensures Last(path).file == Last(path).published == c
    ensures Last(path).applied == Last(path).published <==> ReloadSeesChange(s, c, path) || s.applied == c
    ensures Last(path).applied == if ReloadSeesChange(s, c, path) then c else s.applied
  {
    PatchedRun(s, c, events, path);
  }

  /** The listener set can stay behind: from every settled state, when the publication comes first. */
  lemma {:induction false} PatchLeavesListenersBehind(path: seq<State>, c: Content) returns (longer: seq<State>)
    requires Run(AdminOnly, path) && Settled(Last(path)) && c.Publishable()
    ensures Run(AdminOnly, longer) && longer[0] == path[0] && Settled(Last(longer))
    ensures Last(longer).file == Last(longer).published == c && Last(longer).applied == Last(path).applied
  {
    longer := Extend(AdminOnly, path, Accept(c));
    longer := Extend(AdminOnly, longer, WriteFile(1));
    longer := Extend(AdminOnly, longer, AdminPublish);
    longer := WakeDriver(AdminOnly, longer);
    longer := ReloadUninterrupted(AdminOnly, longer);
  }

  /** And it can follow: from every settled state, when the watch reload of a new document comes first. */
  lemma {:induction false} PatchCanApplyListeners(path: seq<State>, c: Content) returns (longer: seq<State>)
    requires Run(AdminOnly, path) && Settled(Last(path)) && c.Publishable() && Last(path).published.hash != c.hash
    ensures Run(AdminOnly, longer) && longer[0] == path[0] && Settled(Last(longer)) && !Last(longer).byDriver
    ensures Last(longer).file == Last(longer).published == Last(longer).applied == c
  {
    longer := Extend(AdminOnly, path, Accept(c));
    longer := Extend(AdminOnly, longer, WriteFile(1));
    longer := WakeDriver(AdminOnly, longer);
    longer := ReloadUninterrupted(AdminOnly, longer);
    longer := Extend(AdminOnly, longer, AdminPublish);
  }

  // ---------- SIGHUP ----------

  /** A gateway with file `f` on which a SIGHUP is pending, in progress or done. */
  predicate Signalled(f: Content, t: State) {
    && t.file == f && t.lock == Free
    && match t.driver
       case Snapped(trigger, _) => trigger == Sighup || t.hup || t.published == t.applied == f
       case Loaded(trigger, _, loaded) => loaded == f && (trigger == Sighup || t.hup || t.published == t.applied == f)
       case Publishing(loaded) => loaded == f
       case Refreshing => t.published == f
       case Started(trigger) => trigger == Sighup || t.hup || t.published == t.applied == f
       case _ => t.hup || t.published == t.applied == f
  }

  lemma {:induction false} SignalledStep(f: Content, t: State, step: Step)
    requires f.Publishable() && Signalled(f, t) && Enabled(t, step) && Allowed(Undisturbed, t, step)
    ensures Signalled(f, Next(t, step))
  {
  }

  lemma {:induction false} SignalledRun(s: State, path: seq<State>)
    requires Settled(s) && s.file.Publishable()
    requires Run(Undisturbed, path) && path[0] == Next(s, Hup)
    ensures Signalled(s.file, Last(path))
    decreases |path|
  {
    var n := |path| - 1;
    if n > 0 {
      Front(Undisturbed, path);
      SignalledRun(s, path[..n]);
      var step :| Enabled(path[n - 1], step) && Allowed(Undisturbed, path[n - 1], step)
        && path[n] == Next(path[n - 1], step);
      SignalledStep(s.file, path[n - 1], step);
    }
  }

  predicate Together(f: Content, t: State) {
    f == t.file == t.published == t.applied
  }

  /** A SIGHUP repairs: in every undisturbed run after it, wherever the gateway settles the file,
      the published snapshot and the listener set are one document. */
  lemma {:induction false} HupBringsTogether(s: State, path: seq<State>)
    requires Settled(s) && s.file.Publishable()
    requires Run(Undisturbed, path) && path[0] == Next(s, Hup) && Settled(Last(path))
    ensures Together(s.file, Last(path))
  {
    SignalledRun(s, path);
  }

  /** And every schedule settles there. */
  lemma {:induction false} HupAppliesListeners(s: State, schedule: nat -> State) returns (n: nat)
    requires Settled(s) && s.file.Publishable() && schedule(0) == Next(s, Hup)
    requires forall i: nat :: MovesUnlessSettled(schedule, i)
    ensures Settled(schedule(n)) && Together(s.file, schedule(n))
  {
    var kept := t => Signalled(s.file, t);
    forall t, u | kept(t) && Move(NoInput, t, u)
      ensures kept(u)
    {
      var step :| Enabled(t, step) && Allowed(NoInput, t, step) && u == Next(t, step);
      SignalledStep(s.file, t, step);
    }
    n := SettlesFrom(schedule, 0, kept);
  }
}
