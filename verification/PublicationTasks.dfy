/**
 The two publishing tasks as the code runs them, step by step on shared state: the reload of the
 driver, without a lock, and the admin request, holding the patch lock. Between any two of their
 steps all other parties may move. Every state they go through belongs to one run of the protocol.
 */
module PublicationTasks {
  import opened ConfigPublication

  /** Whose steps interference leaves out. */
  datatype Task = ReloadDriver | AdminRequest

  predicate IsStepOf(task: Task, step: Step) {
    match task
    case ReloadDriver => IsDriverStep(step)
    case AdminRequest => step.WriteFails? || step.WriteFile? || step.AdminPublish?
  }

  lemma {:induction false} OthersLeaveTaskAlone(task: Task, s: State, step: Step)
    requires Enabled(s, step) && !IsStepOf(task, step)
    ensures task == ReloadDriver ==> Next(s, step).driver == s.driver && Next(s, step).applied == s.applied
    ensures task == AdminRequest && s.lock != Free ==> Next(s, step).lock == s.lock
  {
  }

  datatype Status = Invalid | WriteFailed | Published

  class Shared {
    var s: State
    ghost var path: seq<State>

    ghost predicate Valid()
      reads this
    {
      && Run(EditsOutsideWindow, path)
      && Init(path[0])
      && s == Last(path)
    }

    constructor (config: Content)
      requires config.Publishable()
      ensures Valid() && s.file == s.published == s.applied == config
    {
      s := State(config, config, config, true, 0, 0, false, Free, Idle);
      path := [State(config, config, config, true, 0, 0, false, Free, Idle)];
    }

    /** One step of the protocol. */
    method Take(step: Step)
      requires Valid() && Enabled(s, step) && Allowed(EditsOutsideWindow, s, step)
      modifies this
      ensures Valid() && s == Next(old(s), step) && path == old(path) + [s]
    {
      path := Extend(EditsOutsideWindow, path, step);
      s := Next(s, step);
    }

    /** Any number of steps of all others. */
    method Others(task: Task)
      requires Valid()
      modifies this
      ensures Valid() && old(path) <= path
      ensures task == ReloadDriver ==> s.driver == old(s.driver) && s.applied == old(s.applied)
      ensures task == AdminRequest && old(s.lock) != Free ==> s.lock == old(s.lock)
    {
      var n: nat :| n >= 0;
      for k := 0 to n
        invariant Valid() && old(path) <= path
        invariant task == ReloadDriver ==> s.driver == old(s.driver) && s.applied == old(s.applied)
        invariant task == AdminRequest && old(s.lock) != Free ==> s.lock == old(s.lock)
      {
        var step: Step := *;
        if Enabled(s, step) && Allowed(EditsOutsideWindow, s, step) && !IsStepOf(task, step) {
          OthersLeaveTaskAlone(task, s, step);
          Take(step);
        }
      }
    }

    /**
     `reload`: publishes the document it loads unless a file-watch reload finds it unchanged. `i`
     and `j` are when the snapshot was taken and the file was read, `k` when the reload was done.
     */
    method Reload(trigger: Trigger) returns (published: bool, ghost i: nat, ghost j: nat, ghost k: nat)
      requires Valid() && s.driver == Started(trigger)
      modifies this
      ensures Valid() && old(path) <= path && s.driver == Idle
      ensures |old(path)| <= i + 1 && i <= j <= k < |path|
      ensures published <==> path[j].file.Publishable() && !Skips(trigger, path[i].published, path[j].file)
      ensures published ==> path[k].published == path[j].file && path[k].byDriver
      ensures published ==> s.applied == s.published
      ensures !published ==> s.applied == old(s.applied)
    {
      published := false;
      var base, loaded;
      base, loaded, i, j := SnapshotAndLoad(trigger);
      k := j;
      if !loaded.loads {
        return;
      }
      Others(ReloadDriver);
      Take(Compare);
      if trigger == FileWatch && loaded.compiles && loaded.hash == base.hash {
        return;
      }
      published, k := CompileAndPublish(loaded);
    }

    /** The first half of a reload: the running snapshot, then the file. */
    method SnapshotAndLoad(trigger: Trigger) returns (base: Content, loaded: Content, ghost i: nat, ghost j: nat)
      requires Valid() && s.driver == Started(trigger)
      modifies this
      ensures Valid() && old(path) <= path && |old(path)| <= i + 1 && i <= j < |path|
      ensures base == path[i].published && loaded == path[j].file
      ensures s.driver == if loaded.loads then Loaded(trigger, base, loaded) else Idle
      ensures s.applied == old(s.applied)
    {
      Others(ReloadDriver);
      i := |path| - 1;
      base := s.published;
      Take(TakeSnapshot);
      Others(ReloadDriver);
      j := |path| - 1;
      loaded := s.file;
      Take(Load);
    }

    /** The second half: publication, which a document that does not compile leaves undone. */
    method CompileAndPublish(loaded: Content) returns (published: bool, ghost k: nat)
      requires Valid() && s.driver == Publishing(loaded)
      modifies this
      ensures Valid() && old(path) <= path && s.driver == Idle
      ensures |old(path)| <= k < |path|
      ensures published <==> loaded.compiles
      ensures published ==> path[k].published == loaded && path[k].byDriver && s.applied == s.published
      ensures !published ==> s.applied == old(s.applied)
    {
      Others(ReloadDriver);
      Take(Publish);
      k := |path| - 1;
      published := loaded.compiles;
      if published {
        Others(ReloadDriver);
        Take(ApplyListeners);
      }
    }

    /**
     `patch_config`, and with it every entity change: checks the document, then writes the file and
     publishes under the patch lock. Both hold the document when the request is answered.
     */
    method PatchConfig(candidate: Content) returns (status: Status)
      requires Valid() && s.lock == Free
      modifies this
      ensures Valid() && old(path) <= path && s.lock == Free
      ensures status == Invalid <==> !candidate.Publishable()
      ensures status == Invalid ==> path == old(path)
      ensures status == Published ==> s.file == s.published == candidate && !s.byDriver
    {
      if !candidate.Publishable() {
        return Invalid;
      }
      Take(Accept(candidate));
      Others(AdminRequest);
      var fails: bool := *;
      var events: nat :| events >= 0;
      if fails {
        Take(WriteFails);
        return WriteFailed;
      }
      Take(WriteFile(events + 1));
      Others(AdminRequest);
      RunKeepsInv(EditsOutsideWindow, path);
      Take(AdminPublish);
      return Published;
    }

    /** Whenever the tasks and the watcher are at rest, what is published is what the file says. */
    method AtRest() returns (rest: bool)
      requires Valid()
      ensures rest <==> Quiescent(s)
      ensures rest && s.file.Publishable() ==> s.published.hash == s.file.hash
    {
      PublishedConvergesToFile(path);
      rest := s.lock == Free && s.driver == Idle && s.inFlight + s.queued == 0;
    }
  }
}
