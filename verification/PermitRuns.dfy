/**
 When a worker gets a permit: its swap succeeds exactly if it loaded a positive balance that is still
 there. A worker that misses beside a positive balance lost a race, to another worker or, as the
 example shows, to the dispenser.
 */
module PermitRuns {
  import opened Pacing

  /** Worker `w` loads the balance in the step from `i` and has not moved since, up to `n`. */
  predicate LoadedAt(path: seq<State>, w: nat, i: nat, n: nat)
    requires i < n < |path|
    requires forall k :: 0 <= k < |path| ==> w < |path[k].workers|
  {
    && path[i].workers[w] == Acquiring
    && forall k :: i < k <= n ==> path[k].workers[w] == Seen(path[i].permits)
  }

  ghost predicate HasWorker(path: seq<State>, w: nat) {
    forall k :: 0 <= k < |path| ==> w < |path[k].workers|
  }

  lemma {:induction false} WorkersStay(rig: Rig, path: seq<State>, n: nat)
    requires Run(rig, path) && n < |path|
    ensures |path[n].workers| == |path[0].workers|
  {
    if n > 0 {
      WorkersStay(rig, path, n - 1);
      assert MoveAt(rig, path, n - 1);
    }
  }

  lemma {:induction false} RunHasWorker(rig: Rig, path: seq<State>, w: nat)
    requires Run(rig, path) && w < |path[0].workers|
    ensures HasWorker(path, w)
  {
    forall k | 0 <= k < |path|
      ensures w < |path[k].workers|
    {
      WorkersStay(rig, path, k);
    }
  }

  /** Only its own steps move a worker. */
  lemma {:induction false} MovedByOwnStep(rig: Rig, s: State, step: Step, w: nat)
    requires Enabled(s, step) && w < |s.workers| && Next(rig, s, step).workers[w] != s.workers[w]
    ensures step == WorkerStep(w)
  {
  }

  lemma {:induction false} SeenByLoad(rig: Rig, path: seq<State>, w: nat, n: nat) returns (i: nat)
    requires Run(rig, path) && Init(path[0]) && HasWorker(path, w) && n < |path| && path[n].workers[w].Seen?
    ensures i < n && LoadedAt(path, w, i, n)
  {
    i := n - 1;
    assert MoveAt(rig, path, i);
    var step :| Enabled(path[i], step) && path[n] == Next(rig, path[i], step);
    if path[i].workers[w] == path[n].workers[w] {
      i := SeenByLoad(rig, path, w, i);
    } else {
      MovedByOwnStep(rig, path[i], step, w);
    }
  }

  /**
   The step of a worker that has loaded the balance takes a permit exactly if the balance it loaded
   was positive and is the same now; otherwise it changes nothing but sends the worker away.
   */
  lemma {:induction false} SwapTakesIff(rig: Rig, path: seq<State>, w: nat, n: nat) returns (i: nat)
    requires Run(rig, path) && Init(path[0]) && HasWorker(path, w)
    requires n + 1 < |path| && path[n].workers[w].Seen? && path[n + 1].workers[w] != path[n].workers[w]
    ensures i < n && LoadedAt(path, w, i, n)
    ensures var s, t := path[n], path[n + 1];
            if path[i].permits > 0 && path[i].permits == s.permits then
              t.workers[w] == Granted && t.permits == s.permits - 1 && t.consumed == s.consumed + 1
            else t.workers[w] == Missed && t.permits == s.permits && t.consumed == s.consumed
  {
    i := SeenByLoad(rig, path, w, n);
    assert MoveAt(rig, path, n);
    var step :| Enabled(path[n], step) && path[n + 1] == Next(rig, path[n], step);
    MovedByOwnStep(rig, path[n], step, w);
  }

  lemma {:induction false} BooksGrow(rig: Rig, path: seq<State>, m: nat, n: nat)
    requires Run(rig, path) && m <= n < |path|
    ensures path[m].consumed <= path[n].consumed && path[m].paid <= path[n].paid
  {
    if m < n {
      BooksGrow(rig, path, m, n - 1);
      assert MoveAt(rig, path, n - 1);
    }
  }

  /**
   Permits are not left lying: from a worker's turn to acquire beside a positive balance to its miss,
   another worker has consumed a permit or the dispenser has paid one in.
   */
  lemma {:induction false} MissLostARace(rig: Rig, path: seq<State>, w: nat, n: nat) returns (i: nat)
    requires Run(rig, path) && Init(path[0]) && HasWorker(path, w)
    requires n + 1 < |path| && path[n].workers[w].Seen? && path[n + 1].workers[w] == Missed
    ensures i < n && LoadedAt(path, w, i, n)
    ensures path[i].permits > 0 ==> path[n].consumed > path[i].consumed || path[n].paid > path[i].paid
  {
    i := SwapTakesIff(rig, path, w, n);
    RunKeepsInv(rig, path, i);
    RunKeepsInv(rig, path, n);
    BooksGrow(rig, path, i, n);
  }

  /** So it is from any earlier moment at which the worker was about to load. */
  lemma {:induction false} MissSinceTurn(rig: Rig, path: seq<State>, w: nat, m: nat, n: nat)
    requires Run(rig, path) && Init(path[0]) && HasWorker(path, w) && m <= n && n + 1 < |path|
    requires forall k :: m <= k <= n ==> path[k].workers[w] == Acquiring || path[k].workers[w].Seen?
    requires path[m].permits > 0 && path[m].workers[w] == Acquiring && path[n + 1].workers[w] == Missed
    ensures path[n].consumed > path[m].consumed || path[n].paid > path[m].paid
  {
    MissesFromSeen(rig, path, w, n);
    var i := SwapTakesIff(rig, path, w, n);
    RunKeepsInv(rig, path, i);
    RunKeepsInv(rig, path, m);
    RunKeepsInv(rig, path, n);
    assert forall k :: i < k <= n ==> path[k].workers[w] != Acquiring;
    BooksGrow(rig, path, m, i);
    BooksGrow(rig, path, i, n);
  }

  lemma {:induction false} MissesFromSeen(rig: Rig, path: seq<State>, w: nat, n: nat)
    requires Run(rig, path) && HasWorker(path, w) && n + 1 < |path|
    requires path[n].workers[w] != Missed && path[n + 1].workers[w] == Missed
    ensures path[n].workers[w].Seen?
  {
    assert MoveAt(rig, path, n);
    var step :| Enabled(path[n], step) && path[n + 1] == Next(rig, path[n], step);
    MovedByOwnStep(rig, path[n], step, w);
  }

  // ---------- Whether the dispenser alone can make a worker miss ----------

  /** At rates of up to 20 a worker misses beside a positive balance only if a permit was consumed. */
  lemma {:induction false} SlowMissMeansConsumption(rig: Rig, path: seq<State>, w: nat, n: nat) returns (i: nat)
    requires Run(rig, path) && Init(path[0]) && HasWorker(path, w) && rig.rate <= 20
    requires n + 1 < |path| && path[n].workers[w].Seen? && path[n + 1].workers[w] == Missed
    ensures i < n && LoadedAt(path, w, i, n)
    ensures path[i].permits > 0 ==> path[n].consumed > path[i].consumed
  {
    i := MissLostARace(rig, path, w, n);
    RunKeepsInv(rig, path, i);
    RunKeepsInv(rig, path, n);
    BooksGrow(rig, path, i, n);
    PerSliceIsLeast(rig.rate);
  }

  lemma {:induction false} Extend(rig: Rig, path: seq<State>, step: Step) returns (longer: seq<State>)
    requires Run(rig, path) && Enabled(path[|path| - 1], step)
    ensures Run(rig, longer) && longer == path + [Next(rig, path[|path| - 1], step)]
  {
    longer := path + [Next(rig, path[|path| - 1], step)];
    forall i: nat | i + 1 < |longer|
      ensures MoveAt(rig, longer, i)
    {
      if i + 1 < |path| {
        assert MoveAt(rig, path, i);
        var earlier :| Enabled(path[i], earlier) && path[i + 1] == Next(rig, path[i], earlier);
        assert longer[i] == path[i] && longer[i + 1] == path[i + 1];
      } else {
        assert Enabled(longer[i], step) && longer[i + 1] == Next(rig, longer[i], step);
      }
    }
  }

  /** Three steps of the dispenser. */
  lemma {:induction false} CompleteTick(rig: Rig, path: seq<State>) returns (longer: seq<State>)
    requires Run(rig, path) && path[|path| - 1].dispenser == Waiting
    ensures Run(rig, longer) && path <= longer
    ensures var s := path[|path| - 1];
            var add := PaceTopUp(Owed(rig.rate, s.now), s.paid, s.permits, PerSlice(rig.rate));
            longer[|longer| - 1] == s.(permits := s.permits + add, paid := s.paid + add, ticks := s.ticks + 1)
  {
    longer := Extend(rig, path, ReadClock);
    longer := Extend(rig, longer, LoadBalance);
    longer := Extend(rig, longer, TopUp);
  }

  /** The only worker of a run takes a permit, makes its request and comes back for the next one. */
  lemma {:induction false} TakeOne(rig: Rig, path: seq<State>) returns (longer: seq<State>)
    requires Run(rig, path) && path[|path| - 1].workers == [Ready] && path[|path| - 1].now < rig.deadline
    requires path[|path| - 1].permits > 0
    ensures Run(rig, longer) && path <= longer
    ensures var s := path[|path| - 1];
            longer[|longer| - 1] == s.(permits := s.permits - 1, consumed := s.consumed + 1, measured := s.measured + 1,
                                       workers := [Acquiring])
  {
    longer := Extend(rig, path, WorkerStep(0));
    longer := Extend(rig, longer, WorkerStep(0));
    longer := Extend(rig, longer, WorkerStep(0));
    longer := Extend(rig, longer, WorkerStep(0));
    longer := Extend(rig, longer, WorkerStep(0));
    longer := Extend(rig, longer, WorkerStep(0));
  }

  /**
   At every higher rate the dispenser alone can: a worker loads a positive balance, the tick adds to
   it, and the worker misses and starves with more permits there than it loaded, none consumed since.
   */
  lemma {:induction false} FastMissWithoutConsumption(rig: Rig) returns (path: seq<State>, i: nat)
    requires rig.rate > 20 && rig.deadline > PACE_SLICE
    ensures Run(rig, path) && Init(path[0]) && i < |path|
    ensures var s, t := path[i], path[|path| - 1];
            && s.workers == [Acquiring] && t.workers == [Starved(2 * PACE_SLICE)]
            && 0 < s.permits < t.permits && s.consumed == t.consumed
  {
    path := [State(0, 0, 0, Waiting, [Ready], 0, 0, 0, 0)];
    path := CompleteTick(rig, path);
    path := TakeOne(rig, path);
    i := |path| - 1;
    ghost var at := path[i];
    path := Extend(rig, path, WorkerStep(0));
    path := Extend(rig, path, Pass(PACE_SLICE));
    path := CompleteTick(rig, path);
    path := Extend(rig, path, WorkerStep(0));
    path := Extend(rig, path, WorkerStep(0));
    assert path[i] == at;
  }

  // ---------- The end of the measurement ----------

  lemma {:induction false} ClockRuns(rig: Rig, path: seq<State>, m: nat, n: nat)
    requires Run(rig, path) && m <= n < |path|
    ensures path[m].now <= path[n].now
  {
    if m < n {
      ClockRuns(rig, path, m, n - 1);
      assert MoveAt(rig, path, n - 1);
    }
  }

  /** From the deadline on nothing more is measured. */
  lemma {:induction false} NothingMeasuredLate(rig: Rig, path: seq<State>, m: nat, n: nat)
    requires Run(rig, path) && m <= n < |path| && path[m].now >= rig.deadline
    ensures path[n].measured == path[m].measured
  {
    if m < n {
      NothingMeasuredLate(rig, path, m, n - 1);
      ClockRuns(rig, path, m, n - 1);
      assert MoveAt(rig, path, n - 1);
    }
  }

  /** How many own steps a worker takes from the deadline on before it is done, at most. */
  function LateRank(w: Worker): nat {
    match w
    case Starved(_) => 6
    case Acquiring => 5
    case Seen(_) => 4
    case Missed => 3
    case Measuring => 2
    case Granted => 1
    case GivenUp => 1
    case Ready => 1
    case Done => 0
  }

  /** Every worker can move until it is done, a starved one once its sleep is over; and from the deadline
      on each of its steps brings it nearer to its end. */
  lemma {:induction false} LateWorkersEnd(rig: Rig, s: State, w: nat)
    requires w < |s.workers| && s.workers[w] != Done
    requires s.workers[w].Starved? ==> s.workers[w].until <= s.now
    ensures Enabled(s, WorkerStep(w))
    ensures s.now >= rig.deadline ==> LateRank(Next(rig, s, WorkerStep(w)).workers[w]) < LateRank(s.workers[w])
  {
  }
}
