/**
 Listener hot-reload: on every reload the bound listener set is reconciled with the configured
 one. Listeners that vanished or changed their bind identity are stopped, new and changed ones
 are bound, and everything else keeps running.
 */
module ListenerManager {
  import opened Wrappers
  import opened Text

  datatype Protocol = Http | Https | H3 | Tcp | Udp

  datatype TlsMode = Terminate | Passthrough

  /** The configuration fields that matter to binding. */
  datatype Listener = Listener(
    name: string,
    address: string,
    port: nat,
    protocol: Protocol,
    proxyProtocol: bool,
    tls: Option<TlsMode>)
  {
    /** H3 and UDP listeners are bound elsewhere. */
    predicate IsTcp() {
      protocol != H3 && protocol != Udp
    }

    /** An https listener that does not pass TLS through terminates it. */
    predicate Terminates() {
      protocol == Https && tls != Some(Passthrough)
    }
  }

  /** What a running listener is bound as. */
  datatype Identity = Identity(addr: string, protocol: Protocol, proxyProtocol: bool, tls: Option<TlsMode>)

  function BindIdentity(l: Listener): Identity {
    Identity(l.address + ":" + Decimal(l.port), l.protocol, l.proxyProtocol, l.tls)
  }

  /** The two are bound alike. */
  predicate Agree(a: Listener, b: Listener) {
    && a.address == b.address && a.port == b.port
    && a.protocol == b.protocol && a.proxyProtocol == b.proxyProtocol && a.tls == b.tls
  }

  /** Bind identities tell listeners apart exactly by the five fields, though address and port are one text. */
  lemma {:induction false} IdentityIffAgree(a: Listener, b: Listener)
    ensures BindIdentity(a) == BindIdentity(b) <==> Agree(a, b)
  {
    var s, t := a.address + [':'] + Decimal(a.port), b.address + [':'] + Decimal(b.port);
    DecimalIsWord(a.port);
    DecimalIsWord(b.port);
    if s == t {
      RSplitOnceIsUnique(a.address, Decimal(a.port), ':');
      RSplitOnceIsUnique(b.address, Decimal(b.port), ':');
      DecimalInjective(a.port, b.port);
    }
  }

  /** A managed listener: its bind identity and the task serving it. */
  datatype Managed = Managed(identity: Identity, task: nat)

  type Bound = map<string, Managed>

  /** TLS terminations by listener name, each known by the task it was built for. */
  type TlsStates = map<string, nat>

  predicate Distinct(configured: seq<Listener>) {
    forall i, j :: 0 <= i < j < |configured| ==> configured[i].name != configured[j].name
  }

  predicate IsConfigured(configured: seq<Listener>, name: string) {
    exists i :: 0 <= i < |configured| && configured[i].name == name
  }

  /** The first configured listener of a name. */
  function Lookup(configured: seq<Listener>, name: string): (r: Option<Listener>)
    ensures r.Some? ==> r.value in configured && r.value.name == name
    ensures r.Some? <==> IsConfigured(configured, name)
  {
    if configured == [] then None
    else if configured[0].name == name then
      assert configured[0].name == name;
      Some(configured[0])
    else
      var r := Lookup(configured[1..], name);
      assert forall i :: 0 < i < |configured| ==> configured[i] == configured[1..][i - 1];
      r
  }

  lemma {:induction false} LookupDistinct(configured: seq<Listener>, i: nat)
    requires Distinct(configured) && i < |configured|
    ensures Lookup(configured, configured[i].name) == Some(configured[i])
  {
    if i > 0 {
      LookupDistinct(configured[1..], i - 1);
    }
  }

  /** A managed listener that a reload leaves alone. */
  predicate Unchanged(bound: Bound, configured: seq<Listener>, name: string) {
    && name in bound
    && Lookup(configured, name).Some?
    && BindIdentity(Lookup(configured, name).value) == bound[name].identity
  }

  /** Only TCP listeners are managed. */
  predicate OnlyTcp(bound: Bound) {
    forall name :: name in bound ==> bound[name].identity.protocol != H3 && bound[name].identity.protocol != Udp
  }

  // ---------- What reconciliation computes ----------

  /** Everything reconciliation touches. The n-th bind attempt succeeds if `binds(n)`. */
  datatype Plan = Plan(bound: Bound, tls: TlsStates, nextTask: nat, attempts: nat)

  /** Which bind attempts succeed. */
  type Binds = nat -> bool

  /** The managed listeners that vanished or changed. */
  function Stale(bound: Bound, configured: seq<Listener>): set<string> {
    set name | name in bound && !Unchanged(bound, configured, name)
  }

  function StopStale(p: Plan, configured: seq<Listener>): Plan {
    var stale := Stale(p.bound, configured);
    p.(bound := p.bound - stale, tls := p.tls - stale)
  }

  /** Binds one configured listener unless it is not TCP or already managed. */
  function SpawnOne(p: Plan, l: Listener, binds: Binds): Plan {
    if !l.IsTcp() || l.name in p.bound then p
    else if !binds(p.attempts) then p.(attempts := p.attempts + 1)
    else
      Plan(p.bound[l.name := Managed(BindIdentity(l), p.nextTask)],
           if l.Terminates() then p.tls[l.name := p.nextTask] else p.tls,
           p.nextTask + 1, p.attempts + 1)
  }

  function SpawnAll(p: Plan, configured: seq<Listener>, binds: Binds): Plan {
    if configured == [] then p
    else SpawnOne(SpawnAll(p, configured[..|configured| - 1], binds), configured[|configured| - 1], binds)
  }

  function Reconcile(p: Plan, configured: seq<Listener>, binds: Binds): Plan {
    SpawnAll(StopStale(p, configured), configured, binds)
  }

  /** The listener and the TLS entry of one name. */
  datatype Entry = Entry(managed: Option<Managed>, tls: Option<nat>)

  function At(p: Plan, name: string): Entry {
    Entry(if name in p.bound then Some(p.bound[name]) else None, if name in p.tls then Some(p.tls[name]) else None)
  }

  /** The plan as it stands when the turn of configured listener `i` comes. */
  function Turn(p: Plan, configured: seq<Listener>, binds: Binds, i: nat): Plan
    requires i < |configured|
  {
    SpawnAll(StopStale(p, configured), configured[..i], binds)
  }

  lemma {:induction false} OtherNamesUntouched(p: Plan, configured: seq<Listener>, binds: Binds, name: string)
    requires forall i :: 0 <= i < |configured| ==> configured[i].name != name
    ensures At(SpawnAll(p, configured, binds), name) == At(p, name)
  {
    if configured != [] {
      OtherNamesUntouched(p, configured[..|configured| - 1], binds, name);
    }
  }

  /** Among distinct names only a listener's own turn changes its entry. */
  lemma {:induction false} OwnTurnDecides(p: Plan, configured: seq<Listener>, binds: Binds, i: nat)
    requires Distinct(configured) && i < |configured|
    ensures var before := SpawnAll(p, configured[..i], binds);
            && At(before, configured[i].name) == At(p, configured[i].name)
            && At(SpawnAll(p, configured, binds), configured[i].name)
               == At(SpawnOne(before, configured[i], binds), configured[i].name)
  {
    var n := |configured| - 1;
    if i < n {
      OwnTurnDecides(p, configured[..n], binds, i);
      assert configured[..n][..i] == configured[..i];
      assert configured[n].name != configured[i].name;
    } else {
      OtherNamesUntouched(p, configured[..n], binds, configured[n].name);
    }
  }

  // ---------- What it promises, name by name ----------

  /** A stop takes a name's listener and TLS entry away; a name that is not managed keeps its entry. */
  function Released(p: Plan, name: string): Entry {
    Entry(None, if name in p.bound then None else At(p, name).tls)
  }

  /** An unchanged listener keeps its task and its TLS entry. */
  lemma {:induction false} UnchangedKeepsItsTask(p: Plan, configured: seq<Listener>, binds: Binds, name: string)
    requires OnlyTcp(p.bound) && Distinct(configured) && Unchanged(p.bound, configured, name)
    ensures At(Reconcile(p, configured, binds), name) == At(p, name)
  {
    var i: nat :| i < |configured| && configured[i].name == name;
    OwnTurnDecides(StopStale(p, configured), configured, binds, i);
  }

  /**
   A new or changed TCP listener runs a new task under exactly its configured identity if its bind
   succeeds, with a TLS entry of that task if it terminates TLS, and is released if the bind fails.
   */
  lemma {:induction false} ChangedIsBoundAnew(p: Plan, configured: seq<Listener>, binds: Binds, i: nat)
    requires Distinct(configured) && i < |configured|
    requires !Unchanged(p.bound, configured, configured[i].name)
    ensures var l, turn := configured[i], Turn(p, configured, binds, i);
            At(Reconcile(p, configured, binds), l.name)
            == if l.protocol in {Http, Https, Tcp} && binds(turn.attempts) then
                 Entry(Some(Managed(BindIdentity(l), turn.nextTask)),
                       if l.protocol == Https && l.tls != Some(Passthrough) then Some(turn.nextTask)
                       else Released(p, l.name).tls)
               else Released(p, l.name)
  {
    OwnTurnDecides(StopStale(p, configured), configured, binds, i);
  }

  /** A name that is no longer configured is released. */
  lemma {:induction false} UnconfiguredIsReleased(p: Plan, configured: seq<Listener>, binds: Binds, name: string)
    requires !IsConfigured(configured, name)
    ensures At(Reconcile(p, configured, binds), name) == Released(p, name)
  {
    OtherNamesUntouched(StopStale(p, configured), configured, binds, name);
  }

  /** Tasks are numbered in the order they are spawned, so a listener bound anew runs a new task. */
  predicate TasksNumbered(p: Plan) {
    forall name :: name in p.bound ==> p.bound[name].task < p.nextTask
  }

  lemma {:induction false} SpawningNumbersTasks(p: Plan, configured: seq<Listener>, binds: Binds)
    requires TasksNumbered(p)
    ensures TasksNumbered(SpawnAll(p, configured, binds))
    ensures SpawnAll(p, configured, binds).nextTask >= p.nextTask
  {
    if configured != [] {
      SpawningNumbersTasks(p, configured[..|configured| - 1], binds);
    }
  }

  /** A listener keeps its task exactly if it is unchanged. */
  lemma {:induction false} OnlyUnchangedKeepTasks(p: Plan, configured: seq<Listener>, binds: Binds, name: string)
    requires OnlyTcp(p.bound) && Distinct(configured) && TasksNumbered(p) && name in p.bound
    ensures Unchanged(p.bound, configured, name)
            <==> At(Reconcile(p, configured, binds), name).managed == Some(p.bound[name])
  {
    if Unchanged(p.bound, configured, name) {
      UnchangedKeepsItsTask(p, configured, binds, name);
    } else if i: nat :| i < |configured| && configured[i].name == name {
      ChangedIsBoundAnew(p, configured, binds, i);
      SpawningNumbersTasks(StopStale(p, configured), configured[..i], binds);
    } else {
      UnconfiguredIsReleased(p, configured, binds, name);
    }
  }

  // ---------- What it promises of the whole set ----------

  /** Configured listener `i` was bound anew and its bind failed. */
  predicate BindFailed(p: Plan, configured: seq<Listener>, binds: Binds, i: nat)
    requires i < |configured|
  {
    && configured[i].IsTcp()
    && !Unchanged(p.bound, configured, configured[i].name)
    && !binds(Turn(p, configured, binds, i).attempts)
  }

  /** The bound set serves a configuration: every managed listener is as configured. */
  predicate Serves(bound: Bound, configured: seq<Listener>) {
    forall name :: name in bound ==> Unchanged(bound, configured, name)
  }

  /** The managed names are exactly the configured TCP names less those whose bind failed. */
  lemma {:induction false} ManagedIsConfiguredLessFailed(p: Plan, configured: seq<Listener>, binds: Binds)
    requires OnlyTcp(p.bound) && Distinct(configured)
    ensures forall i: nat :: i < |configured| ==>
              (configured[i].name in Reconcile(p, configured, binds).bound
               <==> configured[i].protocol in {Http, Https, Tcp} && !BindFailed(p, configured, binds, i))
    ensures forall name :: name in Reconcile(p, configured, binds).bound ==> IsConfigured(configured, name)
  {
    var r := Reconcile(p, configured, binds);
    forall i: nat | i < |configured|
      ensures configured[i].name in r.bound
              <==> configured[i].protocol in {Http, Https, Tcp} && !BindFailed(p, configured, binds, i)
    {
      var name := configured[i].name;
      LookupDistinct(configured, i);
      if Unchanged(p.bound, configured, name) {
        UnchangedKeepsItsTask(p, configured, binds, name);
        assert At(r, name).managed.Some?;
      } else {
        ChangedIsBoundAnew(p, configured, binds, i);
        assert name in r.bound <==> At(r, name).managed.Some?;
      }
    }
    forall name | name in r.bound
      ensures IsConfigured(configured, name)
    {
      if !IsConfigured(configured, name) {
        UnconfiguredIsReleased(p, configured, binds, name);
      }
    }
  }

  /** After a reload every managed listener is a TCP listener bound exactly as configured. */
  lemma {:induction false} ReconciledServes(p: Plan, configured: seq<Listener>, binds: Binds)
    requires OnlyTcp(p.bound) && Distinct(configured)
    ensures Serves(Reconcile(p, configured, binds).bound, configured)
    ensures OnlyTcp(Reconcile(p, configured, binds).bound)
  {
    var r := Reconcile(p, configured, binds);
    ManagedIsConfiguredLessFailed(p, configured, binds);
    forall name | name in r.bound
      ensures Unchanged(r.bound, configured, name)
      ensures r.bound[name].identity.protocol != H3 && r.bound[name].identity.protocol != Udp
    {
      var i: nat :| i < |configured| && configured[i].name == name;
      LookupDistinct(configured, i);
      assert At(r, name).managed == Some(r.bound[name]);
      if Unchanged(p.bound, configured, name) {
        UnchangedKeepsItsTask(p, configured, binds, name);
        assert At(p, name).managed == Some(p.bound[name]);
      } else {
        ChangedIsBoundAnew(p, configured, binds, i);
      }
    }
  }

  /** Field by field: what a managed listener is bound as is what is configured under its name. */
  lemma {:induction false} BoundAsConfigured(p: Plan, configured: seq<Listener>, binds: Binds, i: nat)
    requires OnlyTcp(p.bound) && Distinct(configured)
    requires i < |configured| && configured[i].name in Reconcile(p, configured, binds).bound
    ensures var l, bound := configured[i], Reconcile(p, configured, binds).bound[configured[i].name].identity;
            && bound.addr == l.address + ":" + Decimal(l.port)
            && bound.protocol == l.protocol && l.protocol in {Http, Https, Tcp}
            && bound.proxyProtocol == l.proxyProtocol && bound.tls == l.tls
  {
    ReconciledServes(p, configured, binds);
    LookupDistinct(configured, i);
  }

  /**
   Over two reloads: a listener managed after the first keeps its task in the second exactly if the
   second configures one of its name that agrees with the first in address, port, protocol, proxy
   protocol and TLS mode.
   */
  lemma {:induction false} KeepsTaskIffAgree(p: Plan, first: seq<Listener>, binds: Binds, second: seq<Listener>,
                                             binds': Binds, i: nat)
    requires OnlyTcp(p.bound) && TasksNumbered(p) && Distinct(first) && Distinct(second)
    requires i < |first| && first[i].name in Reconcile(p, first, binds).bound
    ensures var r, name := Reconcile(p, first, binds), first[i].name;
            At(Reconcile(r, second, binds'), name).managed == Some(r.bound[name])
            <==> exists j: nat :: j < |second| && second[j].name == name && Agree(second[j], first[i])
  {
    var r, name := Reconcile(p, first, binds), first[i].name;
    ReconciledServes(p, first, binds);
    LookupDistinct(first, i);
    SpawningNumbersTasks(StopStale(p, first), first, binds);
    OnlyUnchangedKeepTasks(r, second, binds', name);
    if j: nat :| j < |second| && second[j].name == name {
      LookupDistinct(second, j);
      IdentityIffAgree(second[j], first[i]);
    }
    if j: nat :| j < |second| && second[j].name == name && Agree(second[j], first[i]) {
      LookupDistinct(second, j);
      IdentityIffAgree(second[j], first[i]);
    }
  }

  lemma {:induction false} SpawnNothing(p: Plan, configured: seq<Listener>, binds: Binds)
    requires forall i :: 0 <= i < |configured| && configured[i].IsTcp() ==> configured[i].name in p.bound
    ensures SpawnAll(p, configured, binds) == p
  {
    if configured != [] {
      SpawnNothing(p, configured[..|configured| - 1], binds);
    }
  }

  lemma {:induction false} NothingStale(p: Plan, configured: seq<Listener>)
    requires Serves(p.bound, configured)
    ensures StopStale(p, configured) == p
  {
    assert Stale(p.bound, configured) == {};
  }

  /**
   A second reload of the same configuration changes nothing, not one task and not one bind
   attempt, exactly if every bind of the first succeeded.
   */
  lemma {:induction false} SecondReloadIsIdle(p: Plan, configured: seq<Listener>, binds: Binds)
    requires OnlyTcp(p.bound) && Distinct(configured)
    ensures var r := Reconcile(p, configured, binds);
            Reconcile(r, configured, binds) == r
            <==> forall i: nat :: i < |configured| ==> !BindFailed(p, configured, binds, i)
  {
    var r := Reconcile(p, configured, binds);
    ReconciledServes(p, configured, binds);
    ManagedIsConfiguredLessFailed(p, configured, binds);
    NothingStale(r, configured);
    if forall i: nat :: i < |configured| ==> !BindFailed(p, configured, binds, i) {
      SpawnNothing(r, configured, binds);
    } else {
      var i: nat :| i < |configured| && BindFailed(p, configured, binds, i);
      SpawnAttempts(r, configured, binds, i);
    }
  }

  lemma {:induction false} AttemptsGrow(p: Plan, configured: seq<Listener>, binds: Binds, k: nat)
    requires k <= |configured|
    ensures SpawnAll(p, configured, binds).attempts >= SpawnAll(p, configured[..k], binds).attempts
  {
    if k == |configured| {
      assert configured[..k] == configured;
    } else {
      assert configured[..|configured| - 1][..k] == configured[..k];
      AttemptsGrow(p, configured[..|configured| - 1], binds, k);
    }
  }

  /** A configured TCP listener that is not managed is tried. */
  lemma {:induction false} SpawnAttempts(p: Plan, configured: seq<Listener>, binds: Binds, i: nat)
    requires Distinct(configured) && i < |configured|
    requires configured[i].IsTcp() && configured[i].name !in p.bound
    ensures SpawnAll(p, configured, binds).attempts > p.attempts
  {
    var before := SpawnAll(p, configured[..i], binds);
    assert configured[..i + 1][..i] == configured[..i];
    AttemptsGrow(p, configured[..i], binds, 0);
    AttemptsGrow(p, configured, binds, i + 1);
    forall j | 0 <= j < i
      ensures configured[..i][j].name != configured[i].name
    {
    }
    OtherNamesUntouched(p, configured[..i], binds, configured[i].name);
    assert At(before, configured[i].name).managed.None?;
  }

  // ---------- The manager ----------

  class Manager {
    var listeners: map<string, Managed>
    var tls: map<string, nat>
    var nextTask: nat
    var attempts: nat
    const binds: Binds

    constructor (binds: Binds)
      ensures State() == Plan(map[], map[], 0, 0) && this.binds == binds
    {
      listeners, tls := map[], map[];
      nextTask, attempts := 0, 0;
      this.binds := binds;
    }

    function State(): Plan
      reads this
    {
      Plan(listeners, tls, nextTask, attempts)
    }

    /** Afterwards the name has no listener, and every other name the listener and TLS entry it had. */
    method StopListener(name: string)
      modifies this`listeners
      ensures At(State(), name) == Entry(None, At(old(State()), name).tls)
      ensures forall other :: other != name ==> At(State(), other) == At(old(State()), other)
      ensures listeners == old(listeners) - {name}
    {
      listeners := listeners - {name};
    }

    /** Binds one listener; on success it is tracked, and a terminate listener's task is returned. */
    method SpawnListener(l: Listener) returns (r: Result<Option<nat>, ()>)
      requires l.IsTcp() && l.name !in listeners
      modifies this`listeners, this`nextTask, this`attempts
      ensures r.Ok? <==> binds(old(attempts))
      ensures var after := SpawnOne(old(State()), l, binds);
              && listeners == after.bound && nextTask == after.nextTask && attempts == after.attempts
              && after.tls == if r.Ok? && r.value.Some? then tls[l.name := r.value.value] else tls
    {
      var bound := binds(attempts);
      attempts := attempts + 1;
      if !bound {
        return Err(());
      }
      var task := nextTask;
      nextTask := nextTask + 1;
      listeners := listeners[l.name := Managed(BindIdentity(l), task)];
      return Ok(if l.Terminates() then Some(task) else None);
    }

    /** The managed names that vanished or changed, in some order and without repetition. */
    method FindStale(configured: seq<Listener>) returns (toRemove: seq<string>)
      ensures forall name :: name in toRemove <==> name in Stale(listeners, configured)
      ensures forall i, j :: 0 <= i < j < |toRemove| ==> toRemove[i] != toRemove[j]
    {
      toRemove := [];
      var rest := listeners.Keys;
      while rest != {}
        invariant rest <= listeners.Keys
        invariant forall name :: name in toRemove <==> name in Stale(listeners, configured) && name !in rest
        invariant forall i, j :: 0 <= i < j < |toRemove| ==> toRemove[i] != toRemove[j]
        decreases rest
      {
        var name :| name in rest;
        rest := rest - {name};
        var found := Lookup(configured, name);
        if found.None? || BindIdentity(found.value) != listeners[name].identity {
          toRemove := toRemove + [name];
        }
      }
    }

    /** Reconciles the managed listeners and the TLS terminations with a configured set. */
    method Apply(configured: seq<Listener>)
      modifies this
      ensures State() == Reconcile(old(State()), configured, binds)
    {
      var toRemove := FindStale(configured);
      var k := 0;
      while k < |toRemove|
        invariant 0 <= k <= |toRemove|
        invariant listeners == old(listeners) - set name | name in toRemove[..k]
        invariant tls == old(tls) - set name | name in toRemove[..k]
        invariant nextTask == old(nextTask) && attempts == old(attempts)
      {
        StopListener(toRemove[k]);
        tls := tls - {toRemove[k]};
        k := k + 1;
      }
      assert (set name | name in toRemove[..k]) == Stale(old(listeners), configured);
      ghost var stopped := State();
      var i := 0;
      while i < |configured|
        invariant 0 <= i <= |configured|
        invariant State() == SpawnAll(stopped, configured[..i], binds)
      {
        var l := configured[i];
        assert configured[..i + 1][..i] == configured[..i];
        if l.IsTcp() && l.name !in listeners {
          var r := SpawnListener(l);
          if r.Ok? && r.value.Some? {
            tls := tls[l.name := r.value.value];
          }
        }
        i := i + 1;
      }
      assert configured[..i] == configured;
    }
  }
}
