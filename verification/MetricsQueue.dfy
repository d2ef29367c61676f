/**
 The periodic metrics exporter's bounded retry queue. Each tick retries what is queued, oldest
 first, then posts the fresh payload; a payload that fails is queued, evicting the oldest when
 the queue is full. At shutdown one last tick runs and the queue is flushed until a post fails.

 A payload is known by the number of the tick that encoded it. The network answers post after
 post: an arbitrary function from the number of the post to whether it is accepted.
 */
module MetricsQueue {
  import opened Wrappers

  /** The queue and what became of every other payload: `retried` were delivered from the queue,
      `direct` by their own tick, `evicted` pushed out of a full queue, `unqueued` dropped because
      no queue is configured, `lost` dropped at shutdown. `posts` tells which payload each post
      carried. */
  datatype Ledger = Ledger(
    queue: seq<nat>,
    retried: seq<nat>,
    direct: seq<nat>,
    evicted: seq<nat>,
    unqueued: seq<nat>,
    lost: seq<nat>,
    posts: seq<nat>)
  {
    /** In how many places payload `p` is. */
    function Count(p: nat): nat {
      Times(queue, p) + Times(retried, p) + Times(direct, p) + Times(evicted, p) + Times(unqueued, p) + Times(lost, p)
    }
  }

  function Times(s: seq<nat>, p: nat): nat {
    multiset(s)[p]
  }

  lemma {:induction false} TimesOfParts(a: seq<nat>, b: seq<nat>, p: nat)
    ensures Times(a + b, p) == Times(a, p) + Times(b, p)
    ensures Times([], p) == 0
    ensures forall x: nat :: Times([x], p) == if x == p then 1 else 0
  {
  }

  const EMPTY := Ledger([], [], [], [], [], [], [])

  type Network = nat -> bool

  /** The oldest queued payload, delivered. */
  function Deliver(l: Ledger): Ledger
    requires l.queue != []
  {
    l.(queue := l.queue[1..], retried := l.retried + [l.queue[0]])
  }

  /** The oldest queued payload, pushed out. */
  function Evict(l: Ledger): Ledger
    requires l.queue != []
  {
    l.(queue := l.queue[1..], evicted := l.evicted + [l.queue[0]])
  }

  function Abandon(l: Ledger): Ledger {
    l.(queue := [], lost := l.lost + l.queue)
  }

  function Enqueue(l: Ledger, payload: nat): Ledger {
    l.(queue := l.queue + [payload])
  }

  function Posted(l: Ledger, payload: nat): Ledger {
    l.(posts := l.posts + [payload])
  }

  /** Whether the network accepts the next post. */
  predicate NextAccepted(l: Ledger, net: Network) {
    net(|l.posts|)
  }

  /** Retries from the front until a post fails. */
  function Drain(l: Ledger, net: Network): Ledger
    decreases |l.queue|
  {
    if l.queue == [] then l
    else if NextAccepted(l, net) then Drain(Deliver(Posted(l, l.queue[0])), net)
    else Posted(l, l.queue[0])
  }

  /** Files the fresh payload after its post. */
  function File(l: Ledger, depth: nat, payload: nat, ok: bool): Ledger {
    if ok then l.(direct := l.direct + [payload])
    else if depth == 0 then l.(unqueued := l.unqueued + [payload])
    else Enqueue(if |l.queue| >= depth then Evict(l) else l, payload)
  }

  /** One tick; `payload` is absent when nothing was gathered or encoding failed. */
  function Tick(l: Ledger, depth: nat, payload: Option<nat>, net: Network): Ledger {
    var drained := Drain(l, net);
    match payload
    case None => drained
    case Some(p) => File(Posted(drained, p), depth, p, NextAccepted(drained, net))
  }

  /** The shutdown flush: each payload leaves the queue before its post, so the first failure
      loses it and whatever is behind it. */
  function Flush(l: Ledger, net: Network): Ledger
    decreases |l.queue|
  {
    if l.queue == [] then l
    else
      var posted := Posted(l, l.queue[0]);
      if NextAccepted(l, net) then Flush(Deliver(posted), net) else Abandon(posted)
  }

  function Shutdown(l: Ledger, depth: nat, payload: Option<nat>, net: Network): Ledger {
    Flush(Tick(l, depth, payload, net), net)
  }

  // ---------- What every tick keeps ----------

  predicate Increasing(s: seq<nat>) {
    forall i, j :: 0 <= i < j < |s| ==> s[i] < s[j]
  }

  predicate Below(s: seq<nat>, bound: nat) {
    forall i :: 0 <= i < |s| ==> s[i] < bound
  }

  /** The queue is within its depth and in tick order, after everything retried and everything
      evicted; nothing is from tick `now` or later. */
  predicate Ordered(l: Ledger, depth: nat, now: nat) {
    && |l.queue| <= depth
    && Increasing(l.retried + l.queue) && Increasing(l.evicted + l.queue)
    && Below(l.retried + l.queue, now) && Below(l.evicted + l.queue, now)
  }

  lemma {:induction false} IncreasingCut(a: seq<nat>, q: seq<nat>, now: nat)
    requires q != [] && Increasing(a + q) && Below(a + q, now)
    ensures Increasing(a + q[1..]) && Below(a + q[1..], now)
    ensures Increasing((a + [q[0]]) + q[1..]) && Below((a + [q[0]]) + q[1..], now)
  {
    assert (a + [q[0]]) + q[1..] == a + q;
    var s, t := a + q, a + q[1..];
    forall i, j | 0 <= i < j < |t| ensures t[i] < t[j] {
      var i', j' := if i < |a| then i else i + 1, if j < |a| then j else j + 1;
      assert t[i] == s[i'] && t[j] == s[j'];
    }
    forall i | 0 <= i < |t| ensures t[i] < now {
      assert t[i] == s[if i < |a| then i else i + 1];
    }
  }

  lemma {:induction false} IncreasingPush(a: seq<nat>, q: seq<nat>, now: nat)
    requires Increasing(a + q) && Below(a + q, now)
    ensures Increasing(a + (q + [now])) && Below(a + (q + [now]), now + 1)
  {
    assert a + (q + [now]) == (a + q) + [now];
  }

  lemma {:induction false} DeliverKeeps(l: Ledger, depth: nat, now: nat)
    requires Ordered(l, depth, now) && l.queue != []
    ensures Ordered(Deliver(l), depth, now)
  {
    IncreasingCut(l.retried, l.queue, now);
    IncreasingCut(l.evicted, l.queue, now);
  }

  lemma {:induction false} EvictKeeps(l: Ledger, depth: nat, now: nat)
    requires Ordered(l, depth, now) && l.queue != []
    ensures Ordered(Evict(l), depth, now)
  {
    IncreasingCut(l.retried, l.queue, now);
    IncreasingCut(l.evicted, l.queue, now);
  }

  lemma {:induction false} EnqueueKeeps(l: Ledger, depth: nat, now: nat)
    requires Ordered(l, depth, now) && |l.queue| < depth
    ensures Ordered(Enqueue(l, now), depth, now + 1)
  {
    IncreasingPush(l.retried, l.queue, now);
    IncreasingPush(l.evicted, l.queue, now);
  }

  /** Delivering and evicting move a payload, enqueueing adds one. */
  lemma {:induction false} MovesAccount(l: Ledger, payload: nat, p: nat)
    ensures l.queue != [] ==> Deliver(l).Count(p) == l.Count(p) && Evict(l).Count(p) == l.Count(p)
    ensures Enqueue(l, payload).Count(p) == l.Count(p) + (if p == payload then 1 else 0)
  {
    TimesOfParts(l.queue, [payload], p);
    if l.queue != [] {
      var q := l.queue[0];
      assert l.queue == [q] + l.queue[1..];
      TimesOfParts([q], l.queue[1..], p);
      TimesOfParts(l.retried, [q], p);
      TimesOfParts(l.evicted, [q], p);
    }
  }

  lemma {:induction false} DrainKeeps(l: Ledger, depth: nat, now: nat, net: Network, p: nat)
    requires Ordered(l, depth, now)
    ensures Ordered(Drain(l, net), depth, now) && Drain(l, net).Count(p) == l.Count(p)
    ensures Drain(l, net).lost == l.lost
    decreases |l.queue|
  {
    if l.queue != [] && NextAccepted(l, net) {
      var posted := Posted(l, l.queue[0]);
      DeliverKeeps(posted, depth, now);
      MovesAccount(posted, now, p);
      DrainKeeps(Deliver(posted), depth, now, net, p);
    }
  }

  lemma {:induction false} FileAccounts(l: Ledger, depth: nat, payload: nat, ok: bool, p: nat)
    ensures File(l, depth, payload, ok).Count(p) == l.Count(p) + (if p == payload then 1 else 0)
  {
    if ok {
      TimesOfParts(l.direct, [payload], p);
    } else if depth == 0 {
      TimesOfParts(l.unqueued, [payload], p);
    } else {
      MovesAccount(l, payload, p);
      MovesAccount(if |l.queue| >= depth then Evict(l) else l, payload, p);
    }
  }

  lemma {:induction false} FileKeeps(l: Ledger, depth: nat, now: nat, ok: bool)
    requires Ordered(l, depth, now)
    ensures Ordered(File(l, depth, now, ok), depth, now + 1)
    ensures File(l, depth, now, ok).lost == l.lost
  {
    if !ok && depth > 0 {
      if |l.queue| >= depth {
        EvictKeeps(l, depth, now);
        EnqueueKeeps(Evict(l), depth, now);
      } else {
        EnqueueKeeps(l, depth, now);
      }
    }
  }

  function Fresh(encoded: bool, now: nat): Option<nat> {
    if encoded then Some(now) else None
  }

  /** A tick keeps the order and accounts for exactly the fresh payload. */
  lemma {:induction false} TickKeeps(l: Ledger, depth: nat, now: nat, encoded: bool, net: Network, p: nat)
    requires Ordered(l, depth, now)
    ensures var l' := Tick(l, depth, Fresh(encoded, now), net);
            && Ordered(l', depth, now + 1)
            && l'.Count(p) == l.Count(p) + (if encoded && p == now then 1 else 0)
            && l'.lost == l.lost
  {
    DrainKeeps(l, depth, now, net, p);
    var drained := Drain(l, net);
    FileKeeps(Posted(drained, now), depth, now, NextAccepted(drained, net));
    FileAccounts(Posted(drained, now), depth, now, NextAccepted(drained, net), p);
  }

  // ---------- Whole runs ----------

  /** The ledger after one tick per element of `ticks`, which says whether the tick had a payload
      to encode. */
  function Run(depth: nat, ticks: seq<bool>, net: Network): Ledger {
    if ticks == [] then EMPTY
    else
      var now := |ticks| - 1;
      Tick(Run(depth, ticks[..now], net), depth, Fresh(ticks[now], now), net)
  }

  /** 1 for the payloads that were ever encoded, 0 for all other numbers. */
  function Encoded(ticks: seq<bool>, p: nat): nat {
    if p < |ticks| && ticks[p] then 1 else 0
  }

  /** Conservation: over any ticks and any network every encoded payload is in exactly one place,
      and nothing else is anywhere; the queue stays in order and within its depth, retries are
      delivered in tick order, and everything evicted is older than everything queued. */
  lemma {:induction false} RunConserves(depth: nat, ticks: seq<bool>, net: Network, p: nat)
    ensures Ordered(Run(depth, ticks, net), depth, |ticks|)
    ensures Run(depth, ticks, net).Count(p) == Encoded(ticks, p)
    ensures Run(depth, ticks, net).lost == []
  {
    if ticks != [] {
      var now := |ticks| - 1;
      RunConserves(depth, ticks[..now], net, p);
      TickKeeps(Run(depth, ticks[..now], net), depth, now, ticks[now], net, p);
    }
  }

  lemma {:induction false} AbandonAccounts(l: Ledger, p: nat)
    ensures Abandon(l).Count(p) == l.Count(p)
  {
    TimesOfParts(l.lost, l.queue, p);
  }

  lemma {:induction false} FlushKeeps(l: Ledger, net: Network, p: nat)
    ensures Flush(l, net).queue == [] && Flush(l, net).Count(p) == l.Count(p)
    decreases |l.queue|
  {
    if l.queue != [] {
      var posted := Posted(l, l.queue[0]);
      if NextAccepted(l, net) {
        MovesAccount(posted, 0, p);
        FlushKeeps(Deliver(posted), net, p);
      } else {
        AbandonAccounts(posted, p);
      }
    }
  }

  lemma {:induction false} FlushKeepsOrder(l: Ledger, net: Network)
    requires l.lost == []
    ensures Flush(l, net).retried + Flush(l, net).lost == l.retried + l.queue
    decreases |l.queue|
  {
    if l.queue != [] {
      var posted := Posted(l, l.queue[0]);
      if NextAccepted(l, net) {
        FlushKeepsOrder(Deliver(posted), net);
        assert Deliver(posted).retried + Deliver(posted).queue == l.retried + l.queue;
      } else {
        assert Abandon(posted).lost == l.queue;
      }
    }
  }

  /** After shutdown nothing is queued and every payload ever encoded was delivered, evicted,
      dropped for want of a queue, or lost; what was lost is newer than every retried delivery. */
  lemma {:induction false} ShutdownConserves(depth: nat, ticks: seq<bool>, last: bool, net: Network, p: nat)
    ensures var l := Shutdown(Run(depth, ticks, net), depth, Fresh(last, |ticks|), net);
            && l.queue == [] && l.Count(p) == Encoded(ticks + [last], p)
            && Increasing(l.retried + l.lost)
  {
    var before := Run(depth, ticks, net);
    RunConserves(depth, ticks, net, p);
    TickKeeps(before, depth, |ticks|, last, net, p);
    var ticked := Tick(before, depth, Fresh(last, |ticks|), net);
    FlushKeeps(ticked, net, p);
    FlushKeepsOrder(ticked, net);
  }

  // ---------- What delivered means ----------

  /** How many posts of payload `p` the network accepted. */
  function Acceptances(posts: seq<nat>, net: Network, p: nat): nat {
    if posts == [] then 0
    else
      var n := |posts| - 1;
      Acceptances(posts[..n], net, p) + if posts[n] == p && net(n) then 1 else 0
  }

  /** A payload is recorded as delivered as often as a post of it was accepted. */
  predicate Honest(l: Ledger, net: Network, p: nat) {
    Times(l.retried, p) + Times(l.direct, p) == Acceptances(l.posts, net, p)
  }

  lemma {:induction false} PostCounts(l: Ledger, payload: nat, net: Network, p: nat)
    ensures Acceptances(Posted(l, payload).posts, net, p)
            == Acceptances(l.posts, net, p) + if payload == p && NextAccepted(l, net) then 1 else 0
  {
    assert Posted(l, payload).posts[..|l.posts|] == l.posts;
  }

  lemma {:induction false} DrainIsHonest(l: Ledger, net: Network, p: nat)
    requires Honest(l, net, p)
    ensures Honest(Drain(l, net), net, p)
    decreases |l.queue|
  {
    if l.queue != [] {
      PostCounts(l, l.queue[0], net, p);
      if NextAccepted(l, net) {
        TimesOfParts(l.retried, [l.queue[0]], p);
        DrainIsHonest(Deliver(Posted(l, l.queue[0])), net, p);
      }
    }
  }

  lemma {:induction false} TickIsHonest(l: Ledger, depth: nat, payload: Option<nat>, net: Network, p: nat)
    requires Honest(l, net, p)
    ensures Honest(Tick(l, depth, payload, net), net, p)
  {
    var drained := Drain(l, net);
    DrainIsHonest(l, net, p);
    if payload.Some? {
      PostCounts(drained, payload.value, net, p);
      TimesOfParts(drained.direct, [payload.value], p);
    }
  }

  lemma {:induction false} FlushIsHonest(l: Ledger, net: Network, p: nat)
    requires Honest(l, net, p)
    ensures Honest(Flush(l, net), net, p)
    decreases |l.queue|
  {
    if l.queue != [] {
      PostCounts(l, l.queue[0], net, p);
      if NextAccepted(l, net) {
        TimesOfParts(l.retried, [l.queue[0]], p);
        FlushIsHonest(Deliver(Posted(l, l.queue[0])), net, p);
      }
    }
  }

  lemma {:induction false} RunIsHonest(depth: nat, ticks: seq<bool>, net: Network, p: nat)
    ensures Honest(Run(depth, ticks, net), net, p)
  {
    if ticks != [] {
      var now := |ticks| - 1;
      RunIsHonest(depth, ticks[..now], net, p);
      TickIsHonest(Run(depth, ticks[..now], net), depth, Fresh(ticks[now], now), net, p);
    }
  }

  predicate IsDelivered(l: Ledger, p: nat) {
    p in l.retried || p in l.direct
  }

  predicate IsUndelivered(l: Ledger, p: nat) {
    p in l.queue || p in l.evicted || p in l.unqueued || p in l.lost
  }

  lemma {:induction false} HonestDelivery(l: Ledger, net: Network, p: nat)
    requires Honest(l, net, p) && l.Count(p) <= 1
    ensures IsDelivered(l, p) <==> Acceptances(l.posts, net, p) == 1
    ensures IsUndelivered(l, p) ==> Acceptances(l.posts, net, p) == 0
  {
  }

  /**
   At any time of any run, and after its shutdown, a payload is delivered exactly if one post of it
   was accepted, and never was a second one; no post was accepted of what is queued, evicted, dropped
   or lost.
   */
  lemma {:induction false} DeliveredIffAccepted(depth: nat, ticks: seq<bool>, last: bool, net: Network, p: nat)
    ensures var l := Run(depth, ticks, net);
            && (IsDelivered(l, p) <==> Acceptances(l.posts, net, p) == 1)
            && (IsUndelivered(l, p) ==> Acceptances(l.posts, net, p) == 0)
    ensures var l := Shutdown(Run(depth, ticks, net), depth, Fresh(last, |ticks|), net);
            && (IsDelivered(l, p) <==> Acceptances(l.posts, net, p) == 1)
            && (IsUndelivered(l, p) ==> Acceptances(l.posts, net, p) == 0)
  {
    var l, fresh_ := Run(depth, ticks, net), Fresh(last, |ticks|);
    RunConserves(depth, ticks, net, p);
    RunIsHonest(depth, ticks, net, p);
    HonestDelivery(l, net, p);
    ShutdownConserves(depth, ticks, last, net, p);
    TickIsHonest(l, depth, fresh_, net, p);
    FlushIsHonest(Tick(l, depth, fresh_, net), net, p);
    HonestDelivery(Shutdown(l, depth, fresh_, net), net, p);
  }

  // ---------- What is posted when ----------

  /** The posts from number `from` on and before number `to` are all accepted. */
  predicate AllAccepted(net: Network, from: nat, to: nat) {
    forall n: nat :: from <= n < to ==> net(n)
  }

  /** One from the front, then `k` of the rest. */
  lemma {:induction false} FrontThenMore(a: seq<nat>, q: seq<nat>, k: nat)
    requires k < |q|
    ensures a + [q[0]] + q[1..][..k] == a + q[..k + 1] && q[1..][k..] == q[k + 1..]
  {
  }

  /**
   A tick posts the queue from its front and stops at the first refusal: `k` payloads are delivered,
   and the next one, if there is one, is posted and stays in front.
   */
  lemma {:induction false} DrainStopsAtRefusal(l: Ledger, net: Network) returns (k: nat)
    ensures k <= |l.queue| && AllAccepted(net, |l.posts|, |l.posts| + k)
    ensures k < |l.queue| ==> !net(|l.posts| + k)
    ensures var d := Drain(l, net);
            && d.queue == l.queue[k..] && d.retried == l.retried + l.queue[..k]
            && d.posts == l.posts + l.queue[..if k < |l.queue| then k + 1 else k]
            && d.evicted == l.evicted && d.unqueued == l.unqueued && d.direct == l.direct
    decreases |l.queue|
  {
    k := 0;
    if l.queue != [] && NextAccepted(l, net) {
      var next := Deliver(Posted(l, l.queue[0]));
      var k' := DrainStopsAtRefusal(next, net);
      k := k' + 1;
      FrontThenMore(l.retried, l.queue, k');
      FrontThenMore(l.posts, l.queue, if k' < |next.queue| then k' + 1 else k');
    }
  }

  /** A tick all of whose posts are accepted leaves nothing queued and evicts and drops nothing. */
  lemma {:induction false} AcceptingTickClears(l: Ledger, depth: nat, payload: Option<nat>, net: Network)
    requires AllAccepted(net, |l.posts|, |Tick(l, depth, payload, net).posts|)
    ensures var t := Tick(l, depth, payload, net);
            && t.queue == [] && t.evicted == l.evicted && t.unqueued == l.unqueued
            && t.retried == l.retried + l.queue
            && t.direct == l.direct + (if payload.Some? then [payload.value] else [])
            && t.posts == l.posts + l.queue + (if payload.Some? then [payload.value] else [])
  {
    var k := DrainStopsAtRefusal(l, net);
    var drained := Drain(l, net);
    assert k < |l.queue| ==> |l.posts| + k < |drained.posts| <= |Tick(l, depth, payload, net).posts|;
    assert l.queue[..k] == l.queue && l.queue[k..] == [];
  }

  /** A tick evicts at most the oldest payload, only for a refused fresh one, and only when the queue is full. */
  lemma {:induction false} EvictsOnlyWhenFull(l: Ledger, depth: nat, payload: Option<nat>, net: Network)
    requires |l.queue| <= depth
    ensures var d, t := Drain(l, net), Tick(l, depth, payload, net);
            if t.evicted != l.evicted then
              && |d.queue| == depth > 0 && payload.Some? && !NextAccepted(d, net)
              && t.evicted == l.evicted + [d.queue[0]] && t.queue == d.queue[1..] + [payload.value]
            else
              t.queue ==
              if payload.Some? && depth > 0 && !NextAccepted(d, net) then d.queue + [payload.value] else d.queue
  {
    var _ := DrainStopsAtRefusal(l, net);
  }

  /** The flush at shutdown posts the queue from its front; the first refusal loses it and all behind it. */
  lemma {:induction false} FlushStopsAtRefusal(l: Ledger, net: Network) returns (k: nat)
    ensures k <= |l.queue| && AllAccepted(net, |l.posts|, |l.posts| + k)
    ensures k < |l.queue| ==> !net(|l.posts| + k)
    ensures var f := Flush(l, net);
            && f.queue == [] && f.retried == l.retried + l.queue[..k] && f.lost == l.lost + l.queue[k..]
            && f.posts == l.posts + l.queue[..if k < |l.queue| then k + 1 else k]
    decreases |l.queue|
  {
    k := 0;
    if l.queue != [] && NextAccepted(l, net) {
      var next := Deliver(Posted(l, l.queue[0]));
      var k' := FlushStopsAtRefusal(next, net);
      k := k' + 1;
      FrontThenMore(l.retried, l.queue, k');
      FrontThenMore(l.posts, l.queue, if k' < |next.queue| then k' + 1 else k');
    }
  }

  // ---------- The exporter ----------

  /** The export task: the queue it mutates with the record of its posts and of what became of every
      payload. */
  class MetricsExporter {
    const depth: nat
    const net: Network
    var ledger: Ledger

    constructor (depth: nat, net: Network)
      ensures this.depth == depth && this.net == net && ledger == EMPTY
    {
      this.depth, this.net := depth, net;
      ledger := EMPTY;
    }

    method Post(payload: nat) returns (ok: bool)
      modifies this
      ensures ok == NextAccepted(old(ledger), net) && ledger == Posted(old(ledger), payload)
    {
      ok := net(|ledger.posts|);
      ledger := Posted(ledger, payload);
    }

    /** Retries the queue, oldest first, until a post fails. */
    method DrainQueue()
      modifies this
      ensures ledger == Drain(old(ledger), net)
    {
      var up := true;
      while up && ledger.queue != []
        invariant Drain(old(ledger), net) == if up then Drain(ledger, net) else ledger
        decreases |ledger.queue|, up
      {
        up := Post(ledger.queue[0]);
        if up {
          ledger := Deliver(ledger);
        }
      }
    }

    /** One tick of the export task. */
    method ExportTick(payload: Option<nat>)
      modifies this
      ensures ledger == Tick(old(ledger), depth, payload, net)
    {
      DrainQueue();
      if payload.None? {
        return;
      }
      var ok := Post(payload.value);
      if ok {
        ledger := ledger.(direct := ledger.direct + [payload.value]);
      } else if depth > 0 {
        if |ledger.queue| >= depth {
          ledger := Evict(ledger);
        }
        ledger := Enqueue(ledger, payload.value);
      } else {
        ledger := ledger.(unqueued := ledger.unqueued + [payload.value]);
      }
    }

    /** The shutdown branch: one last tick, then the flush. */
    method ShutDown(payload: Option<nat>)
      modifies this
      ensures ledger == Shutdown(old(ledger), depth, payload, net)
    {
      ExportTick(payload);
      label ticked:
      var up := true;
      while up && ledger.queue != []
        invariant Flush(old@ticked(ledger), net) == if up then Flush(ledger, net) else ledger
        decreases |ledger.queue|, up
      {
        up := Post(ledger.queue[0]);
        ledger := if up then Deliver(ledger) else Abandon(ledger);
      }
    }
  }
}
