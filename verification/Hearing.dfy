/** What a node does with a frame it hears for the first time and with one it hears again, in terms of
    the clock and the keys it accepted; and that a frame heard again in time is not relayed.
*/
module Hearing {
  import opened SymbolicCrypto
  import opened Packet
  import opened Dedup
  import opened Router
  import opened Flood
  import opened Remembering

  /** The key of arrival `j` was accepted no longer than `ttl` ago and fewer than `capacity` keys ago. */
  ghost predicate HeardRecently(cfg: Config, events: seq<Event>, j: nat)
    requires j < |events| && events[j].Arrive?
  {
    var log := LogAt(cfg, events, j);
    exists i :: 0 <= i < |log| && log[i].key == KeyOf(events[j].packet)
                && log[i].at >= events[j].now - cfg.limits.ttl && |log| - i <= cfg.limits.capacity
  }

  lemma KnownMeansHeard(cfg: Config, nodes: seq<Node>, events: seq<Event>, j: nat)
    requires IsRun(cfg, nodes, events) && ClockForward(events) && cfg.limits.ttl >= 0.0
    requires j < |events| && events[j].Arrive?
    ensures Observe(cfg.limits, nodes[j].marks, KeyOf(events[j].packet), events[j].now).0
       <==> HeardRecently(cfg, events, j)
  {
    hide Step, Observe, LogAt;
    KnownExactly(cfg, nodes, events, j);
  }

  // -- a frame heard for the first time --------------------------------------------------------------

  /** From `n` to `n'` the relay of `p` was scheduled: a live, indexed timer holds it one hop older. A frame
      on its last hop is counted instead. */
  ghost predicate RelayScheduled(n: Node, n': Node, p: Packet) {
    if p.ttl > 1 then
      && |n'.timers| == |n.timers| + 1 && n'.timers[..|n.timers|] == n.timers
      && var t := n'.timers[|n.timers|];
      && t.key == KeyOf(p) && t.packet == p.(ttl := p.ttl - 1)
      && n'.pending == n.pending[KeyOf(p) := t.id] && n'.stats.expired == n.stats.expired
      && forall i :: 0 <= i < |n.timers| ==> n.timers[i].id != t.id
    else
      n'.timers == n.timers && n'.pending == n.pending && n'.stats.expired == n.stats.expired + 1
  }

  /** The frame was counted as ours and awaits its delivery; no relay of it is scheduled yet. */
  ghost predicate HandedOver(n: Node, n': Node, p: Packet) {
    && n'.delivering == n.delivering + [p] && n'.stats.deliveredLocal == n.stats.deliveredLocal + 1
    && n'.timers == n.timers && n'.pending == n.pending && n'.stats.expired == n.stats.expired
  }

  /** A frame not heard recently is handed over if it is for this node, and otherwise goes straight on to
      its relay; nothing else in the node changes. */
  lemma FirstHearing(cfg: Config, nodes: seq<Node>, events: seq<Event>, j: nat)
    requires IsRun(cfg, nodes, events) && ClockForward(events) && cfg.limits.ttl >= 0.0
    requires j < |events| && events[j].Arrive? && !HeardRecently(cfg, events, j)
    ensures var (n, n', p) := (nodes[j], nodes[j + 1], events[j].packet);
      && n'.tasks == n.tasks && n'.store == n.store && n'.stats.duplicates == n.stats.duplicates
      && n'.stats.received == n.stats.received + 1
      && (if events[j].forUs then HandedOver(n, n', p)
          else n'.delivering == n.delivering && n'.stats.deliveredLocal == n.stats.deliveredLocal
               && RelayScheduled(n, n', p))
  {
    KnownMeansHeard(cfg, nodes, events, j);
    EveryFrameIsAccountedFor(cfg, nodes, events, j);
    FirstSight(cfg, nodes[j], events[j]);
  }

  lemma FirstSight(cfg: Config, n: Node, e: Event)
    requires e.Arrive? && TimersInv(n) && !Observe(cfg.limits, n.marks, KeyOf(e.packet), e.now).0
    ensures var n' := Step(cfg, n, e);
      && n'.tasks == n.tasks && n'.store == n.store && n'.stats.duplicates == n.stats.duplicates
      && n'.stats.received == n.stats.received + 1
      && (if e.forUs then HandedOver(n, n', e.packet)
          else n'.delivering == n.delivering && n'.stats.deliveredLocal == n.stats.deliveredLocal
               && RelayScheduled(n, n', e.packet))
  {
    hide Observe;
  }

  /** A delivery that returned goes on to the relay of the delivered frame. */
  lemma DeliveredIsRelayed(cfg: Config, n: Node, i: nat)
    requires TimersInv(n) && i < |n.delivering|
    ensures var n' := Step(cfg, n, Delivered(i, false));
      n'.delivering == RemoveAt(n.delivering, i) && RelayScheduled(n, n', n.delivering[i])
  {}

  /** A timer that elapses and is then sent puts out the very packet it held. */
  lemma TimerGoesOut(cfg: Config, n: Node, i: nat, now: real)
    requires i < |n.timers|
    ensures var n1 := Step(cfg, n, Elapse(i));
      && n1.tasks == n.tasks + [n.timers[i].packet] && n.timers[i].key !in n1.pending
      && SentBy(cfg, n1, Complete(|n.tasks|, true, now)) == [n.timers[i].packet]
      && Step(cfg, n1, Complete(|n.tasks|, true, now)).stats.relayed == n.stats.relayed + 1
  {}

  // -- a frame heard again -----------------------------------------------------------------------------

  ghost predicate NoTimer(n: Node, key: Key) {
    forall i :: 0 <= i < |n.timers| ==> n.timers[i].key != key
  }

  /** Every live timer of the key is the one the router's index has for it. */
  ghost predicate KeyIndexed(n: Node, key: Key) {
    forall i :: 0 <= i < |n.timers| && n.timers[i].key == key ==> key in n.pending && n.pending[key] == n.timers[i].id
  }

  lemma CancelStandsDown(n: Node, key: Key)
    requires TimersInv(n) && KeyIndexed(n, key)
    ensures NoTimer(CancelPending(n, key), key)
    ensures forall t: Timer :: t.key != key ==> (t in CancelPending(n, key).timers <==> t in n.timers)
    ensures var n' := CancelPending(n, key);
      n'.stats.suppressed + |n'.timers| == n.stats.suppressed + |n.timers| && key !in n'.pending
  {
    hide RemoveAt, TimerIndex;
    if key in n.pending {
      var i := PendingTimer(n, key);
      RemovedAt(n.timers, i);
      IdsAreDistinct(n);
      forall t: Timer | t.key != key ensures t in RemoveAt(n.timers, i) <==> t in n.timers {
        RemovedKeeps(n.timers, i, t);
      }
    }
  }

  lemma RemovedKeeps<T>(s: seq<T>, i: nat, x: T)
    requires i < |s| && x != s[i]
    ensures x in RemoveAt(s, i) <==> x in s
  {
    assert s == s[..i] + [s[i]] + s[i + 1..];
  }

  /** A frame heard recently stands the pending relay of its key down: no live timer has the key, every
      other timer stays, and each relay that went is counted as suppressed. */
  lemma HeardAgain(cfg: Config, nodes: seq<Node>, events: seq<Event>, j: nat)
    requires IsRun(cfg, nodes, events) && ClockForward(events) && cfg.limits.ttl >= 0.0
    requires j < |events| && events[j].Arrive? && HeardRecently(cfg, events, j)
    requires KeyIndexed(nodes[j], KeyOf(events[j].packet))
    ensures var (n, n', key) := (nodes[j], nodes[j + 1], KeyOf(events[j].packet));
      && NoTimer(n', key) && key !in n'.pending
      && (forall t: Timer :: t.key != key ==> (t in n'.timers <==> t in n.timers))
      && n'.stats.suppressed + |n'.timers| == n.stats.suppressed + |n.timers|
      && n'.stats.duplicates == n.stats.duplicates + 1
      && n'.delivering == n.delivering && n'.tasks == n.tasks && n'.store == n.store
  {
    KnownMeansHeard(cfg, nodes, events, j);
    EveryFrameIsAccountedFor(cfg, nodes, events, j);
    SecondSight(cfg, nodes[j], events[j]);
  }

  lemma SecondSight(cfg: Config, n: Node, e: Event)
    requires e.Arrive? && TimersInv(n) && Observe(cfg.limits, n.marks, KeyOf(e.packet), e.now).0
    requires KeyIndexed(n, KeyOf(e.packet))
    ensures var (n', key) := (Step(cfg, n, e), KeyOf(e.packet));
      && NoTimer(n', key) && key !in n'.pending
      && (forall t: Timer :: t.key != key ==> (t in n'.timers <==> t in n.timers))
      && n'.stats.suppressed + |n'.timers| == n.stats.suppressed + |n.timers|
      && n'.stats.duplicates == n.stats.duplicates + 1
      && n'.delivering == n.delivering && n'.tasks == n.tasks && n'.store == n.store
  {
    hide Observe, CancelPending, TimersInv;
    var (known, marks) := Observe(cfg.limits, n.marks, KeyOf(e.packet), e.now);
    var n2 := n.(marks := marks,
                 stats := n.stats.(received := n.stats.received + 1, duplicates := n.stats.duplicates + 1));
    SameTimers(n, n2);
    CancelStandsDown(n2, KeyOf(e.packet));
    CancelKeepsRest(n2, KeyOf(e.packet));
  }

  lemma CancelKeepsRest(n: Node, key: Key)
    ensures var n' := CancelPending(n, key);
      n' == n.(timers := n'.timers, pending := n'.pending, stats := n.stats.(suppressed := n'.stats.suppressed))
  {}

  // -- one key over a run ---------------------------------------------------------------------------------

  /** A timer's packet has the timer's key. */
  ghost predicate TimerKeys(n: Node) {
    forall i :: 0 <= i < |n.timers| ==> KeyOf(n.timers[i].packet) == n.timers[i].key
  }

  lemma CancelKeepsKeys(n: Node, key: Key)
    requires TimerKeys(n)
    ensures TimerKeys(CancelPending(n, key))
  {}

  lemma StepKeepsKeys(cfg: Config, n: Node, e: Event)
    requires Possible(n, e) && TimerKeys(n)
    ensures TimerKeys(Step(cfg, n, e))
  {
    hide Observe, CancelPending;
    if e.Arrive? {
      var (known, marks) := Observe(cfg.limits, n.marks, KeyOf(e.packet), e.now);
      var n2 := n.(marks := marks,
                   stats := n.stats.(received := n.stats.received + 1, duplicates := n.stats.duplicates + 1));
      CancelKeepsKeys(n2, KeyOf(e.packet));
    }
  }

  lemma {:induction false} KeysHold(cfg: Config, nodes: seq<Node>, events: seq<Event>, k: nat)
    requires IsRun(cfg, nodes, events) && k <= |events|
    ensures TimerKeys(nodes[k])
  {
    hide Step;
    if k > 0 {
      KeysHold(cfg, nodes, events, k - 1);
      StepKeepsKeys(cfg, nodes[k - 1], events[k - 1]);
    }
  }

  lemma {:induction false} NoneCounted(packets: seq<Packet>, key: Key)
    ensures Count(packets, key) == 0 <==> forall i :: 0 <= i < |packets| ==> KeyOf(packets[i]) != key
  {
    if packets != [] { NoneCounted(packets[1..], key); }
  }

  lemma {:induction false} NoneOnward(packets: seq<Packet>, key: Key)
    ensures (forall i :: 0 <= i < |packets| ==> KeyOf(packets[i]) != key) ==> Sum(packets, Onward(Counting(key))) == 0
    ensures Sum(packets, Onward(Counting(key))) == 0 ==>
      forall i :: 0 <= i < |packets| && DecrementTtl(packets[i]).Some? ==> KeyOf(packets[i]) != key
  {
    if packets != [] { NoneOnward(packets[1..], key); }
  }

  lemma NoTimerCounted(n: Node, key: Key)
    requires TimerKeys(n)
    ensures NoTimer(n, key) <==> Count(TimerPackets(n.timers), key) == 0
  {
    NoneCounted(TimerPackets(n.timers), key);
    hide Sum;
    assert forall i :: 0 <= i < |n.timers| ==> TimerPackets(n.timers)[i] == n.timers[i].packet;
  }

  // -- the index of one key ------------------------------------------------------------------------------

  lemma OtherCancelKeepsKeyIndexed(n: Node, other: Key, key: Key)
    requires TimersInv(n) && KeyIndexed(n, key)
    ensures KeyIndexed(CancelPending(n, other), key)
  {
    if other == key {
      CancelStandsDown(n, key);
    } else if other in n.pending {
      var i := PendingTimer(n, other);
      RemovedAt(n.timers, i);
    }
  }

  lemma SameKeyIndexed(n: Node, n': Node, key: Key)
    requires n'.timers == n.timers && n'.pending == n.pending
    ensures KeyIndexed(n, key) <==> KeyIndexed(n', key)
  {}

  lemma ScheduleKeepsKeyIndexed(n: Node, p: Packet, key: Key)
    requires KeyIndexed(n, key) && (KeyOf(p) == key && DecrementTtl(p).Some? ==> NoTimer(n, key))
    ensures KeyIndexed(ScheduleRelay(n, p), key)
  {}

  lemma FireKeepsKeyIndexed(n: Node, i: nat, key: Key)
    requires TimersInv(n) && KeyIndexed(n, key) && i < |n.timers|
    ensures KeyIndexed(Fire(n, i), key)
  {
    hide RemoveAt;
    RemovedAt(n.timers, i);
    IdsAreDistinct(n);
  }

  lemma StepKeepsKeyIndexed(cfg: Config, n: Node, e: Event, key: Key)
    requires TimersInv(n) && KeyIndexed(n, key) && Possible(n, e)
    requires var p := ToRelay(cfg, n, e);
      p.Some? && KeyOf(p.value) == key && DecrementTtl(p.value).Some? ==> NoTimer(n, key)
    ensures KeyIndexed(Step(cfg, n, e), key)
  {
    hide Observe, TimersInv, KeyIndexed, NoTimer, CancelPending, ScheduleRelay, Fire, Replayed, Held, Purged;
    hide DecrementTtl;
    match e
    case Arrive(p, now, forUs) =>
      var (known, marks) := Observe(cfg.limits, n.marks, KeyOf(p), now);
      var n1 := n.(marks := marks, stats := n.stats.(received := n.stats.received + 1));
      var n2 := n1.(stats := n1.stats.(duplicates := n1.stats.duplicates + 1));
      SameTimers(n, n2);
      SameKeyIndexed(n, n1, key);
      SameKeyIndexed(n, n2, key);
      SameNoTimer(n, n1, key);
      if known {
        OtherCancelKeepsKeyIndexed(n2, KeyOf(p), key);
      } else if forUs {
        SameKeyIndexed(n, Step(cfg, n, e), key);
      } else {
        ScheduleKeepsKeyIndexed(n1, p, key);
      }
    case Delivered(i, raised) =>
      var n1 := n.(delivering := RemoveAt(n.delivering, i));
      SameKeyIndexed(n, n1, key);
      SameNoTimer(n, n1, key);
      if raised {
        SameKeyIndexed(n, Step(cfg, n, e), key);
      } else {
        ScheduleKeepsKeyIndexed(n1, n.delivering[i], key);
      }
    case Elapse(i) => FireKeepsKeyIndexed(n, i, key);
    case _ => SameKeyIndexed(n, Step(cfg, n, e), key);
  }

  lemma SameNoTimer(n: Node, n': Node, key: Key)
    requires n'.timers == n.timers
    ensures NoTimer(n, key) <==> NoTimer(n', key)
  {}

  /** While the key is not forgotten, a relay of it is only scheduled when none is live. */
  lemma SchedulesAlone(cfg: Config, nodes: seq<Node>, events: seq<Event>, key: Key, k: nat)
    requires IsRun(cfg, nodes, events) && k < |events| && NeverForgotten(cfg, nodes, events, key)
    requires var p := ToRelay(cfg, nodes[k], events[k]);
      p.Some? && KeyOf(p.value) == key && DecrementTtl(p.value).Some?
    ensures NoTimer(nodes[k], key)
  {
    hide Step, Observe, SentBy, AllSent, AllTaken, Sum, DecrementTtl, TimerPackets, StorePackets, NoTimer;
    FewTaken(cfg, nodes, events, key, k);
    RunConserves(cfg, nodes, events, k, Counting(key));
    KeysHold(cfg, nodes, events, k);
    NoTimerCounted(nodes[k], key);
    if events[k].Delivered? {
      AwaitedCounts(nodes[k].delivering, events[k].i, key);
    } else {
      assert forall i :: 0 <= i < k ==> !Touches(events[i], key);
    }
  }

  lemma AwaitedCounts(packets: seq<Packet>, i: nat, key: Key)
    requires i < |packets| && KeyOf(packets[i]) == key && DecrementTtl(packets[i]).Some?
    ensures Sum(packets, Onward(Counting(key))) >= 1
  {
    NoneOnward(packets, key);
  }

  lemma {:induction false} KeyStaysIndexed(cfg: Config, nodes: seq<Node>, events: seq<Event>, key: Key, k: nat)
    requires IsRun(cfg, nodes, events) && k <= |events| && NeverForgotten(cfg, nodes, events, key)
    ensures KeyIndexed(nodes[k], key)
  {
    hide Step, Observe, NeverForgotten, TimersInv, Balanced, NoTimer, DecrementTtl;
    if k > 0 {
      KeyStaysIndexed(cfg, nodes, events, key, k - 1);
      EveryFrameIsAccountedFor(cfg, nodes, events, k - 1);
      var p := ToRelay(cfg, nodes[k - 1], events[k - 1]);
      if p.Some? && KeyOf(p.value) == key && DecrementTtl(p.value).Some? {
        SchedulesAlone(cfg, nodes, events, key, k - 1);
      }
      StepKeepsKeyIndexed(cfg, nodes[k - 1], events[k - 1], key);
    }
  }

  // -- a frame heard again in time -----------------------------------------------------------------------

  /** What has left the timers: relays in flight and in the store. */
  function Released(n: Node, f: Packet -> nat): nat {
    Sum(n.tasks, f) + Sum(StorePackets(n.store), f)
  }

  /** Only an elapsing timer releases anything. */
  lemma StepReleases(cfg: Config, n: Node, e: Event, f: Packet -> nat)
    requires Possible(n, e)
    ensures Sum(SentBy(cfg, n, e), f) + Released(Step(cfg, n, e), f)
         <= Released(n, f) + (if e.Elapse? then f(n.timers[e.i].packet) else 0)
  {
    hide Observe, CancelPending, ScheduleRelay, TimerPackets, StorePackets;
    match e
    case Arrive(p, now, forUs) => ArrivalReleasesNothing(cfg, n, e);
    case Delivered(i, raised) => DeliveryReleasesNothing(n, i, raised);
    case Elapse(i) =>
      SumOfConcat(n.tasks, [n.timers[i].packet], f);
      SumOfOne(n.timers[i].packet, f);
    case Complete(i, sent, now) =>
      SumOfRemoval(n.tasks, i, f);
      SumOfOne(n.tasks[i], f);
      var n1 := n.(tasks := RemoveAt(n.tasks, i), stats := n.stats.(failed := n.stats.failed + 1));
      KeepConserves(cfg, n1, n.tasks[i], now, f);
    case Resend(now, outcomes) => ReplayConserves(cfg, n.store, now, outcomes, f);
    case Purge(now) => PurgeConserves(cfg, n.store, now, f);
    case Originate(_, _) =>
  }

  lemma ArrivalReleasesNothing(cfg: Config, n: Node, e: Event)
    requires e.Arrive?
    ensures Step(cfg, n, e).tasks == n.tasks && Step(cfg, n, e).store == n.store
  {
    hide Observe, Cancel;
  }

  lemma DeliveryReleasesNothing(n: Node, i: nat, raised: bool)
    requires i < |n.delivering|
    ensures FinishDelivery(n, i, raised).tasks == n.tasks && FinishDelivery(n, i, raised).store == n.store
  {}

  /** No timer of the key has gone off before event `k`. */
  ghost predicate NotElapsed(nodes: seq<Node>, events: seq<Event>, key: Key, k: nat) {
    forall m :: 0 <= m < k && m < |events| && m < |nodes| && events[m].Elapse? && events[m].i < |nodes[m].timers| ==>
      nodes[m].timers[events[m].i].key != key
  }

  lemma {:induction false} NothingReleased(cfg: Config, nodes: seq<Node>, events: seq<Event>, key: Key, k: nat)
    requires IsRun(cfg, nodes, events) && k <= |events| && NotElapsed(nodes, events, key, k)
    ensures Count(AllSent(cfg, nodes, events, k), key) == 0 && Released(nodes[k], Counting(key)) == 0
  {
    hide Step, SentBy, Released;
    if k == 0 {
      IdleReleasesNothing(Counting(key));
    } else {
      NothingReleased(cfg, nodes, events, key, k - 1);
      StepReleases(cfg, nodes[k - 1], events[k - 1], Counting(key));
      KeysHold(cfg, nodes, events, k - 1);
      SumOfConcat(AllSent(cfg, nodes, events, k - 1), SentBy(cfg, nodes[k - 1], events[k - 1]), Counting(key));
    }
  }

  lemma IdleReleasesNothing(f: Packet -> nat)
    ensures Released(IDLE, f) == 0
  {}

  /** Once the node neither carries nor has sent the key, and still knows it, it never sends it. */
  lemma {:induction false} SilentAfter(cfg: Config, nodes: seq<Node>, events: seq<Event>, key: Key, j: nat, k: nat)
    requires IsRun(cfg, nodes, events) && j < k <= |events| && NeverForgotten(cfg, nodes, events, key)
    requires Touches(events[j], key)
    requires Count(AllSent(cfg, nodes, events, j + 1), key) == 0 && Carried(nodes[j + 1], Counting(key)) == 0
    ensures Count(AllSent(cfg, nodes, events, k), key) == 0 && Carried(nodes[k], Counting(key)) == 0
    decreases k
  {
    hide Step, Observe, SentBy, TakenBy, Carried;
    if k > j + 1 {
      SilentAfter(cfg, nodes, events, key, j, k - 1);
      StepConserves(cfg, nodes[k - 1], events[k - 1], Counting(key));
      TakenOnce(cfg, nodes[k - 1], events[k - 1], key);
      SumOfConcat(AllSent(cfg, nodes, events, k - 1), SentBy(cfg, nodes[k - 1], events[k - 1]), Counting(key));
    }
  }

  lemma CarriesNothing(n: Node, key: Key)
    requires TimerKeys(n) && NoTimer(n, key) && Released(n, Counting(key)) == 0
    requires forall i :: 0 <= i < |n.delivering| ==> KeyOf(n.delivering[i]) != key
    ensures Carried(n, Counting(key)) == 0
  {
    hide Sum;
    NoTimerCounted(n, key);
    NoneOnward(n.delivering, key);
  }

  /** Suppression: a frame that a node hears again before its relay timer elapses is never relayed by that
      node, if its key always comes back in time and it is not still being delivered. */
  lemma HeardAgainIsNotRelayed(cfg: Config, nodes: seq<Node>, events: seq<Event>, key: Key, i: nat, j: nat)
    requires IsRun(cfg, nodes, events) && ClockForward(events) && cfg.limits.ttl >= 0.0 && InTime(cfg, events, key)
    requires i < j < |events| && Touches(events[i], key) && Touches(events[j], key) && events[j].Arrive?
    requires NotElapsed(nodes, events, key, j)
    requires forall m :: 0 <= m < |nodes[j].delivering| ==> KeyOf(nodes[j].delivering[m]) != key
    ensures NoTimer(nodes[j + 1], key)
    ensures Count(AllSent(cfg, nodes, events, |events|), key) == 0
  {
    hide Step, Observe, AllSent, SentBy, InTime, Carried, Released, NotElapsed, KeyIndexed, NoTimer;
    hide TimerKeys, TimersInv;
    InTimeIsNeverForgotten(cfg, nodes, events, key);
    KeyStaysIndexed(cfg, nodes, events, key, j);
    EveryFrameIsAccountedFor(cfg, nodes, events, j);
    SecondSight(cfg, nodes[j], events[j]);
    NothingReleased(cfg, nodes, events, key, j);
    StaysReleased(cfg, nodes, events, key, j);
    KeysHold(cfg, nodes, events, j + 1);
    CarriesNothing(nodes[j + 1], key);
    SilentAfter(cfg, nodes, events, key, j, |events|);
  }

  lemma StaysReleased(cfg: Config, nodes: seq<Node>, events: seq<Event>, key: Key, j: nat)
    requires IsRun(cfg, nodes, events) && j < |events| && events[j].Arrive?
    requires NotElapsed(nodes, events, key, j)
    ensures Released(nodes[j + 1], Counting(key)) == 0 && Count(AllSent(cfg, nodes, events, j + 1), key) == 0
  {
    NothingReleased(cfg, nodes, events, key, j + 1);
  }
}
