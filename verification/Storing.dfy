/** Store and forward, entry by entry: what a replay sends and keeps, what a purge drops, and which
    entry a full store gives up.
*/
module Storing {
  import opened Packet
  import opened Router
  import opened Flood

  /** `out` is the elements of `all` at the positions `at`, in order. */
  ghost predicate Selects<T>(out: seq<T>, all: seq<T>, at: seq<nat>) {
    && |at| == |out|
    && (forall k :: 0 <= k < |at| ==> at[k] < |all| && out[k] == all[at[k]])
    && forall j, k :: 0 <= j < k < |at| ==> at[j] < at[k]
  }

  /** The positions one further on, after a first element that is selected or not. */
  function Shifted(at: seq<nat>, first: bool): (r: seq<nat>)
    ensures |r| == |at| + (if first then 1 else 0)
  {
    (if first then [0] else []) + seq(|at|, k requires 0 <= k < |at| => at[k] + 1)
  }

  lemma ShiftedSelects<T>(out: seq<T>, all: seq<T>, at: seq<nat>, first: bool)
    requires all != [] && Selects(out, all[1..], at)
    ensures Selects((if first then [all[0]] else []) + out, all, Shifted(at, first))
  {}

  lemma ShiftedContains(at: seq<nat>, first: bool, i: nat)
    ensures i in Shifted(at, first) <==> if i == 0 then first else i - 1 in at
  {
    if i > 0 && i - 1 in at {
      var k :| 0 <= k < |at| && at[k] == i - 1;
      assert Shifted(at, first)[if first then k + 1 else k] == i;
    }
    if first { assert Shifted(at, first)[0] == 0; }
  }

  /** A replay sends exactly the entries that are not too old and get out, and keeps exactly those that are
      not too old and do not, each once and in order. */
  lemma {:induction false} ReplayIsExact(cfg: Config, store: seq<Stored>, now: real, sent: seq<bool>)
    returns (out: seq<nat>, kept: seq<nat>)
    requires |sent| == |store|
    ensures Selects(Replayed(cfg, store, now, sent), StorePackets(store), out)
    ensures Selects(Held(cfg, store, now, sent), store, kept)
    ensures forall i: nat :: i in out <==> i < |store| && now - store[i].at <= cfg.storeTtl && sent[i]
    ensures forall i: nat :: i in kept <==> i < |store| && now - store[i].at <= cfg.storeTtl && !sent[i]
    decreases |store|
  {
    if store == [] {
      out, kept := [], [];
    } else {
      hide Selects, Shifted;
      var out', kept' := ReplayIsExact(cfg, store[1..], now, sent[1..]);
      var young := now - store[0].at <= cfg.storeTtl;
      out, kept := Shifted(out', young && sent[0]), Shifted(kept', young && !sent[0]);
      assert StorePackets(store)[1..] == StorePackets(store[1..]);
      ShiftedSelects(Replayed(cfg, store[1..], now, sent[1..]), StorePackets(store), out', young && sent[0]);
      ShiftedSelects(Held(cfg, store[1..], now, sent[1..]), store, kept', young && !sent[0]);
      forall i: nat
        ensures i in out <==> i < |store| && now - store[i].at <= cfg.storeTtl && sent[i]
        ensures i in kept <==> i < |store| && now - store[i].at <= cfg.storeTtl && !sent[i]
      {
        ShiftedContains(out', young && sent[0], i);
        ShiftedContains(kept', young && !sent[0], i);
      }
    }
  }

  /** A purge keeps exactly the entries that are not too old. */
  lemma {:induction false} PurgeIsExact(cfg: Config, store: seq<Stored>, now: real) returns (kept: seq<nat>)
    ensures Selects(Purged(cfg, store, now), store, kept)
    ensures forall i: nat :: i in kept <==> i < |store| && now - store[i].at <= cfg.storeTtl
    decreases |store|
  {
    if store == [] {
      kept := [];
    } else {
      hide Selects, Shifted;
      var kept' := PurgeIsExact(cfg, store[1..], now);
      var young := now - store[0].at <= cfg.storeTtl;
      kept := Shifted(kept', young);
      ShiftedSelects(Purged(cfg, store[1..], now), store, kept', young);
      forall i: nat ensures i in kept <==> i < |store| && now - store[i].at <= cfg.storeTtl {
        ShiftedContains(kept', young, i);
      }
    }
  }

  /** Sending stored frames changes the store and one counter, by as many as were sent. */
  lemma ReplayCounts(cfg: Config, n: Node, now: real, sent: seq<bool>)
    requires |sent| == |n.store|
    ensures var n' := Step(cfg, n, Resend(now, sent));
      && n'.store == Held(cfg, n.store, now, sent)
      && n'.stats.replayed == n.stats.replayed + |SentBy(cfg, n, Resend(now, sent))|
      && n' == n.(store := n'.store, stats := n.stats.(replayed := n'.stats.replayed))
  {
    hide Replayed, Held;
  }

  // -- which entry goes -----------------------------------------------------------------------------

  /** The clock by which failed relays are stored never goes back. */
  ghost predicate StoresForward(events: seq<Event>) {
    forall i, j :: 0 <= i <= j < |events| && events[i].Complete? && events[j].Complete?
      ==> events[i].now <= events[j].now
  }

  /** The store is within its capacity, oldest entry first, and nothing in it is newer than `now`. */
  ghost predicate InOrder(cfg: Config, store: seq<Stored>, now: real) {
    && |store| <= cfg.storeCapacity
    && (forall i, j :: 0 <= i <= j < |store| ==> store[i].at <= store[j].at)
    && forall i :: 0 <= i < |store| ==> store[i].at <= now
  }

  lemma SelectionInOrder(cfg: Config, out: seq<Stored>, store: seq<Stored>, at: seq<nat>, now: real)
    requires InOrder(cfg, store, now) && Selects(out, store, at)
    ensures InOrder(cfg, out, now)
  {
    FewSelected(out, store, at);
  }

  lemma {:induction false} FewSelected<T>(out: seq<T>, all: seq<T>, at: seq<nat>)
    requires Selects(out, all, at)
    ensures |out| <= |all|
    decreases |out|
  {
    if out != [] {
      var last := |out| - 1;
      FewSelected(out[..last], all[..at[last]], at[..last]);
    }
  }

  lemma KeepInOrder(cfg: Config, n: Node, p: Packet, before: real, now: real)
    requires InOrder(cfg, n.store, before) && before <= now
    ensures InOrder(cfg, Keep(cfg, n, p, now).store, now)
  {
    hide InOrder;
    LaterInOrder(cfg, n.store, before, now);
    InOrderFits(cfg, n.store, before);
    if |n.store| < cfg.storeCapacity {
      AppendInOrder(cfg, n.store, before, Stored(p, now));
    } else if n.store != [] {
      DropInOrder(cfg, n.store, before);
      AppendInOrder(cfg, n.store[1..], before, Stored(p, now));
    }
  }

  lemma InOrderFits(cfg: Config, store: seq<Stored>, now: real)
    requires InOrder(cfg, store, now)
    ensures |store| <= cfg.storeCapacity
  {}

  lemma AppendInOrder(cfg: Config, store: seq<Stored>, before: real, e: Stored)
    requires InOrder(cfg, store, before) && |store| < cfg.storeCapacity && before <= e.at
    ensures InOrder(cfg, store + [e], e.at)
  {}

  lemma DropInOrder(cfg: Config, store: seq<Stored>, now: real)
    requires InOrder(cfg, store, now) && store != []
    ensures InOrder(cfg, store[1..], now)
  {}

  lemma StepInOrder(cfg: Config, n: Node, e: Event, before: real, now: real)
    requires Possible(n, e) && InOrder(cfg, n.store, before) && before <= now && (e.Complete? ==> e.now == now)
    ensures InOrder(cfg, Step(cfg, n, e).store, now)
  {
    hide Handle, FinishDelivery, Keep, Replayed, Held, Purged;
    match e
    case Arrive(p, t, forUs) => ArrivalKeepsStore(cfg, n, p, t, forUs);
    case Delivered(i, raised) => DeliveryKeepsStore(n, i, raised);
    case Complete(i, sent, t) =>
      var n1 := n.(tasks := RemoveAt(n.tasks, i), stats := n.stats.(failed := n.stats.failed + 1));
      KeepInOrder(cfg, n1, n.tasks[i], before, now);
    case Resend(t, outcomes) =>
      var out, kept := ReplayIsExact(cfg, n.store, t, outcomes);
      SelectionInOrder(cfg, Held(cfg, n.store, t, outcomes), n.store, kept, now);
    case Purge(t) =>
      var kept := PurgeIsExact(cfg, n.store, t);
      SelectionInOrder(cfg, Purged(cfg, n.store, t), n.store, kept, now);
    case _ =>
  }

  lemma ArrivalKeepsStore(cfg: Config, n: Node, p: Packet, now: real, forUs: bool)
    ensures Handle(cfg, n, p, now, forUs).store == n.store
  {}

  lemma DeliveryKeepsStore(n: Node, i: nat, raised: bool)
    requires i < |n.delivering|
    ensures FinishDelivery(n, i, raised).store == n.store
  {}

  /** In every run the store stays within its capacity and in order of age. */
  lemma {:induction false} StoreStaysInOrder(cfg: Config, nodes: seq<Node>, events: seq<Event>, k: nat, now: real)
    requires IsRun(cfg, nodes, events) && StoresForward(events) && k <= |events|
    requires forall i :: 0 <= i < k && events[i].Complete? ==> events[i].now <= now
    ensures InOrder(cfg, nodes[k].store, now)
  {
    hide Step, InOrder;
    if k == 0 {
      IdleInOrder(cfg, now);
    } else {
      var at := if events[k - 1].Complete? then events[k - 1].now else now;
      StoreStaysInOrder(cfg, nodes, events, k - 1, at);
      StepInOrder(cfg, nodes[k - 1], events[k - 1], at, at);
      LaterInOrder(cfg, nodes[k].store, at, now);
    }
  }

  lemma IdleInOrder(cfg: Config, now: real)
    ensures InOrder(cfg, IDLE.store, now)
  {}

  lemma LaterInOrder(cfg: Config, store: seq<Stored>, before: real, now: real)
    requires InOrder(cfg, store, before) && before <= now
    ensures InOrder(cfg, store, now)
  {}

  /** A relay that failed joins the store; a full store gives up one entry for it, and no entry is older
      than that one. Without room for any, or with storing off, the frame is lost and nothing else is. */
  lemma FullStoreLosesOldest(cfg: Config, nodes: seq<Node>, events: seq<Event>, k: nat)
    requires IsRun(cfg, nodes, events) && StoresForward(events) && k < |events|
    requires events[k].Complete? && !events[k].sent
    ensures Possible(nodes[k], events[k])
    ensures var (store, store', added) := (nodes[k].store, nodes[k + 1].store,
                                         Stored(nodes[k].tasks[events[k].i], events[k].now));
      && nodes[k + 1].stats.failed == nodes[k].stats.failed + 1
      && nodes[k + 1].stats.stored
         == nodes[k].stats.stored + (if !cfg.storeForward || cfg.storeCapacity == 0 then 0 else 1)
      && if !cfg.storeForward || cfg.storeCapacity == 0 then store' == store
      else if |store| < cfg.storeCapacity then store' == store + [added]
      else
        && |store'| == |store| == cfg.storeCapacity && store'[|store| - 1] == added
        && (forall i :: 0 < i < |store| ==> store'[i - 1] == store[i])
        && (forall i :: 0 <= i < |store| ==> store[0].at <= store[i].at)
  {
    StoreStaysInOrder(cfg, nodes, events, k, events[k].now);
  }
}
