/** How far a flood can go: one conservation law for relay tokens, read once as a per-key count
    and once as a potential that TTL alone bounds, over a mesh of any size and topology.
*/
module Flood {
  import opened Packet
  import opened Dedup
  import opened Router

  function Sum(packets: seq<Packet>, f: Packet -> nat): nat {
    if packets == [] then 0 else f(packets[0]) + Sum(packets[1..], f)
  }

  lemma {:induction false} SumOfConcat(a: seq<Packet>, b: seq<Packet>, f: Packet -> nat)
    ensures Sum(a + b, f) == Sum(a, f) + Sum(b, f)
  {
    if a == [] {
      assert a + b == b;
    } else {
      assert (a + b)[1..] == a[1..] + b;
      SumOfConcat(a[1..], b, f);
    }
  }

  lemma SumOfRemoval(packets: seq<Packet>, i: nat, f: Packet -> nat)
    requires i < |packets|
    ensures Sum(packets, f) == Sum(RemoveAt(packets, i), f) + f(packets[i])
  {
    hide Sum;
    assert packets == packets[..i] + ([packets[i]] + packets[i + 1..]);
    SumOfConcat(packets[..i], [packets[i]] + packets[i + 1..], f);
    SumOfConcat([packets[i]], packets[i + 1..], f);
    SumOfConcat(packets[..i], packets[i + 1..], f);
    SumOfOne(packets[i], f);
  }

  lemma SumOfOne(p: Packet, f: Packet -> nat)
    ensures Sum([p], f) == f(p)
  {}

  function TimerPackets(timers: seq<Timer>): seq<Packet> {
    seq(|timers|, i requires 0 <= i < |timers| => timers[i].packet)
  }

  function StorePackets(store: seq<Stored>): seq<Packet> {
    seq(|store|, i requires 0 <= i < |store| => store[i].packet)
  }

  /** The weight of what a packet becomes one hop further, if it goes any further. */
  function NextHop(p: Packet, f: Packet -> nat): nat {
    if DecrementTtl(p).Some? then f(DecrementTtl(p).value) else 0
  }

  function Onward(f: Packet -> nat): Packet -> nat {
    (p: Packet) => NextHop(p, f)
  }

  /** What a node carries: everything in it that may still turn into one transmission. */
  function Carried(n: Node, f: Packet -> nat): nat {
    Sum(n.delivering, Onward(f)) + Sum(TimerPackets(n.timers), f) + Sum(n.tasks, f) + Sum(StorePackets(n.store), f)
  }

  /** Relays an event puts on air. */
  function SentBy(cfg: Config, n: Node, e: Event): seq<Packet>
    requires Possible(n, e)
  {
    match e
    case Complete(i, sent, _) => if sent then [n.tasks[i]] else []
    case Resend(now, outcomes) => Replayed(cfg, n.store, now, outcomes)
    case _ => []
  }

  /** Relays an event takes on: a first sighting, one hop further. */
  function TakenBy(cfg: Config, n: Node, e: Event): seq<Packet> {
    if e.Arrive? && !Observe(cfg.limits, n.marks, KeyOf(e.packet), e.now).0 && DecrementTtl(e.packet).Some?
    then [DecrementTtl(e.packet).value] else []
  }

  // -- conservation of tokens ---------------------------------------------------------------

  lemma TimerRemoved(timers: seq<Timer>, i: nat, f: Packet -> nat)
    requires i < |timers|
    ensures Sum(TimerPackets(timers), f) == Sum(TimerPackets(RemoveAt(timers, i)), f) + f(timers[i].packet)
  {
    assert TimerPackets(RemoveAt(timers, i)) == RemoveAt(TimerPackets(timers), i);
    SumOfRemoval(TimerPackets(timers), i, f);
  }

  lemma StoreAppended(store: seq<Stored>, e: Stored, f: Packet -> nat)
    ensures Sum(StorePackets(store + [e]), f) == Sum(StorePackets(store), f) + f(e.packet)
  {
    assert StorePackets(store + [e]) == StorePackets(store) + [e.packet];
    SumOfConcat(StorePackets(store), [e.packet], f);
    SumOfOne(e.packet, f);
  }

  lemma StoreDropped(store: seq<Stored>, f: Packet -> nat)
    requires store != []
    ensures Sum(StorePackets(store[1..]), f) <= Sum(StorePackets(store), f)
  {
    assert StorePackets(store)[1..] == StorePackets(store[1..]);
  }

  lemma KeepConserves(cfg: Config, n: Node, p: Packet, now: real, f: Packet -> nat)
    ensures Sum(StorePackets(Keep(cfg, n, p, now).store), f) <= Sum(StorePackets(n.store), f) + f(p)
  {
    if n.store != [] { StoreDropped(n.store, f); StoreAppended(n.store[1..], Stored(p, now), f); }
    StoreAppended(n.store, Stored(p, now), f);
  }

  lemma {:induction false} ReplayConserves(cfg: Config, store: seq<Stored>, now: real, sent: seq<bool>,
                                           f: Packet -> nat)
    requires |sent| == |store|
    ensures Sum(StorePackets(Held(cfg, store, now, sent)), f) + Sum(Replayed(cfg, store, now, sent), f)
            <= Sum(StorePackets(store), f)
    decreases |store|
  {
    if store != [] {
      var first, rest, held := store[0].packet, store[1..], Held(cfg, store[1..], now, sent[1..]);
      ReplayConserves(cfg, rest, now, sent[1..], f);
      assert StorePackets(store)[1..] == StorePackets(rest);
      assert StorePackets([store[0]] + held) == [first] + StorePackets(held);
      assert [] + held == held;
      SumOfConcat([first], StorePackets(held), f);
      SumOfConcat([first], Replayed(cfg, rest, now, sent[1..]), f);
      SumOfOne(first, f);
      assert [] + Replayed(cfg, rest, now, sent[1..]) == Replayed(cfg, rest, now, sent[1..]);
    }
  }

  lemma {:induction false} PurgeConserves(cfg: Config, store: seq<Stored>, now: real, f: Packet -> nat)
    ensures Sum(StorePackets(Purged(cfg, store, now)), f) <= Sum(StorePackets(store), f)
    decreases |store|
  {
    if store != [] {
      var kept := Purged(cfg, store[1..], now);
      PurgeConserves(cfg, store[1..], now, f);
      assert StorePackets(store)[1..] == StorePackets(store[1..]);
      assert StorePackets([store[0]] + kept) == [store[0].packet] + StorePackets(kept);
      assert [] + kept == kept;
      SumOfConcat([store[0].packet], StorePackets(kept), f);
      SumOfOne(store[0].packet, f);
    }
  }

  lemma CancelConserves(timers: seq<Timer>, id: nat, f: Packet -> nat)
    ensures Sum(TimerPackets(Cancel(timers, id)), f) <= Sum(TimerPackets(timers), f)
  {
    var i := TimerIndex(timers, id);
    if i < |timers| { TimerRemoved(timers, i, f); }
  }

  lemma ScheduledConserves(n: Node, p: Packet, f: Packet -> nat)
    ensures Sum(TimerPackets(ScheduleRelay(n, p).timers), f)
         == Sum(TimerPackets(n.timers), f) + (if DecrementTtl(p).Some? then f(DecrementTtl(p).value) else 0)
  {
    if DecrementTtl(p).Some? {
      var t := Timer(n.nextId, KeyOf(p), DecrementTtl(p).value);
      assert TimerPackets(n.timers + [t]) == TimerPackets(n.timers) + [t.packet];
      SumOfConcat(TimerPackets(n.timers), [t.packet], f);
      SumOfOne(t.packet, f);
    }
  }

  lemma ArrivalConserves(cfg: Config, n: Node, e: Event, f: Packet -> nat)
    requires e.Arrive?
    ensures Carried(Step(cfg, n, e), f) <= Carried(n, f) + Sum(TakenBy(cfg, n, e), f)
  {
    hide Observe, Cancel, TimerPackets, StorePackets;
    if KeyOf(e.packet) in n.pending { CancelConserves(n.timers, n.pending[KeyOf(e.packet)], f); }
    ScheduledConserves(n, e.packet, f);
    SumOfConcat(n.delivering, [e.packet], Onward(f));
    SumOfOne(e.packet, Onward(f));
    if DecrementTtl(e.packet).Some? { SumOfOne(DecrementTtl(e.packet).value, f); }
  }

  lemma DeliveryConserves(n: Node, i: nat, raised: bool, f: Packet -> nat)
    requires i < |n.delivering|
    ensures Carried(FinishDelivery(n, i, raised), f) <= Carried(n, f)
  {
    hide TimerPackets, StorePackets, Sum;
    SumOfRemoval(n.delivering, i, Onward(f));
    ScheduledConserves(n, n.delivering[i], f);
  }

  /** Whatever a node does, what it sent plus what it may still send is at most what it could
      send before plus what it took on. */
  lemma StepConserves(cfg: Config, n: Node, e: Event, f: Packet -> nat)
    requires Possible(n, e)
    ensures Sum(SentBy(cfg, n, e), f) + Carried(Step(cfg, n, e), f) <= Carried(n, f) + Sum(TakenBy(cfg, n, e), f)
  {
    hide Observe, Handle, FinishDelivery;
    match e
    case Arrive(_, _, _) => ArrivalConserves(cfg, n, e, f);
    case Delivered(i, raised) => DeliveryConserves(n, i, raised, f);
    case Elapse(i) =>
      TimerRemoved(n.timers, i, f);
      SumOfConcat(n.tasks, [n.timers[i].packet], f);
      SumOfOne(n.timers[i].packet, f);
    case Complete(i, sent, now) =>
      SumOfRemoval(n.tasks, i, f);
      SumOfOne(n.tasks[i], f);
      var n1 := n.(tasks := RemoveAt(n.tasks, i), stats := n.stats.(failed := n.stats.failed + 1));
      KeepConserves(cfg, n1, n.tasks[i], now, f);
    case Resend(now, outcomes) => ReplayConserves(cfg, n.store, now, outcomes, f);
    case Purge(now) => PurgeConserves(cfg, n.store, now, f);
    case Originate(_, _) =>
  }

  // -- one node, any environment --------------------------------------------------------------

  function AllSent(cfg: Config, nodes: seq<Node>, events: seq<Event>, k: nat): seq<Packet>
    requires k <= |events| < |nodes| && forall j :: 0 <= j < k ==> Possible(nodes[j], events[j])
  {
    if k == 0 then [] else AllSent(cfg, nodes, events, k - 1) + SentBy(cfg, nodes[k - 1], events[k - 1])
  }

  function AllTaken(cfg: Config, nodes: seq<Node>, events: seq<Event>, k: nat): seq<Packet>
    requires k <= |events| < |nodes|
  {
    if k == 0 then [] else AllTaken(cfg, nodes, events, k - 1) + TakenBy(cfg, nodes[k - 1], events[k - 1])
  }

  lemma {:induction false} RunConserves(cfg: Config, nodes: seq<Node>, events: seq<Event>, k: nat, f: Packet -> nat)
    requires IsRun(cfg, nodes, events) && k <= |events|
    ensures Sum(AllSent(cfg, nodes, events, k), f) + Carried(nodes[k], f) <= Sum(AllTaken(cfg, nodes, events, k), f)
  {
    hide Step, SentBy, TakenBy;
    if k > 0 {
      RunConserves(cfg, nodes, events, k - 1, f);
      StepConserves(cfg, nodes[k - 1], events[k - 1], f);
      SumOfConcat(AllSent(cfg, nodes, events, k - 1), SentBy(cfg, nodes[k - 1], events[k - 1]), f);
      SumOfConcat(AllTaken(cfg, nodes, events, k - 1), TakenBy(cfg, nodes[k - 1], events[k - 1]), f);
    }
  }

  predicate Touches(e: Event, key: Key) {
    (e.Arrive? || e.Originate?) && KeyOf(e.packet) == key
  }

  /** The cache still knows this key whenever it comes back. */
  ghost predicate NeverForgotten(cfg: Config, nodes: seq<Node>, events: seq<Event>, key: Key)
    requires |nodes| == |events| + 1
  {
    forall i, j :: 0 <= i < j < |events| && Touches(events[i], key) && Touches(events[j], key) && events[j].Arrive?
      ==> Observe(cfg.limits, nodes[j].marks, key, events[j].now).0
  }

  function Counting(key: Key): Packet -> nat {
    (p: Packet) => if KeyOf(p) == key then 1 else 0
  }

  function Count(packets: seq<Packet>, key: Key): nat {
    Sum(packets, Counting(key))
  }

  lemma TakenOnce(cfg: Config, n: Node, e: Event, key: Key)
    ensures Count(TakenBy(cfg, n, e), key)
         <= if e.Arrive? && Touches(e, key) && !Observe(cfg.limits, n.marks, key, e.now).0 then 1 else 0
  {
    if TakenBy(cfg, n, e) != [] { SumOfOne(DecrementTtl(e.packet).value, Counting(key)); }
  }

  lemma {:induction false} FewTaken(cfg: Config, nodes: seq<Node>, events: seq<Event>, key: Key, k: nat)
    requires IsRun(cfg, nodes, events) && k <= |events| && NeverForgotten(cfg, nodes, events, key)
    ensures Count(AllTaken(cfg, nodes, events, k), key) <= 1
    ensures (forall i :: 0 <= i < k ==> !Touches(events[i], key)) ==> Count(AllTaken(cfg, nodes, events, k), key) == 0
  {
    if k > 0 {
      hide TakenBy, Step, Observe;
      FewTaken(cfg, nodes, events, key, k - 1);
      TakenOnce(cfg, nodes[k - 1], events[k - 1], key);
      SumOfConcat(AllTaken(cfg, nodes, events, k - 1), TakenBy(cfg, nodes[k - 1], events[k - 1]), Counting(key));
    }
  }

  lemma {:induction false} NoneTakenAfterOwn(cfg: Config, nodes: seq<Node>, events: seq<Event>, key: Key, o: nat,
                                             k: nat)
    requires IsRun(cfg, nodes, events) && o < |events| && k <= |events| && NeverForgotten(cfg, nodes, events, key)
    requires events[o].Originate? && Touches(events[o], key)
    requires forall i :: 0 <= i < o ==> !Touches(events[i], key)
    ensures Count(AllTaken(cfg, nodes, events, k), key) == 0
  {
    hide TakenBy, Step, Observe, Sum, Possible;
    if k <= o {
      FewTaken(cfg, nodes, events, key, k);
    } else {
      NoneTakenAfterOwn(cfg, nodes, events, key, o, k - 1);
      TakenOnce(cfg, nodes[k - 1], events[k - 1], key);
      SumOfConcat(AllTaken(cfg, nodes, events, k - 1), TakenBy(cfg, nodes[k - 1], events[k - 1]), Counting(key));
    }
  }

  /** While its cache never drops the key, a node relays a frame at most once, store replays
      included, in any environment. */
  lemma RelayedAtMostOnce(cfg: Config, nodes: seq<Node>, events: seq<Event>, key: Key)
    requires IsRun(cfg, nodes, events) && NeverForgotten(cfg, nodes, events, key)
    ensures Count(AllSent(cfg, nodes, events, |events|), key) <= 1
  {
    FewTaken(cfg, nodes, events, key, |events|);
    RunConserves(cfg, nodes, events, |events|, Counting(key));
  }

  /** And the node that originated the frame never relays it. */
  lemma OriginNeverRelays(cfg: Config, nodes: seq<Node>, events: seq<Event>, key: Key, o: nat)
    requires IsRun(cfg, nodes, events) && o < |events| && NeverForgotten(cfg, nodes, events, key)
    requires events[o].Originate? && Touches(events[o], key)
    requires forall i :: 0 <= i < o ==> !Touches(events[i], key)
    ensures Count(AllSent(cfg, nodes, events, |events|), key) == 0
  {
    NoneTakenAfterOwn(cfg, nodes, events, key, o, |events|);
    RunConserves(cfg, nodes, events, |events|, Counting(key));
  }

  // -- a mesh of nodes over a lossy, duplicating broadcast medium -----------------------------

  /** A copy of a frame on its way to one node. */
  datatype Copy = Copy(to: nat, packet: Packet)

  datatype Mesh = Mesh(nodes: seq<Node>, air: seq<Copy>, transmissions: nat)

  /** Who hears each transmission, and how often, is arbitrary: that is the topology, the
      duplication and half of the loss. */
  datatype Move =
    | Act(node: nat, event: Event, heard: seq<seq<nat>>)
    | Launch(node: nat, packet: Packet, now: real, hearers: seq<nat>)
    | Deliver(copy: nat, now: real, forUs: bool)
    | Lose(copy: nat)

  predicate MayHear(m: Mesh, fanout: nat, heard: seq<nat>) {
    |heard| <= fanout && forall i :: 0 <= i < |heard| ==> heard[i] < |m.nodes|
  }

  predicate Allowed(cfg: Config, fanout: nat, m: Mesh, move: Move) {
    match move
    case Act(node, event, heard) =>
      && node < |m.nodes| && !event.Arrive? && !event.Originate? && Possible(m.nodes[node], event)
      && |heard| == |SentBy(cfg, m.nodes[node], event)|
      && forall i :: 0 <= i < |heard| ==> MayHear(m, fanout, heard[i])
    case Launch(node, packet, now, heard) => node < |m.nodes| && MayHear(m, fanout, heard)
    case Deliver(copy, _, _) => copy < |m.air| && m.air[copy].to < |m.nodes|
    case Lose(copy) => copy < |m.air|
  }

  function CopiesOf(p: Packet, heard: seq<nat>): seq<Copy> {
    seq(|heard|, i requires 0 <= i < |heard| => Copy(heard[i], p))
  }

  function Broadcast(packets: seq<Packet>, heard: seq<seq<nat>>): seq<Copy>
    requires |packets| == |heard|
  {
    if packets == [] then [] else CopiesOf(packets[0], heard[0]) + Broadcast(packets[1..], heard[1..])
  }

  function Apply(cfg: Config, fanout: nat, m: Mesh, move: Move): Mesh
    requires Allowed(cfg, fanout, m, move)
  {
    match move
    case Act(node, event, heard) =>
      var sent := SentBy(cfg, m.nodes[node], event);
      Mesh(m.nodes[node := Step(cfg, m.nodes[node], event)], m.air + Broadcast(sent, heard), m.transmissions + |sent|)
    case Launch(node, packet, now, heard) =>
      Mesh(m.nodes[node := MarkOwn(cfg, m.nodes[node], packet, now)], m.air + CopiesOf(packet, heard),
           m.transmissions + 1)
    case Deliver(copy, now, forUs) =>
      var c := m.air[copy];
      m.(nodes := m.nodes[c.to := Handle(cfg, m.nodes[c.to], c.packet, now, forUs)], air := RemoveAt(m.air, copy))
    case Lose(copy) => m.(air := RemoveAt(m.air, copy))
  }

  /** The most transmissions that can follow from one transmission at this TTL, itself included. */
  function Weight(fanout: nat, ttl: nat): nat {
    if ttl <= 1 then 1 else 1 + fanout * Weight(fanout, ttl - 1)
  }

  function Sending(fanout: nat): Packet -> nat {
    (p: Packet) => Weight(fanout, p.ttl)
  }

  /** What a copy in the air can still cause. */
  function Landing(fanout: nat): Packet -> nat {
    (p: Packet) => if p.ttl <= 1 then 0 else Weight(fanout, p.ttl - 1)
  }

  function AirPackets(air: seq<Copy>): seq<Packet> {
    seq(|air|, i requires 0 <= i < |air| => air[i].packet)
  }

  function NodeTokens(nodes: seq<Node>, f: Packet -> nat): nat {
    if nodes == [] then 0 else Carried(nodes[0], f) + NodeTokens(nodes[1..], f)
  }

  function Potential(fanout: nat, m: Mesh): nat {
    Sum(AirPackets(m.air), Landing(fanout)) + NodeTokens(m.nodes, Sending(fanout))
  }

  lemma {:induction false} NodeUpdated(nodes: seq<Node>, i: nat, n: Node, f: Packet -> nat)
    requires i < |nodes|
    ensures NodeTokens(nodes[i := n], f) + Carried(nodes[i], f) == NodeTokens(nodes, f) + Carried(n, f)
  {
    hide Carried;
    if i == 0 {
      assert nodes[i := n][1..] == nodes[1..];
    } else {
      assert nodes[i := n][1..] == nodes[1..][i - 1 := n];
      NodeUpdated(nodes[1..], i - 1, n, f);
    }
  }

  lemma {:induction false} CopiesWeigh(p: Packet, heard: seq<nat>, f: Packet -> nat)
    ensures Sum(AirPackets(CopiesOf(p, heard)), f) == |heard| * f(p)
    decreases heard
  {
    if heard != [] {
      CopiesWeigh(p, heard[1..], f);
      assert AirPackets(CopiesOf(p, heard))[1..] == AirPackets(CopiesOf(p, heard[1..]));
      assert |heard| * f(p) == f(p) + (|heard| - 1) * f(p);
    }
  }

  lemma AirAppended(air: seq<Copy>, more: seq<Copy>, f: Packet -> nat)
    ensures Sum(AirPackets(air + more), f) == Sum(AirPackets(air), f) + Sum(AirPackets(more), f)
  {
    assert AirPackets(air + more) == AirPackets(air) + AirPackets(more);
    SumOfConcat(AirPackets(air), AirPackets(more), f);
  }

  lemma AirRemoved(air: seq<Copy>, i: nat, f: Packet -> nat)
    requires i < |air|
    ensures Sum(AirPackets(air), f) == Sum(AirPackets(RemoveAt(air, i)), f) + f(air[i].packet)
  {
    assert AirPackets(RemoveAt(air, i)) == RemoveAt(AirPackets(air), i);
    SumOfRemoval(AirPackets(air), i, f);
  }

  /** One transmission pays for itself and for everything its copies can cause. */
  lemma TransmissionPays(fanout: nat, p: Packet, heard: seq<nat>)
    requires |heard| <= fanout
    ensures Sum(AirPackets(CopiesOf(p, heard)), Landing(fanout)) + 1 <= Weight(fanout, p.ttl)
  {
    CopiesWeigh(p, heard, Landing(fanout));
    var w := Landing(fanout)(p);
    assert |heard| * w <= fanout * w;
  }

  lemma {:induction false} BroadcastPays(fanout: nat, packets: seq<Packet>, heard: seq<seq<nat>>)
    requires |packets| == |heard| && forall i :: 0 <= i < |heard| ==> |heard[i]| <= fanout
    ensures Sum(AirPackets(Broadcast(packets, heard)), Landing(fanout)) + |packets| <= Sum(packets, Sending(fanout))
    decreases packets
  {
    if packets != [] {
      BroadcastPays(fanout, packets[1..], heard[1..]);
      TransmissionPays(fanout, packets[0], heard[0]);
      AirAppended(CopiesOf(packets[0], heard[0]), Broadcast(packets[1..], heard[1..]), Landing(fanout));
    }
  }

  /** The budget a move brings in: only originating a frame adds any. */
  function Granted(fanout: nat, move: Move): nat {
    if move.Launch? then Weight(fanout, move.packet.ttl) else 0
  }

  lemma DeliveryPays(cfg: Config, fanout: nat, n: Node, p: Packet, now: real, forUs: bool)
    ensures Carried(Handle(cfg, n, p, now, forUs), Sending(fanout))
         <= Carried(n, Sending(fanout)) + Landing(fanout)(p)
  {
    hide Observe, Handle, Carried;
    var e := Arrive(p, now, forUs);
    StepConserves(cfg, n, e, Sending(fanout));
    assert Sum(TakenBy(cfg, n, e), Sending(fanout)) <= Landing(fanout)(p) by {
      if DecrementTtl(p).Some? { SumOfOne(DecrementTtl(p).value, Sending(fanout)); }
    }
  }

  /** No move raises transmissions plus potential by more than it brings in. */
  lemma MovePays(cfg: Config, fanout: nat, m: Mesh, move: Move)
    requires Allowed(cfg, fanout, m, move)
    ensures var m' := Apply(cfg, fanout, m, move);
      m'.transmissions + Potential(fanout, m') <= m.transmissions + Potential(fanout, m) + Granted(fanout, move)
  {
    hide Handle, Step, SentBy, Weight, Sum, Carried, AirPackets;
    match move
    case Act(node, event, heard) =>
      StepConserves(cfg, m.nodes[node], event, Sending(fanout));
      NothingTaken(cfg, m.nodes[node], event, fanout);
      NodeUpdated(m.nodes, node, Step(cfg, m.nodes[node], event), Sending(fanout));
      BroadcastPays(fanout, SentBy(cfg, m.nodes[node], event), heard);
      AirAppended(m.air, Broadcast(SentBy(cfg, m.nodes[node], event), heard), Landing(fanout));
    case Launch(node, packet, now, heard) =>
      OwnMarkTakesNothing(cfg, m.nodes[node], packet, now, fanout);
      NodeUpdated(m.nodes, node, MarkOwn(cfg, m.nodes[node], packet, now), Sending(fanout));
      TransmissionPays(fanout, packet, heard);
      AirAppended(m.air, CopiesOf(packet, heard), Landing(fanout));
    case Deliver(copy, now, forUs) =>
      var c := m.air[copy];
      DeliveryPays(cfg, fanout, m.nodes[c.to], c.packet, now, forUs);
      NodeUpdated(m.nodes, c.to, Handle(cfg, m.nodes[c.to], c.packet, now, forUs), Sending(fanout));
      AirRemoved(m.air, copy, Landing(fanout));
    case Lose(copy) => AirRemoved(m.air, copy, Landing(fanout));
  }

  lemma NothingTaken(cfg: Config, n: Node, e: Event, fanout: nat)
    requires !e.Arrive?
    ensures Sum(TakenBy(cfg, n, e), Sending(fanout)) == 0
  {}

  lemma OwnMarkTakesNothing(cfg: Config, n: Node, p: Packet, now: real, fanout: nat)
    ensures Carried(MarkOwn(cfg, n, p, now), Sending(fanout)) == Carried(n, Sending(fanout))
  {}

  /** `meshes` is a run of the whole mesh, starting with every node idle and nothing in the air. */
  ghost predicate IsMeshRun(cfg: Config, fanout: nat, meshes: seq<Mesh>, moves: seq<Move>) {
    && |meshes| == |moves| + 1
    && meshes[0].air == [] && meshes[0].transmissions == 0
    && (forall i :: 0 <= i < |meshes[0].nodes| ==> meshes[0].nodes[i] == IDLE)
    && forall k :: 0 <= k < |moves| ==>
         Allowed(cfg, fanout, meshes[k], moves[k]) && meshes[k + 1] == Apply(cfg, fanout, meshes[k], moves[k])
  }

  /** The whole budget of the frames originated among the first `k` moves. */
  function Budget(fanout: nat, moves: seq<Move>, k: nat): nat
    requires k <= |moves|
  {
    if k == 0 then 0 else Budget(fanout, moves, k - 1) + Granted(fanout, moves[k - 1])
  }

  lemma {:induction false} IdleNodesHoldNothing(nodes: seq<Node>, f: Packet -> nat)
    requires forall i :: 0 <= i < |nodes| ==> nodes[i] == IDLE
    ensures NodeTokens(nodes, f) == 0
  {
    if nodes != [] {
      IdleNodesHoldNothing(nodes[1..], f);
    }
  }

  /** Every flood ends: whatever the topology, the losses and the duplication, and even if every
      cache forgets everything, the mesh transmits no more than the TTLs of the originated frames pay for. */
  lemma {:induction false} FloodTerminates(cfg: Config, fanout: nat, meshes: seq<Mesh>, moves: seq<Move>, k: nat)
    requires IsMeshRun(cfg, fanout, meshes, moves) && k <= |moves|
    ensures meshes[k].transmissions + Potential(fanout, meshes[k]) <= Budget(fanout, moves, k)
  {
    if k == 0 {
      IdleNodesHoldNothing(meshes[0].nodes, Sending(fanout));
    } else {
      hide Apply, Potential, Allowed;
      FloodTerminates(cfg, fanout, meshes, moves, k - 1);
      MovePays(cfg, fanout, meshes[k - 1], moves[k - 1]);
    }
  }
}
