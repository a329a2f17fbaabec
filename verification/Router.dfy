/** One flood-routing node: what it does with each frame, and where every frame ends up. */
module Router {
  import opened SymbolicCrypto
  import opened Packet
  import opened Dedup

  datatype Config = Config(limits: Limits, storeForward: bool, storeCapacity: nat, storeTtl: real)

  /** A scheduled relay in the event loop. */
  datatype Timer = Timer(id: nat, key: Key, packet: Packet)

  datatype Stored = Stored(packet: Packet, at: real)

  /** `undelivered` and `failed` count raised deliveries and raised relay sends, which the code
      does not count itself. */
  datatype Stats = Stats(received: nat, duplicates: nat, relayed: nat, suppressed: nat, expired: nat,
                         deliveredLocal: nat, stored: nat, replayed: nat, undelivered: nat, failed: nat)

  const NO_STATS := Stats(0, 0, 0, 0, 0, 0, 0, 0, 0, 0)

  /** `pending` is the router's own index of relays. The event loop holds the rest: frames whose local
      delivery is being awaited, timers, and relay tasks. */
  datatype Node = Node(marks: seq<Mark>, stats: Stats, store: seq<Stored>, pending: map<Key, nat>,
                       delivering: seq<Packet>, timers: seq<Timer>, tasks: seq<Packet>, nextId: nat)

  const IDLE := Node([], NO_STATS, [], map[], [], [], [], 0)

  function KeyOf(p: Packet): Key {
    Key(p.msgId, p.fragIndex)
  }

  function RemoveAt<T>(s: seq<T>, i: nat): seq<T>
    requires i < |s|
  {
    s[..i] + s[i + 1..]
  }

  /** Where the timer with this id is, or the end of the list. */
  function TimerIndex(timers: seq<Timer>, id: nat): (i: nat)
    ensures i <= |timers|
    ensures i < |timers| ==> timers[i].id == id
  {
    if timers == [] || timers[0].id == id then 0 else 1 + TimerIndex(timers[1..], id)
  }

  function Cancel(timers: seq<Timer>, id: nat): seq<Timer> {
    var i := TimerIndex(timers, id);
    if i < |timers| then RemoveAt(timers, i) else timers
  }

  function CancelPending(n: Node, key: Key): Node {
    if key !in n.pending then n
    else n.(pending := n.pending - {key}, timers := Cancel(n.timers, n.pending[key]),
            stats := n.stats.(suppressed := n.stats.suppressed + 1))
  }

  function ScheduleRelay(n: Node, p: Packet): Node {
    match DecrementTtl(p)
    case None => n.(stats := n.stats.(expired := n.stats.expired + 1))
    case Some(forwarded) =>
      n.(timers := n.timers + [Timer(n.nextId, KeyOf(p), forwarded)],
         pending := n.pending[KeyOf(p) := n.nextId], nextId := n.nextId + 1)
  }

  /** A frame off the air, as far as the first suspension: a frame for us waits for its delivery. */
  function Handle(cfg: Config, n: Node, p: Packet, now: real, forUs: bool): Node {
    var (known, marks) := Observe(cfg.limits, n.marks, KeyOf(p), now);
    var n1 := n.(marks := marks, stats := n.stats.(received := n.stats.received + 1));
    if known then CancelPending(n1.(stats := n1.stats.(duplicates := n1.stats.duplicates + 1)), KeyOf(p))
    else if forUs then
      n1.(stats := n1.stats.(deliveredLocal := n1.stats.deliveredLocal + 1), delivering := n1.delivering + [p])
    else ScheduleRelay(n1, p)
  }

  /** Delivery `i` is over. One that raised escapes before the relay is scheduled. */
  function FinishDelivery(n: Node, i: nat, raised: bool): Node
    requires i < |n.delivering|
  {
    var n1 := n.(delivering := RemoveAt(n.delivering, i));
    if raised then n1.(stats := n1.stats.(undelivered := n1.stats.undelivered + 1))
    else ScheduleRelay(n1, n.delivering[i])
  }

  /** Timer `i` goes off: its entry is dropped from the index, whichever timer that entry meant. */
  function Fire(n: Node, i: nat): Node
    requires i < |n.timers|
  {
    n.(timers := RemoveAt(n.timers, i), pending := n.pending - {n.timers[i].key},
       tasks := n.tasks + [n.timers[i].packet])
  }

  /** A full store with nothing in it to drop raises, and the frame is lost. */
  function Keep(cfg: Config, n: Node, p: Packet, now: real): Node {
    if !cfg.storeForward then n
    else if |n.store| < cfg.storeCapacity then
      n.(store := n.store + [Stored(p, now)], stats := n.stats.(stored := n.stats.stored + 1))
    else if n.store == [] then n
    else n.(store := n.store[1..] + [Stored(p, now)], stats := n.stats.(stored := n.stats.stored + 1))
  }

  /** Relay task `i` finishes: sent, or raised and kept for later. */
  function Finish(cfg: Config, n: Node, i: nat, sent: bool, now: real): Node
    requires i < |n.tasks|
  {
    var n1 := n.(tasks := RemoveAt(n.tasks, i));
    if sent then n1.(stats := n1.stats.(relayed := n1.stats.relayed + 1))
    else Keep(cfg, n1.(stats := n1.stats.(failed := n1.stats.failed + 1)), n.tasks[i], now)
  }

  /** The first half of originating: our own frame is marked seen before it is sent. */
  function MarkOwn(cfg: Config, n: Node, p: Packet, now: real): Node {
    n.(marks := Observe(cfg.limits, n.marks, KeyOf(p), now).1)
  }

  predicate Fresh(cfg: Config, e: Stored, now: real) {
    now - e.at <= cfg.storeTtl
  }

  /** Stored frames that go out when `sent[i]` says whether entry `i` could be transmitted. */
  function Replayed(cfg: Config, store: seq<Stored>, now: real, sent: seq<bool>): seq<Packet>
    requires |sent| == |store|
  {
    if store == [] then []
    else (if Fresh(cfg, store[0], now) && sent[0] then [store[0].packet] else [])
         + Replayed(cfg, store[1..], now, sent[1..])
  }

  function Held(cfg: Config, store: seq<Stored>, now: real, sent: seq<bool>): seq<Stored>
    requires |sent| == |store|
  {
    if store == [] then []
    else (if Fresh(cfg, store[0], now) && !sent[0] then [store[0]] else []) + Held(cfg, store[1..], now, sent[1..])
  }

  function Replay(cfg: Config, n: Node, now: real, sent: seq<bool>): Node
    requires |sent| == |n.store|
  {
    n.(store := Held(cfg, n.store, now, sent),
       stats := n.stats.(replayed := n.stats.replayed + |Replayed(cfg, n.store, now, sent)|))
  }

  function Purged(cfg: Config, store: seq<Stored>, now: real): seq<Stored> {
    if store == [] then []
    else (if Fresh(cfg, store[0], now) then [store[0]] else []) + Purged(cfg, store[1..], now)
  }

  // -- runs of one node --------------------------------------------------------------------

  datatype Event =
    | Arrive(packet: Packet, now: real, forUs: bool)
    | Delivered(i: nat, raised: bool)
    | Elapse(i: nat)
    | Complete(i: nat, sent: bool, now: real)
    | Originate(packet: Packet, now: real)
    | Resend(now: real, outcomes: seq<bool>)
    | Purge(now: real)

  predicate Possible(n: Node, e: Event) {
    match e
    case Delivered(i, _) => i < |n.delivering|
    case Elapse(i) => i < |n.timers|
    case Complete(i, _, _) => i < |n.tasks|
    case Resend(_, outcomes) => |outcomes| == |n.store|
    case _ => true
  }

  function Step(cfg: Config, n: Node, e: Event): Node
    requires Possible(n, e)
  {
    match e
    case Arrive(p, now, forUs) => Handle(cfg, n, p, now, forUs)
    case Delivered(i, raised) => FinishDelivery(n, i, raised)
    case Elapse(i) => Fire(n, i)
    case Complete(i, sent, now) => Finish(cfg, n, i, sent, now)
    case Originate(p, now) => MarkOwn(cfg, n, p, now)
    case Resend(now, outcomes) => Replay(cfg, n, now, outcomes)
    case Purge(now) => n.(store := Purged(cfg, n.store, now))
  }

  /** `nodes` is a run: one state before each event and one after the last. */
  ghost predicate IsRun(cfg: Config, nodes: seq<Node>, events: seq<Event>) {
    && |nodes| == |events| + 1 && nodes[0] == IDLE
    && forall k :: 0 <= k < |events| ==> Possible(nodes[k], events[k]) && nodes[k + 1] == Step(cfg, nodes[k], events[k])
  }

  // -- accounting ---------------------------------------------------------------------------

  /** Every indexed relay is a live timer of that key, and timer ids are never reused. */
  ghost predicate TimersInv(n: Node) {
    && (forall i :: 0 <= i < |n.timers| ==> n.timers[i].id < n.nextId)
    && (forall i, j :: 0 <= i < j < |n.timers| ==> n.timers[i].id != n.timers[j].id)
    && (forall key :: key in n.pending ==>
          exists i :: 0 <= i < |n.timers| && n.timers[i].id == n.pending[key] && n.timers[i].key == key)
  }

  /** Every frame ever received is accounted for, once. */
  predicate Balanced(n: Node) {
    n.stats.received == n.stats.duplicates + n.stats.expired + n.stats.undelivered + n.stats.suppressed
                        + |n.delivering| + |n.timers| + |n.tasks| + n.stats.relayed + n.stats.failed
  }

  lemma {:induction false} TimerIndexFinds(timers: seq<Timer>, i: nat)
    requires i < |timers| && forall j, k :: 0 <= j < k < |timers| ==> timers[j].id != timers[k].id
    ensures TimerIndex(timers, timers[i].id) == i
  {
    if i > 0 { TimerIndexFinds(timers[1..], i - 1); }
  }

  lemma CancelKeepsInv(n: Node, key: Key)
    requires TimersInv(n)
    ensures TimersInv(CancelPending(n, key))
    ensures key in n.pending ==> |CancelPending(n, key).timers| == |n.timers| - 1
  {
    if key in n.pending {
      var i :| 0 <= i < |n.timers| && n.timers[i].id == n.pending[key] && n.timers[i].key == key;
      TimerIndexFinds(n.timers, i);
      RemovalKeepsInv(n, i);
    }
  }

  lemma RemovedAt<T>(s: seq<T>, i: nat)
    requires i < |s|
    ensures |RemoveAt(s, i)| == |s| - 1
    ensures forall j :: 0 <= j < |s| - 1 ==> RemoveAt(s, i)[j] == s[if j < i then j else j + 1]
  {}

  /** A timer leaves together with the index entry of its key, if that entry is its own. */
  lemma RemovalKeepsInv(n: Node, i: nat)
    requires TimersInv(n) && i < |n.timers|
    ensures TimersInv(n.(timers := RemoveAt(n.timers, i), pending := n.pending - {n.timers[i].key}))
  {
    hide RemoveAt;
    var timers' := RemoveAt(n.timers, i);
    RemovedAt(n.timers, i);
    forall key | key in n.pending && key != n.timers[i].key
      ensures exists j :: 0 <= j < |timers'| && timers'[j].id == n.pending[key] && timers'[j].key == key
    {
      var j :| 0 <= j < |n.timers| && n.timers[j].id == n.pending[key] && n.timers[j].key == key;
      assert timers'[if j < i then j else j - 1] == n.timers[j];
    }
  }

  lemma ScheduleKeepsInv(n: Node, p: Packet)
    requires TimersInv(n)
    ensures TimersInv(ScheduleRelay(n, p))
  {
    var n' := ScheduleRelay(n, p);
    if DecrementTtl(p).Some? {
      assert n'.timers[|n.timers|].id == n'.pending[KeyOf(p)];
      forall key | key in n.pending && key != KeyOf(p)
        ensures exists j :: 0 <= j < |n'.timers| && n'.timers[j].id == n'.pending[key] && n'.timers[j].key == key
      {
        var j :| 0 <= j < |n.timers| && n.timers[j].id == n.pending[key] && n.timers[j].key == key;
        assert n'.timers[j] == n.timers[j];
      }
    }
  }

  lemma SameTimers(n: Node, n': Node)
    requires TimersInv(n) && n'.timers == n.timers && n'.pending == n.pending && n'.nextId == n.nextId
    ensures TimersInv(n')
  {}

  lemma ArrivalKeepsBalance(cfg: Config, n: Node, p: Packet, now: real, forUs: bool)
    requires TimersInv(n) && Balanced(n)
    ensures TimersInv(Handle(cfg, n, p, now, forUs)) && Balanced(Handle(cfg, n, p, now, forUs))
  {
    hide Observe, Cancel, TimersInv;
    var (known, marks) := Observe(cfg.limits, n.marks, KeyOf(p), now);
    var n1 := n.(marks := marks, stats := n.stats.(received := n.stats.received + 1));
    SameTimers(n, n1);
    if known {
      var n2 := n1.(stats := n1.stats.(duplicates := n1.stats.duplicates + 1));
      SameTimers(n, n2);
      CancelKeepsInv(n2, KeyOf(p));
    } else if forUs {
      SameTimers(n, Handle(cfg, n, p, now, forUs));
    } else {
      ScheduleKeepsInv(n1, p);
    }
  }

  lemma DeliveryKeepsBalance(n: Node, i: nat, raised: bool)
    requires TimersInv(n) && Balanced(n) && i < |n.delivering|
    ensures TimersInv(FinishDelivery(n, i, raised)) && Balanced(FinishDelivery(n, i, raised))
  {
    hide TimersInv;
    var n1 := n.(delivering := RemoveAt(n.delivering, i));
    SameTimers(n, n1);
    SameTimers(n, n1.(stats := n1.stats.(undelivered := n1.stats.undelivered + 1)));
    ScheduleKeepsInv(n1, n.delivering[i]);
  }

  lemma StepKeepsBalance(cfg: Config, n: Node, e: Event)
    requires Possible(n, e) && TimersInv(n) && Balanced(n)
    ensures TimersInv(Step(cfg, n, e)) && Balanced(Step(cfg, n, e))
  {
    hide Handle, FinishDelivery, Observe, TimersInv;
    match e
    case Arrive(p, now, forUs) => ArrivalKeepsBalance(cfg, n, p, now, forUs);
    case Delivered(i, raised) => DeliveryKeepsBalance(n, i, raised);
    case Elapse(i) =>
      RemovalKeepsInv(n, i);
      SameTimers(n.(timers := RemoveAt(n.timers, i), pending := n.pending - {n.timers[i].key}), Step(cfg, n, e));
    case _ => SameTimers(n, Step(cfg, n, e));
  }

  /** In every run, with any readmissions, received frames balance against what became of them. */
  lemma {:induction false} EveryFrameIsAccountedFor(cfg: Config, nodes: seq<Node>, events: seq<Event>, k: nat)
    requires IsRun(cfg, nodes, events) && k <= |events|
    ensures TimersInv(nodes[k]) && Balanced(nodes[k])
  {
    if k > 0 {
      EveryFrameIsAccountedFor(cfg, nodes, events, k - 1);
      StepKeepsBalance(cfg, nodes[k - 1], events[k - 1]);
    }
  }

  /** No relay is live without being indexed under its key. */
  ghost predicate Indexed(n: Node) {
    && |n.pending| == |n.timers|
    && forall i :: 0 <= i < |n.timers| ==> n.timers[i].key in n.pending && n.pending[n.timers[i].key] == n.timers[i].id
  }

  /** The frame the event goes on to relay, if its TTL lasts. */
  function ToRelay(cfg: Config, n: Node, e: Event): Option<Packet>
    requires Possible(n, e)
  {
    match e
    case Arrive(p, now, forUs) =>
      if forUs || Observe(cfg.limits, n.marks, KeyOf(p), now).0 then None else Some(p)
    case Delivered(i, raised) => if raised then None else Some(n.delivering[i])
    case _ => None
  }

  /** A frame that schedules a relay has none of its key pending; an expired frame schedules none. */
  predicate Unpending(n: Node, p: Packet) {
    DecrementTtl(p).Some? ==> KeyOf(p) !in n.pending
  }

  /** The event does not readmit a key whose relay is still pending. */
  predicate NoReadmission(cfg: Config, n: Node, e: Event)
    requires Possible(n, e)
  {
    ToRelay(cfg, n, e).Some? ==> Unpending(n, ToRelay(cfg, n, e).value)
  }

  lemma IdsAreDistinct(n: Node)
    requires TimersInv(n)
    ensures forall i, j :: 0 <= i < j < |n.timers| ==> n.timers[i].id != n.timers[j].id
  {}

  lemma RemovalKeepsIndexed(n: Node, i: nat)
    requires TimersInv(n) && Indexed(n) && i < |n.timers|
    ensures Indexed(n.(timers := RemoveAt(n.timers, i), pending := n.pending - {n.timers[i].key}))
  {
    hide TimersInv;
    IdsAreDistinct(n);
    var timers', pending' := RemoveAt(n.timers, i), n.pending - {n.timers[i].key};
    assert pending'.Keys == n.pending.Keys - {n.timers[i].key};
    forall j | 0 <= j < |timers'| ensures timers'[j].key in pending' && pending'[timers'[j].key] == timers'[j].id {
      var k := if j < i then j else j + 1;
      assert timers'[j] == n.timers[k] && n.timers[k].id != n.timers[i].id;
    }
  }

  lemma CancelKeepsIndexed(n: Node, key: Key)
    requires TimersInv(n) && Indexed(n)
    ensures Indexed(CancelPending(n, key))
  {
    hide TimersInv, Indexed;
    if key in n.pending {
      var i := PendingTimer(n, key);
      RemovalKeepsIndexed(n, i);
      SameIndexed(n.(timers := RemoveAt(n.timers, i), pending := n.pending - {n.timers[i].key}), CancelPending(n, key));
    }
  }

  lemma PendingTimer(n: Node, key: Key) returns (i: nat)
    requires TimersInv(n) && key in n.pending
    ensures i < |n.timers| && n.timers[i].key == key && TimerIndex(n.timers, n.pending[key]) == i
  {
    i :| 0 <= i < |n.timers| && n.timers[i].id == n.pending[key] && n.timers[i].key == key;
    TimerIndexFinds(n.timers, i);
  }

  lemma ScheduleIndexes(n: Node, p: Packet)
    requires Indexed(n)
    ensures Indexed(ScheduleRelay(n, p)) <==> Unpending(n, p)
  {
    assert n.pending[KeyOf(p) := n.nextId].Keys == n.pending.Keys + {KeyOf(p)};
    if KeyOf(p) in n.pending {
      assert n.pending[KeyOf(p) := n.nextId].Keys == n.pending.Keys;
    }
  }

  lemma SameIndexed(n: Node, n': Node)
    requires n'.timers == n.timers && n'.pending == n.pending
    ensures Indexed(n) <==> Indexed(n')
  {}

  lemma ArrivalIndexes(cfg: Config, n: Node, e: Event)
    requires TimersInv(n) && Indexed(n) && e.Arrive?
    ensures Indexed(Handle(cfg, n, e.packet, e.now, e.forUs)) <==> NoReadmission(cfg, n, e)
  {
    hide Observe, TimersInv, Indexed, CancelPending, ScheduleRelay;
    var (known, marks) := Observe(cfg.limits, n.marks, KeyOf(e.packet), e.now);
    var n1 := n.(marks := marks, stats := n.stats.(received := n.stats.received + 1));
    SameIndexed(n, n1);
    if known {
      var n2 := n1.(stats := n1.stats.(duplicates := n1.stats.duplicates + 1));
      SameTimers(n, n2);
      SameIndexed(n, n2);
      CancelKeepsIndexed(n2, KeyOf(e.packet));
    } else if e.forUs {
      SameIndexed(n, Handle(cfg, n, e.packet, e.now, e.forUs));
    } else {
      ScheduleIndexes(n1, e.packet);
    }
  }

  lemma DeliveryIndexes(n: Node, i: nat, raised: bool)
    requires Indexed(n) && i < |n.delivering|
    ensures Indexed(FinishDelivery(n, i, raised)) <==> raised || Unpending(n, n.delivering[i])
  {
    hide Indexed, ScheduleRelay;
    var n1 := n.(delivering := RemoveAt(n.delivering, i));
    SameIndexed(n, n1);
    if raised {
      SameIndexed(n, FinishDelivery(n, i, raised));
    } else {
      ScheduleIndexes(n1, n.delivering[i]);
    }
  }

  /** A step leaves the router's index exact precisely when it readmits no key with its relay pending. */
  lemma StepIndexes(cfg: Config, n: Node, e: Event)
    requires TimersInv(n) && Indexed(n) && Possible(n, e)
    ensures Indexed(Step(cfg, n, e)) <==> NoReadmission(cfg, n, e)
  {
    hide Handle, FinishDelivery, Observe, TimersInv, Indexed, Replayed, Held, Purged, Unpending;
    match e
    case Arrive(_, _, _) => ArrivalIndexes(cfg, n, e);
    case Delivered(i, raised) => DeliveryIndexes(n, i, raised);
    case Elapse(i) =>
      RemovalKeepsIndexed(n, i);
      SameIndexed(n.(timers := RemoveAt(n.timers, i), pending := n.pending - {n.timers[i].key}), Step(cfg, n, e));
    case _ => SameIndexed(n, Step(cfg, n, e));
  }

  /** While no key is readmitted with its relay pending, the router's own index counts the live relays;
      the first readmission is the first moment it does not. */
  lemma {:induction false} PendingCountsLiveRelays(cfg: Config, nodes: seq<Node>, events: seq<Event>, k: nat)
    requires IsRun(cfg, nodes, events) && k <= |events|
    requires forall j :: 0 <= j < k ==> Possible(nodes[j], events[j]) && NoReadmission(cfg, nodes[j], events[j])
    ensures Indexed(nodes[k])
    ensures k < |events| ==> (Indexed(nodes[k + 1]) <==> NoReadmission(cfg, nodes[k], events[k]))
  {
    hide Step, Indexed, TimersInv, NoReadmission, Balanced;
    if k > 0 {
      PendingCountsLiveRelays(cfg, nodes, events, k - 1);
    } else {
      IdleIsIndexed();
    }
    if k < |events| {
      EveryFrameIsAccountedFor(cfg, nodes, events, k);
      StepIndexes(cfg, nodes[k], events[k]);
    }
  }

  lemma IdleIsIndexed()
    ensures Indexed(IDLE)
  {}
}
