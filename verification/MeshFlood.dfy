/** What one node sees of a run of the whole mesh is a run of that node, so what a single node keeps
    bounds how often the whole mesh relays a frame.
*/
module MeshFlood {
  import opened SymbolicCrypto
  import opened Dedup
  import opened Router
  import opened Flood
  import opened Remembering

  /** What a move is to node `i`, if it concerns it at all. */
  function EventFor(m: Mesh, move: Move, i: nat): Option<Event> {
    match move
    case Act(node, event, _) => if node == i then Some(event) else None
    case Launch(node, packet, now, _) => if node == i then Some(Originate(packet, now)) else None
    case Deliver(copy, now, forUs) =>
      if copy < |m.air| && m.air[copy].to == i then Some(Arrive(m.air[copy].packet, now, forUs)) else None
    case Lose(_) => None
  }

  function EventsOf(meshes: seq<Mesh>, moves: seq<Move>, i: nat, k: nat): seq<Event>
    requires k <= |moves| < |meshes|
  {
    if k == 0 then []
    else
      var e := EventFor(meshes[k - 1], moves[k - 1], i);
      EventsOf(meshes, moves, i, k - 1) + (if e.Some? then [e.value] else [])
  }

  /** The states of node `i`: one before each of its events and one after the last. */
  function StatesOf(meshes: seq<Mesh>, moves: seq<Move>, i: nat, k: nat): seq<Node>
    requires k <= |moves| < |meshes| && forall j :: 0 <= j <= k ==> i < |meshes[j].nodes|
  {
    if k == 0 then [meshes[0].nodes[i]]
    else
      var concerned := EventFor(meshes[k - 1], moves[k - 1], i).Some?;
      StatesOf(meshes, moves, i, k - 1) + (if concerned then [meshes[k].nodes[i]] else [])
  }

  lemma {:induction false} NodesStay(cfg: Config, fanout: nat, meshes: seq<Mesh>, moves: seq<Move>, k: nat)
    requires IsMeshRun(cfg, fanout, meshes, moves) && k <= |moves|
    ensures |meshes[k].nodes| == |meshes[0].nodes|
  {
    hide Handle, Step, SentBy, MarkOwn, Broadcast;
    if k > 0 { NodesStay(cfg, fanout, meshes, moves, k - 1); }
  }

  lemma NodeStep(cfg: Config, fanout: nat, m: Mesh, move: Move, i: nat)
    requires Allowed(cfg, fanout, m, move) && i < |m.nodes|
    ensures |Apply(cfg, fanout, m, move).nodes| == |m.nodes|
    ensures match EventFor(m, move, i)
      case None => Apply(cfg, fanout, m, move).nodes[i] == m.nodes[i]
      case Some(e) => Possible(m.nodes[i], e) && Apply(cfg, fanout, m, move).nodes[i] == Step(cfg, m.nodes[i], e)
  {
    hide Handle, SentBy, MarkOwn, Broadcast, Fire, Finish, Replay, Purged, MayHear;
  }

  /** One node's share of a mesh run is a run of that node. */
  lemma {:induction false} NodeRun(cfg: Config, fanout: nat, meshes: seq<Mesh>, moves: seq<Move>, i: nat, k: nat)
    requires IsMeshRun(cfg, fanout, meshes, moves) && k <= |moves|
    requires forall j :: 0 <= j <= k ==> i < |meshes[j].nodes|
    ensures IsRun(cfg, StatesOf(meshes, moves, i, k), EventsOf(meshes, moves, i, k))
    ensures StatesOf(meshes, moves, i, k)[|EventsOf(meshes, moves, i, k)|] == meshes[k].nodes[i]
  {
    hide Step, Apply, Possible, Allowed, EventFor;
    if k > 0 {
      NodeRun(cfg, fanout, meshes, moves, i, k - 1);
      NodeStep(cfg, fanout, meshes[k - 1], moves[k - 1], i);
    }
  }

  // -- how often the mesh relays one frame -------------------------------------------------------

  /** Relays of `key` that node `i` put on air in one move, store replays included. */
  function RelayedIn(cfg: Config, m: Mesh, move: Move, i: nat, key: Key): nat {
    if move.Act? && move.node == i && i < |m.nodes| && Possible(m.nodes[i], move.event)
    then Count(SentBy(cfg, m.nodes[i], move.event), key) else 0
  }

  /** The same over the first `k` moves. */
  function Relayed(cfg: Config, meshes: seq<Mesh>, moves: seq<Move>, i: nat, key: Key, k: nat): nat
    requires k <= |moves| < |meshes|
  {
    if k == 0 then 0
    else Relayed(cfg, meshes, moves, i, key, k - 1) + RelayedIn(cfg, meshes[k - 1], moves[k - 1], i, key)
  }

  /** By the first `n` nodes together. */
  function RelayedByAll(cfg: Config, meshes: seq<Mesh>, moves: seq<Move>, n: nat, key: Key, k: nat): nat
    requires k <= |moves| < |meshes|
  {
    if n == 0 then 0
    else RelayedByAll(cfg, meshes, moves, n - 1, key, k) + Relayed(cfg, meshes, moves, n - 1, key, k)
  }

  lemma {:induction false} AllSentPrefix(cfg: Config, nodes: seq<Node>, events: seq<Event>, nodes': seq<Node>,
                                         events': seq<Event>, k: nat)
    requires k <= |events| < |nodes| && events <= events' && nodes <= nodes' && |events'| < |nodes'|
    requires forall j :: 0 <= j < k ==> Possible(nodes[j], events[j])
    ensures AllSent(cfg, nodes', events', k) == AllSent(cfg, nodes, events, k)
  {
    hide SentBy, Possible;
    if k > 0 { AllSentPrefix(cfg, nodes, events, nodes', events', k - 1); }
  }

  /** The relays counted on air are the relays of the node's own run. */
  lemma {:induction false} RelayedIsAllSent(cfg: Config, fanout: nat, meshes: seq<Mesh>, moves: seq<Move>, i: nat,
                                            key: Key, k: nat)
    requires IsMeshRun(cfg, fanout, meshes, moves) && k <= |moves|
    requires forall j :: 0 <= j <= k ==> i < |meshes[j].nodes|
    ensures IsRun(cfg, StatesOf(meshes, moves, i, k), EventsOf(meshes, moves, i, k))
    ensures var (states, events) := (StatesOf(meshes, moves, i, k), EventsOf(meshes, moves, i, k));
      Relayed(cfg, meshes, moves, i, key, k) == Count(AllSent(cfg, states, events, |events|), key)
  {
    hide Step, Apply, Possible, Allowed, EventFor, SentBy, RelayedIn, Sum;
    NodeRun(cfg, fanout, meshes, moves, i, k);
    if k == 0 {
      NothingSums(key);
    } else {
      RelayedIsAllSent(cfg, fanout, meshes, moves, i, key, k - 1);
      NodeRun(cfg, fanout, meshes, moves, i, k - 1);
      var states, events := StatesOf(meshes, moves, i, k - 1), EventsOf(meshes, moves, i, k - 1);
      var states', events' := StatesOf(meshes, moves, i, k), EventsOf(meshes, moves, i, k);
      MoveRelays(cfg, fanout, meshes[k - 1], moves[k - 1], i, key);
      AllSentPrefix(cfg, states, events, states', events', |events|);
      var e := EventFor(meshes[k - 1], moves[k - 1], i);
      if e.Some? {
        assert states'[|events|] == meshes[k - 1].nodes[i] && events'[|events|] == e.value;
        SumOfConcat(AllSent(cfg, states, events, |events|), SentBy(cfg, meshes[k - 1].nodes[i], e.value),
                    Counting(key));
      }
    }
  }

  lemma NothingSums(key: Key)
    ensures Count([], key) == 0
  {}

  lemma MoveRelays(cfg: Config, fanout: nat, m: Mesh, move: Move, i: nat, key: Key)
    requires Allowed(cfg, fanout, m, move) && i < |m.nodes|
    ensures match EventFor(m, move, i)
      case None => RelayedIn(cfg, m, move, i, key) == 0
      case Some(e) =>
        Possible(m.nodes[i], e) && RelayedIn(cfg, m, move, i, key) == Count(SentBy(cfg, m.nodes[i], e), key)
  {
    NothingSums(key);
    hide Handle, MarkOwn, Broadcast, Fire, Finish, Replay, Purged, MayHear, Sum;
  }

  lemma AllNodesStay(cfg: Config, fanout: nat, meshes: seq<Mesh>, moves: seq<Move>)
    requires IsMeshRun(cfg, fanout, meshes, moves)
    ensures forall j :: 0 <= j <= |moves| ==> |meshes[j].nodes| == |meshes[0].nodes|
  {
    forall j | 0 <= j <= |moves| ensures |meshes[j].nodes| == |meshes[0].nodes| {
      NodesStay(cfg, fanout, meshes, moves, j);
    }
  }

  /** Node `i` never drops the key from its cache while copies of the frame still reach it. */
  ghost predicate Remembers(cfg: Config, fanout: nat, meshes: seq<Mesh>, moves: seq<Move>, i: nat, key: Key)
    requires IsMeshRun(cfg, fanout, meshes, moves) && i < |meshes[0].nodes|
  {
    AllNodesStay(cfg, fanout, meshes, moves);
    NodeRun(cfg, fanout, meshes, moves, i, |moves|);
    NeverForgotten(cfg, StatesOf(meshes, moves, i, |moves|), EventsOf(meshes, moves, i, |moves|), key)
  }

  /** Node `i` originated the frame before any copy of it could come back. */
  predicate Originates(meshes: seq<Mesh>, moves: seq<Move>, i: nat, key: Key)
    requires |moves| < |meshes|
  {
    var events := EventsOf(meshes, moves, i, |moves|);
    exists o :: 0 <= o < |events| && events[o].Originate? && Touches(events[o], key)
                && forall j :: 0 <= j < o ==> !Touches(events[j], key)
  }

  lemma NodeRelaysAtMostOnce(cfg: Config, fanout: nat, meshes: seq<Mesh>, moves: seq<Move>, i: nat, key: Key)
    requires IsMeshRun(cfg, fanout, meshes, moves) && i < |meshes[0].nodes|
    requires Remembers(cfg, fanout, meshes, moves, i, key)
    ensures Relayed(cfg, meshes, moves, i, key, |moves|) <= (if Originates(meshes, moves, i, key) then 0 else 1)
  {
    hide Relayed, AllSent, EventsOf, StatesOf, NeverForgotten;
    AllNodesStay(cfg, fanout, meshes, moves);
    RelayedIsAllSent(cfg, fanout, meshes, moves, i, key, |moves|);
    var states, events := StatesOf(meshes, moves, i, |moves|), EventsOf(meshes, moves, i, |moves|);
    RelayedAtMostOnce(cfg, states, events, key);
    if o :| 0 <= o < |events| && events[o].Originate? && Touches(events[o], key)
            && forall j :: 0 <= j < o ==> !Touches(events[j], key) {
      OriginNeverRelays(cfg, states, events, key, o);
    }
  }

  /** How many of the first `n` nodes originated the frame. */
  function Origins(meshes: seq<Mesh>, moves: seq<Move>, n: nat, key: Key): nat
    requires |moves| < |meshes|
  {
    if n == 0 then 0 else Origins(meshes, moves, n - 1, key) + (if Originates(meshes, moves, n - 1, key) then 1 else 0)
  }

  /** Amplification: in a mesh of `n` nodes whose caches keep the key, one frame is relayed at most
      once by every node and never by a node that originated it. */
  lemma {:induction false} FloodAmplification(cfg: Config, fanout: nat, meshes: seq<Mesh>, moves: seq<Move>, n: nat,
                                              key: Key)
    requires IsMeshRun(cfg, fanout, meshes, moves) && n <= |meshes[0].nodes|
    requires forall i :: 0 <= i < n ==> Remembers(cfg, fanout, meshes, moves, i, key)
    ensures RelayedByAll(cfg, meshes, moves, n, key, |moves|) + Origins(meshes, moves, n, key) <= n
    decreases n
  {
    hide Remembers, Relayed, Originates, Apply, Allowed;
    if n > 0 {
      FloodAmplification(cfg, fanout, meshes, moves, n - 1, key);
      NodeRelaysAtMostOnce(cfg, fanout, meshes, moves, n - 1, key);
    }
  }

  /** At node `i` the clock never goes back, and the key comes back within the cache's `ttl` and before
      `capacity` other keys were accepted, if it comes up at all. */
  ghost predicate InTimeAt(cfg: Config, meshes: seq<Mesh>, moves: seq<Move>, i: nat, key: Key)
    requires |moves| < |meshes|
  {
    var events := EventsOf(meshes, moves, i, |moves|);
    ClockForward(events) && InTime(cfg, events, key)
  }

  lemma InTimeRemembers(cfg: Config, fanout: nat, meshes: seq<Mesh>, moves: seq<Move>, i: nat, key: Key)
    requires IsMeshRun(cfg, fanout, meshes, moves) && i < |meshes[0].nodes|
    requires cfg.limits.ttl >= 0.0 && InTimeAt(cfg, meshes, moves, i, key)
    ensures Remembers(cfg, fanout, meshes, moves, i, key)
  {
    hide EventsOf, StatesOf, Apply, Allowed, IsRun, NeverForgotten, InTime, ClockForward;
    AllNodesStay(cfg, fanout, meshes, moves);
    NodeRun(cfg, fanout, meshes, moves, i, |moves|);
    InTimeIsNeverForgotten(cfg, StatesOf(meshes, moves, i, |moves|), EventsOf(meshes, moves, i, |moves|), key);
  }

  /** The same bound from clocks and counts of accepted keys alone. */
  lemma InTimeAmplification(cfg: Config, fanout: nat, meshes: seq<Mesh>, moves: seq<Move>, n: nat, key: Key)
    requires IsMeshRun(cfg, fanout, meshes, moves) && n <= |meshes[0].nodes| && cfg.limits.ttl >= 0.0
    requires forall i :: 0 <= i < n ==> InTimeAt(cfg, meshes, moves, i, key)
    ensures RelayedByAll(cfg, meshes, moves, n, key, |moves|) + Origins(meshes, moves, n, key) <= n
  {
    hide Remembers, InTimeAt, RelayedByAll, Origins, Apply, Allowed;
    forall i | 0 <= i < n ensures Remembers(cfg, fanout, meshes, moves, i, key) {
      InTimeRemembers(cfg, fanout, meshes, moves, i, key);
    }
    FloodAmplification(cfg, fanout, meshes, moves, n, key);
  }

  /** The relays of all nodes are all the relays there are: every one is some node's own. */
  lemma {:induction false} RelaysAddUp(cfg: Config, meshes: seq<Mesh>, moves: seq<Move>, n: nat, key: Key, k: nat)
    requires k < |moves| < |meshes|
    ensures RelayedByAll(cfg, meshes, moves, n, key, k + 1)
         == RelayedByAll(cfg, meshes, moves, n, key, k)
            + (if !moves[k].Act? || moves[k].node >= n then 0
               else RelayedIn(cfg, meshes[k], moves[k], moves[k].node, key))
    decreases n
  {
    if n > 0 { RelaysAddUp(cfg, meshes, moves, n - 1, key, k); }
  }
}
