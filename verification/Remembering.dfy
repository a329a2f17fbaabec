/** When a router's cache keeps a key: the cache of a running node is the window of its log of
    accepted keys, so whether a frame is still known when it comes back can be read off the clock and
    the number of keys accepted since.
*/
module Remembering {
  import opened Dedup
  import opened Router
  import opened Flood

  predicate Asks(e: Event) {
    e.Arrive? || e.Originate?
  }

  /** What the first `k` events ask of the cache. */
  function QueriesOf(events: seq<Event>, k: nat): seq<Query>
    requires k <= |events|
  {
    if k == 0 then []
    else if Asks(events[k - 1]) then QueriesOf(events, k - 1) + [Query(KeyOf(events[k - 1].packet), events[k - 1].now)]
    else QueriesOf(events, k - 1)
  }

  /** The keys accepted in the first `k` events, with their times. */
  function LogAt(cfg: Config, events: seq<Event>, k: nat): seq<Mark>
    requires k <= |events|
  {
    LogOf(cfg.limits, QueriesOf(events, k))
  }

  ghost predicate ClockForward(events: seq<Event>) {
    forall i, j :: 0 <= i <= j < |events| && Asks(events[i]) && Asks(events[j]) ==> events[i].now <= events[j].now
  }

  lemma {:induction false} CacheOfRun(cfg: Config, nodes: seq<Node>, events: seq<Event>, k: nat)
    requires IsRun(cfg, nodes, events) && k <= |events|
    ensures nodes[k].marks == MarksOf(cfg.limits, QueriesOf(events, k))
  {
    hide Observe, MarksOf;
    if k == 0 {
      NoMarks(cfg.limits);
    } else {
      CacheOfRun(cfg, nodes, events, k - 1);
      StepObserves(cfg, nodes[k - 1], events[k - 1]);
      if Asks(events[k - 1]) {
        OneMoreQuery(cfg.limits, QueriesOf(events, k - 1), Query(KeyOf(events[k - 1].packet), events[k - 1].now));
      }
    }
  }

  lemma NoMarks(lim: Limits)
    ensures MarksOf(lim, []) == [] && LogOf(lim, []) == []
  {}

  lemma OneMoreQuery(lim: Limits, queries: seq<Query>, q: Query)
    ensures MarksOf(lim, queries + [q]) == Observe(lim, MarksOf(lim, queries), q.key, q.now).1
    ensures LogOf(lim, queries + [q]) == LogAfter(lim, LogOf(lim, queries), MarksOf(lim, queries), q.key, q.now)
  {
    assert (queries + [q])[..|queries|] == queries;
  }

  lemma StepObserves(cfg: Config, n: Node, e: Event)
    requires Possible(n, e)
    ensures Step(cfg, n, e).marks == if Asks(e) then Observe(cfg.limits, n.marks, KeyOf(e.packet), e.now).1 else n.marks
  {
    hide Observe;
  }

  lemma {:induction false} QueriesInOrder(events: seq<Event>, k: nat, now: real)
    requires ClockForward(events) && k <= |events|
    requires forall i :: 0 <= i < k && Asks(events[i]) ==> events[i].now <= now
    ensures forall i, j :: 0 <= i <= j < |QueriesOf(events, k)| ==>
      QueriesOf(events, k)[i].now <= QueriesOf(events, k)[j].now
    ensures forall i :: 0 <= i < |QueriesOf(events, k)| ==> QueriesOf(events, k)[i].now <= now
  {
    if k > 0 {
      QueriesInOrder(events, k - 1, if Asks(events[k - 1]) then events[k - 1].now else now);
    }
  }

  /** Event `j` of a run finds its key known exactly when the log holds it, recent and not pushed out. */
  lemma KnownExactly(cfg: Config, nodes: seq<Node>, events: seq<Event>, j: nat)
    requires IsRun(cfg, nodes, events) && ClockForward(events) && cfg.limits.ttl >= 0.0
    requires j < |events| && Asks(events[j])
    ensures var log := LogAt(cfg, events, j);
      Observe(cfg.limits, nodes[j].marks, KeyOf(events[j].packet), events[j].now).0
      <==> exists i :: 0 <= i < |log| && log[i].key == KeyOf(events[j].packet)
                       && log[i].at >= events[j].now - cfg.limits.ttl && |log| - i <= cfg.limits.capacity
  {
    hide LogAt, ClockForward, Step, Observe, IsWindow, Sorted, NoneAfter, MarksOf, LogOf, QueriesOf;
    var log, before := CacheBefore(cfg, nodes, events, j);
    SeenIsExact(cfg.limits, log, nodes[j].marks, before, KeyOf(events[j].packet), events[j].now);
  }

  /** Just before event `j` the cache is the window of the log, as of some moment not after it. */
  lemma CacheBefore(cfg: Config, nodes: seq<Node>, events: seq<Event>, j: nat) returns (log: seq<Mark>, before: real)
    requires IsRun(cfg, nodes, events) && ClockForward(events) && cfg.limits.ttl >= 0.0
    requires j < |events| && Asks(events[j])
    ensures log == LogAt(cfg, events, j) && before <= events[j].now
    ensures Sorted(log) && IsWindow(cfg.limits, log, nodes[j].marks, before)
  {
    hide Step, Observe, IsWindow, Sorted, NoneAfter, MarksOf, LogOf, QueriesOf;
    var queries, now := QueriesOf(events, j), events[j].now;
    CacheOfRun(cfg, nodes, events, j);
    QueriesInOrder(events, j, now);
    before := if queries == [] then now else queries[|queries| - 1].now;
    CacheRefinesLog(cfg.limits, queries, before);
    log := LogOf(cfg.limits, queries);
  }

  /** The log after one more event. */
  lemma LogStep(cfg: Config, nodes: seq<Node>, events: seq<Event>, k: nat)
    requires IsRun(cfg, nodes, events) && k < |events|
    ensures LogAt(cfg, events, k + 1)
         == if Asks(events[k]) && !Observe(cfg.limits, nodes[k].marks, KeyOf(events[k].packet), events[k].now).0
            then LogAt(cfg, events, k) + [Mark(KeyOf(events[k].packet), events[k].now)]
            else LogAt(cfg, events, k)
  {
    hide Step, Observe, MarksOf, LogOf;
    CacheOfRun(cfg, nodes, events, k);
    if Asks(events[k]) {
      OneMoreQuery(cfg.limits, QueriesOf(events, k), Query(KeyOf(events[k].packet), events[k].now));
    }
  }

  lemma {:induction false} LogGrows(cfg: Config, nodes: seq<Node>, events: seq<Event>, k: nat, k': nat)
    requires IsRun(cfg, nodes, events) && k <= k' <= |events|
    ensures LogAt(cfg, events, k) <= LogAt(cfg, events, k')
    decreases k'
  {
    hide LogAt, Step, Observe;
    if k < k' {
      LogGrows(cfg, nodes, events, k, k' - 1);
      LogStep(cfg, nodes, events, k' - 1);
    }
  }

  // -- one key -------------------------------------------------------------------------------------

  /** The first event that concerns the key. */
  predicate FirstTouch(events: seq<Event>, key: Key, o: nat) {
    && o < |events| && Touches(events[o], key)
    && forall i :: 0 <= i < o ==> !Touches(events[i], key)
  }

  /** Every later arrival of the key comes within `ttl` of the first and before `capacity` other keys
      were accepted. */
  predicate ComesBackInTime(cfg: Config, events: seq<Event>, key: Key, o: nat)
    requires o < |events| && Touches(events[o], key)
  {
    forall j :: o < j < |events| && Touches(events[j], key) && events[j].Arrive? ==>
      && events[j].now - events[o].now <= cfg.limits.ttl
      && |LogAt(cfg, events, j)| - |LogAt(cfg, events, o)| <= cfg.limits.capacity
  }

  lemma {:induction false} UntouchedIsNotLogged(cfg: Config, nodes: seq<Node>, events: seq<Event>, key: Key, k: nat)
    requires IsRun(cfg, nodes, events) && k <= |events| && forall i :: 0 <= i < k ==> !Touches(events[i], key)
    ensures forall i :: 0 <= i < |LogAt(cfg, events, k)| ==> LogAt(cfg, events, k)[i].key != key
  {
    if k == 0 {
      NoMarks(cfg.limits);
    } else {
      hide LogAt, Step, Observe;
      UntouchedIsNotLogged(cfg, nodes, events, key, k - 1);
      LogStep(cfg, nodes, events, k - 1);
    }
  }

  /** The first touch is accepted, and stays at its place in the log. */
  lemma FirstTouchIsLogged(cfg: Config, nodes: seq<Node>, events: seq<Event>, key: Key, o: nat, k: nat)
    requires IsRun(cfg, nodes, events) && ClockForward(events) && cfg.limits.ttl >= 0.0
    requires FirstTouch(events, key, o) && o < k <= |events|
    ensures var at, log := |LogAt(cfg, events, o)|, LogAt(cfg, events, k);
      at < |log| && log[at] == Mark(key, events[o].now)
  {
    hide LogAt, Step, Observe;
    UntouchedIsNotLogged(cfg, nodes, events, key, o);
    KnownExactly(cfg, nodes, events, o);
    LogStep(cfg, nodes, events, o);
    LogGrows(cfg, nodes, events, o + 1, k);
  }

  /** A key that always comes back in time is never forgotten. */
  lemma InTimeIsRemembered(cfg: Config, nodes: seq<Node>, events: seq<Event>, key: Key, o: nat)
    requires IsRun(cfg, nodes, events) && ClockForward(events) && cfg.limits.ttl >= 0.0
    requires FirstTouch(events, key, o) && ComesBackInTime(cfg, events, key, o)
    ensures NeverForgotten(cfg, nodes, events, key)
  {
    hide LogAt, Step, Observe;
    forall i, j | 0 <= i < j < |events| && Touches(events[i], key) && Touches(events[j], key) && events[j].Arrive?
      ensures Observe(cfg.limits, nodes[j].marks, key, events[j].now).0
    {
      FirstTouchIsLogged(cfg, nodes, events, key, o, j);
      KnownExactly(cfg, nodes, events, j);
    }
  }

  /** The key comes back in time, if it comes up at all. */
  ghost predicate InTime(cfg: Config, events: seq<Event>, key: Key) {
    forall o: nat :: FirstTouch(events, key, o) ==> ComesBackInTime(cfg, events, key, o)
  }

  lemma {:induction false} SomeFirstTouch(events: seq<Event>, key: Key, k: nat) returns (o: nat)
    requires k < |events| && Touches(events[k], key)
    ensures FirstTouch(events, key, o)
  {
    o := k;
    if i :| 0 <= i < k && Touches(events[i], key) { o := SomeFirstTouch(events, key, i); }
  }

  lemma InTimeIsNeverForgotten(cfg: Config, nodes: seq<Node>, events: seq<Event>, key: Key)
    requires IsRun(cfg, nodes, events) && ClockForward(events) && cfg.limits.ttl >= 0.0 && InTime(cfg, events, key)
    ensures NeverForgotten(cfg, nodes, events, key)
  {
    hide Step, Observe, FirstTouch, ComesBackInTime;
    if k :| 0 <= k < |events| && Touches(events[k], key) {
      var o := SomeFirstTouch(events, key, k);
      InTimeIsRemembered(cfg, nodes, events, key, o);
    }
  }

  /** While a key is never forgotten it is accepted only once. */
  lemma {:induction false} RememberedIsLoggedOnce(cfg: Config, nodes: seq<Node>, events: seq<Event>, key: Key, o: nat,
                                                  k: nat)
    requires IsRun(cfg, nodes, events) && ClockForward(events) && cfg.limits.ttl >= 0.0
    requires FirstTouch(events, key, o) && o < k <= |events| && NeverForgotten(cfg, nodes, events, key)
    requires forall j :: o < j < |events| && Touches(events[j], key) ==> events[j].Arrive?
    ensures var log := LogAt(cfg, events, k);
      forall i :: 0 <= i < |log| && log[i].key == key ==> i == |LogAt(cfg, events, o)|
  {
    hide LogAt, Step, Observe;
    LogStep(cfg, nodes, events, k - 1);
    if k == o + 1 {
      UntouchedIsNotLogged(cfg, nodes, events, key, o);
    } else {
      RememberedIsLoggedOnce(cfg, nodes, events, key, o, k - 1);
    }
  }

  /** Exactly when a key is never forgotten, for a frame this node does not originate again: every
      arrival after the first touch comes back in time. */
  lemma RememberedExactly(cfg: Config, nodes: seq<Node>, events: seq<Event>, key: Key, o: nat)
    requires IsRun(cfg, nodes, events) && ClockForward(events) && cfg.limits.ttl >= 0.0
    requires FirstTouch(events, key, o)
    requires forall j :: o < j < |events| && Touches(events[j], key) ==> events[j].Arrive?
    ensures NeverForgotten(cfg, nodes, events, key) <==> ComesBackInTime(cfg, events, key, o)
  {
    hide LogAt, Step, Observe;
    if ComesBackInTime(cfg, events, key, o) { InTimeIsRemembered(cfg, nodes, events, key, o); }
    if NeverForgotten(cfg, nodes, events, key) {
      forall j | o < j < |events| && Touches(events[j], key) && events[j].Arrive?
        ensures events[j].now - events[o].now <= cfg.limits.ttl
        ensures |LogAt(cfg, events, j)| - |LogAt(cfg, events, o)| <= cfg.limits.capacity
      {
        KnownExactly(cfg, nodes, events, j);
        RememberedIsLoggedOnce(cfg, nodes, events, key, o, j);
        FirstTouchIsLogged(cfg, nodes, events, key, o, j);
      }
    }
  }

  /** So a frame that always comes back in time is relayed at most once, and never by its originator. */
  lemma InTimeIsRelayedOnce(cfg: Config, nodes: seq<Node>, events: seq<Event>, key: Key, o: nat)
    requires IsRun(cfg, nodes, events) && ClockForward(events) && cfg.limits.ttl >= 0.0
    requires FirstTouch(events, key, o) && ComesBackInTime(cfg, events, key, o)
    ensures Count(AllSent(cfg, nodes, events, |events|), key) <= (if events[o].Originate? then 0 else 1)
  {
    hide LogAt, Step, AllSent, NeverForgotten;
    InTimeIsRemembered(cfg, nodes, events, key, o);
    RelayedAtMostOnce(cfg, nodes, events, key);
    if events[o].Originate? { OriginNeverRelays(cfg, nodes, events, key, o); }
  }
}
