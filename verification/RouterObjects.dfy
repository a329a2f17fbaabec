/** The router object, over an event loop that holds its timers and relay tasks. Whether a frame
    is for this node, whether delivering it raises, and whether a send gets out are parameters.
*/
module RouterObjects {
  import P = Packet
  import D = Dedup
  import R = Router

  class EventLoop {
    var delivering: seq<P.Packet>
    var timers: seq<R.Timer>
    var tasks: seq<P.Packet>
    var nextId: nat

    constructor ()
      ensures delivering == [] && timers == [] && tasks == [] && nextId == 0
    {
      delivering, timers, tasks, nextId := [], [], [], 0;
    }

    method CallLater(key: D.Key, packet: P.Packet) returns (handle: nat)
      modifies this`timers, this`nextId
      ensures handle == old(nextId) && nextId == old(nextId) + 1 && tasks == old(tasks)
      ensures timers == old(timers) + [R.Timer(handle, key, packet)]
    {
      handle := nextId;
      timers := timers + [R.Timer(handle, key, packet)];
      nextId := nextId + 1;
    }

    method Cancel(handle: nat)
      modifies this`timers
      ensures timers == R.Cancel(old(timers), handle) && tasks == old(tasks) && nextId == old(nextId)
    {
      var i := R.TimerIndex(timers, handle);
      if i < |timers| {
        timers := R.RemoveAt(timers, i);
      }
    }
  }

  class Router {
    const cfg: R.Config
    const dedup: D.DedupCache
    const loop: EventLoop
    var stats: R.Stats
    var store: seq<R.Stored>
    var pending: map<D.Key, nat>

    ghost function Value(): R.Node
      reads this, dedup, loop
    {
      R.Node(dedup.marks, stats, store, pending, loop.delivering, loop.timers, loop.tasks, loop.nextId)
    }

    ghost predicate Valid()
      reads this, dedup
    {
      dedup.lim == cfg.limits
    }

    constructor (cfg: R.Config)
      ensures Valid() && fresh(dedup) && fresh(loop) && this.cfg == cfg && Value() == R.IDLE
    {
      this.cfg := cfg;
      dedup := new D.DedupCache(cfg.limits);
      loop := new EventLoop();
      stats, store, pending := R.NO_STATS, [], map[];
    }

    /** As far as the first suspension: a frame for us waits in the event loop for its delivery. */
    method Handle(p: P.Packet, now: real, forUs: bool)
      requires Valid()
      modifies this, dedup, loop
      ensures Valid() && Value() == R.Handle(cfg, old(Value()), p, now, forUs)
    {
      stats := stats.(received := stats.received + 1);
      var known := dedup.Seen(R.KeyOf(p), now);
      if known {
        stats := stats.(duplicates := stats.duplicates + 1);
        CancelPendingRelay(R.KeyOf(p));
        return;
      }
      if forUs {
        stats := stats.(deliveredLocal := stats.deliveredLocal + 1);
        loop.delivering := loop.delivering + [p];
        return;
      }
      ScheduleRelay(p);
    }

    /** The rest of handling a frame for us, when delivery `i` returns or raises. */
    method AfterDelivery(i: nat, raised: bool)
      requires i < |loop.delivering|
      modifies this, loop
      ensures Value() == R.FinishDelivery(old(Value()), i, raised)
    {
      var p := loop.delivering[i];
      loop.delivering := R.RemoveAt(loop.delivering, i);
      if raised {
        stats := stats.(undelivered := stats.undelivered + 1);
        return;
      }
      ScheduleRelay(p);
    }

    method ScheduleRelay(p: P.Packet)
      modifies this, loop
      ensures Value() == R.ScheduleRelay(old(Value()), p)
    {
      var forwarded := P.DecrementTtl(p);
      if forwarded.None? {
        stats := stats.(expired := stats.expired + 1);
        return;
      }
      var handle := loop.CallLater(R.KeyOf(p), forwarded.value);
      pending := pending[R.KeyOf(p) := handle];
    }

    method CancelPendingRelay(key: D.Key)
      modifies this, loop
      ensures Value() == R.CancelPending(old(Value()), key)
    {
      if key in pending {
        loop.Cancel(pending[key]);
        pending := pending - {key};
        stats := stats.(suppressed := stats.suppressed + 1);
      }
    }

    method FireRelay(i: nat)
      requires i < |loop.timers|
      modifies this, loop
      ensures Value() == R.Fire(old(Value()), i)
    {
      var t := loop.timers[i];
      loop.timers := R.RemoveAt(loop.timers, i);
      pending := pending - {t.key};
      loop.tasks := loop.tasks + [t.packet];
    }

    method DoRelay(i: nat, sent: bool, now: real)
      requires i < |loop.tasks|
      modifies this, loop
      ensures Value() == R.Finish(cfg, old(Value()), i, sent, now)
    {
      var p := loop.tasks[i];
      loop.tasks := R.RemoveAt(loop.tasks, i);
      if sent {
        stats := stats.(relayed := stats.relayed + 1);
      } else {
        stats := stats.(failed := stats.failed + 1);
        Keep(p, now);
      }
    }

    method Keep(p: P.Packet, now: real)
      modifies this
      ensures Value() == R.Keep(cfg, old(Value()), p, now)
    {
      if !cfg.storeForward {
        return;
      }
      if |store| >= cfg.storeCapacity {
        if store == [] {
          return;
        }
        store := store[1..];
      }
      store := store + [R.Stored(p, now)];
      stats := stats.(stored := stats.stored + 1);
    }

    /** Marks our own frame as seen and hands it out for transmission, seen before or not. */
    method Originate(p: P.Packet, now: real) returns (out: P.Packet)
      requires Valid()
      modifies dedup
      ensures Valid() && Value() == R.MarkOwn(cfg, old(Value()), p, now) && out == p
    {
      var known := dedup.Seen(R.KeyOf(p), now);
      out := p;
    }

    lemma ReplayUnfolds(items: seq<R.Stored>, now: real, sent: seq<bool>, i: nat)
      requires |sent| == |items| && i <= |items|
      ensures i == |items| ==>
        R.Held(cfg, items[i..], now, sent[i..]) == [] && R.Replayed(cfg, items[i..], now, sent[i..]) == []
      ensures i < |items| ==>
        && R.Held(cfg, items[i..], now, sent[i..])
           == (if R.Fresh(cfg, items[i], now) && !sent[i] then [items[i]] else [])
              + R.Held(cfg, items[i + 1..], now, sent[i + 1..])
        && R.Replayed(cfg, items[i..], now, sent[i..])
           == (if R.Fresh(cfg, items[i], now) && sent[i] then [items[i].packet] else [])
              + R.Replayed(cfg, items[i + 1..], now, sent[i + 1..])
    {
      if i < |items| { assert items[i..][1..] == items[i + 1..] && sent[i..][1..] == sent[i + 1..]; }
    }

    method ReplayStore(now: real, sent: seq<bool>) returns (out: seq<P.Packet>)
      requires |sent| == |store|
      modifies this
      ensures Value() == R.Replay(cfg, old(Value()), now, sent)
      ensures out == R.Replayed(cfg, old(store), now, sent)
    {
      hide R.Held, R.Replayed;
      var kept: seq<R.Stored> := [];
      out := [];
      ghost var before := stats.replayed;
      for i := 0 to |store|
        invariant store == old(store) && pending == old(pending)
        invariant stats == old(stats).(replayed := before + |out|)
        invariant kept + R.Held(cfg, store[i..], now, sent[i..]) == R.Held(cfg, store, now, sent)
        invariant out + R.Replayed(cfg, store[i..], now, sent[i..]) == R.Replayed(cfg, store, now, sent)
      {
        var entry := store[i];
        ReplayUnfolds(store, now, sent, i);
        if R.Fresh(cfg, entry, now) {
          if sent[i] {
            out := out + [entry.packet];
            stats := stats.(replayed := stats.replayed + 1);
          } else {
            kept := kept + [entry];
          }
        }
      }
      ReplayUnfolds(store, now, sent, |store|);
      store := kept;
    }

    method PurgeStore(now: real)
      modifies this
      ensures Value() == old(Value()).(store := R.Purged(cfg, old(store), now))
    {
      var kept: seq<R.Stored> := [];
      for i := 0 to |store|
        invariant store == old(store) && pending == old(pending) && stats == old(stats)
        invariant kept + R.Purged(cfg, store[i..], now) == R.Purged(cfg, store, now)
      {
        assert store[i..][1..] == store[i + 1..];
        if R.Fresh(cfg, store[i], now) {
          kept := kept + [store[i]];
        }
      }
      store := kept;
    }
  }
}
