/** The bounded, time-limited cache of frame identifiers, and exactly what it remembers. */
module Dedup {
  import opened SymbolicCrypto

  datatype Key = Key(msgId: Bytes, fragIndex: nat)

  /** An accepted key and when it was accepted. */
  datatype Mark = Mark(key: Key, at: real)

  datatype Limits = Limits(capacity: nat, ttl: real)

  predicate Contains(marks: seq<Mark>, key: Key) {
    exists i :: 0 <= i < |marks| && marks[i].key == key
  }

  /** The oldest marks go first, stopping at the first one still fresh. */
  function Expire(marks: seq<Mark>, cutoff: real): seq<Mark> {
    if marks != [] && marks[0].at < cutoff then Expire(marks[1..], cutoff) else marks
  }

  function Trim(marks: seq<Mark>, capacity: nat): seq<Mark> {
    if |marks| > capacity then marks[|marks| - capacity..] else marks
  }

  /** Check and insert: whether the key was there, and the cache afterwards. */
  function Observe(lim: Limits, marks: seq<Mark>, key: Key, now: real): (bool, seq<Mark>) {
    var live := Expire(marks, now - lim.ttl);
    if Contains(live, key) then (true, live)
    else (false, Trim(live + [Mark(key, now)], lim.capacity))
  }

  // -- the cache as a window on the log of accepted keys -----------------------------------

  ghost predicate Sorted(log: seq<Mark>) {
    forall i, j :: 0 <= i <= j < |log| ==> log[i].at <= log[j].at
  }

  /** `marks` is the longest suffix of the log with at most `capacity` entries, none of them too old. */
  ghost predicate IsWindow(lim: Limits, log: seq<Mark>, marks: seq<Mark>, now: real) {
    && |marks| <= |log| && marks == log[|log| - |marks|..]
    && |marks| <= lim.capacity
    && (forall i :: 0 <= i < |marks| ==> marks[i].at >= now - lim.ttl)
    && (|marks| < |log| && |marks| < lim.capacity ==> log[|log| - |marks| - 1].at < now - lim.ttl)
  }

  function LogAfter(lim: Limits, log: seq<Mark>, marks: seq<Mark>, key: Key, now: real): seq<Mark> {
    if Observe(lim, marks, key, now).0 then log else log + [Mark(key, now)]
  }

  lemma {:induction false} ExpireIsSuffix(marks: seq<Mark>, cutoff: real) returns (k: nat)
    ensures k <= |marks| && Expire(marks, cutoff) == marks[k..]
    ensures forall i :: 0 <= i < k ==> marks[i].at < cutoff
    ensures k < |marks| ==> marks[k].at >= cutoff
  {
    if marks != [] && marks[0].at < cutoff {
      var k' := ExpireIsSuffix(marks[1..], cutoff);
      k := k' + 1;
    } else {
      k := 0;
    }
  }

  /** What is left when the first `k` marks, and they alone, have become too old. */
  lemma SuffixIsWindow(lim: Limits, log: seq<Mark>, marks: seq<Mark>, k: nat, before: real, now: real)
    requires Sorted(log) && IsWindow(lim, log, marks, before) && before <= now && k <= |marks|
    requires k > 0 ==> marks[k - 1].at < now - lim.ttl
    requires k < |marks| ==> marks[k].at >= now - lim.ttl
    ensures IsWindow(lim, log, marks[k..], now)
  {
    var d, live := |log| - |marks|, marks[k..];
    assert live == log[d + k..];
    forall i | 0 <= i < |live| ensures live[i].at >= now - lim.ttl {
      assert live[i] == log[d + k + i] && log[d + k] == marks[k];
    }
    if k > 0 { assert log[d + k - 1] == marks[k - 1]; }
  }

  /** Stopping at the first fresh mark loses nothing: later marks are never older. */
  lemma ExpireKeepsWindow(lim: Limits, log: seq<Mark>, marks: seq<Mark>, before: real, now: real)
    requires Sorted(log) && IsWindow(lim, log, marks, before) && before <= now
    ensures IsWindow(lim, log, Expire(marks, now - lim.ttl), now)
  {
    hide Expire, IsWindow, Sorted;
    var k := ExpireIsSuffix(marks, now - lim.ttl);
    SuffixIsWindow(lim, log, marks, k, before, now);
  }

  lemma AppendKeepsWindow(lim: Limits, log: seq<Mark>, live: seq<Mark>, m: Mark)
    requires lim.ttl >= 0.0 && IsWindow(lim, log, live, m.at)
    ensures IsWindow(lim, log + [m], Trim(live + [m], lim.capacity), m.at)
  {
    var log', full := log + [m], live + [m];
    var kept := Trim(full, lim.capacity);
    assert log'[|log'| - |full|..] == full;
    assert log'[|log'| - |kept|..] == kept;
    forall i | 0 <= i < |kept| ensures kept[i].at >= m.at - lim.ttl {
      assert kept[i] == full[|full| - |kept| + i];
    }
    if |kept| < |log'| && |kept| < lim.capacity {
      assert log'[|log'| - |kept| - 1] == log[|log| - |live| - 1];
    }
  }

  ghost predicate NoneAfter(log: seq<Mark>, now: real) {
    forall i :: 0 <= i < |log| ==> log[i].at <= now
  }

  lemma LogStaysSorted(log: seq<Mark>, before: real, m: Mark)
    requires Sorted(log) && NoneAfter(log, before) && before <= m.at
    ensures Sorted(log + [m]) && NoneAfter(log, m.at) && NoneAfter(log + [m], m.at)
  {}

  /** Every observation at a time no earlier than the last keeps the cache an exact window. */
  lemma ObserveKeepsWindow(lim: Limits, log: seq<Mark>, marks: seq<Mark>, before: real, key: Key, now: real)
    requires lim.ttl >= 0.0 && Sorted(log) && IsWindow(lim, log, marks, before) && before <= now
    requires NoneAfter(log, before)
    ensures var log' := LogAfter(lim, log, marks, key, now);
      Sorted(log') && NoneAfter(log', now) && IsWindow(lim, log', Observe(lim, marks, key, now).1, now)
  {
    hide IsWindow, Expire, Trim, Contains, Sorted, NoneAfter;
    ExpireKeepsWindow(lim, log, marks, before, now);
    LogStaysSorted(log, before, Mark(key, now));
    var live := Expire(marks, now - lim.ttl);
    if !Contains(live, key) {
      AppendKeepsWindow(lim, log, live, Mark(key, now));
    }
  }

  lemma ObserveLooksUp(lim: Limits, marks: seq<Mark>, key: Key, now: real)
    ensures Observe(lim, marks, key, now).0 == Contains(Expire(marks, now - lim.ttl), key)
  {
    hide Expire, Trim, Contains;
  }

  /** A window holds exactly the recent entries of the log that were not pushed out. */
  lemma WindowHolds(lim: Limits, log: seq<Mark>, live: seq<Mark>, key: Key, now: real)
    requires Sorted(log) && IsWindow(lim, log, live, now)
    ensures Contains(live, key)
       <==> exists i :: 0 <= i < |log| && log[i].key == key && log[i].at >= now - lim.ttl && |log| - i <= lim.capacity
  {
    var d := |log| - |live|;
    if j :| 0 <= j < |live| && live[j].key == key {
      assert log[d + j] == live[j];
    }
    if i :| 0 <= i < |log| && log[i].key == key && log[i].at >= now - lim.ttl && |log| - i <= lim.capacity {
      assert forall j :: 0 <= j < d ==> log[j].at <= log[d - 1].at;
      assert live[i - d] == log[i];
    }
  }

  /** A key is reported seen exactly when it was accepted no longer than `ttl` ago and fewer than
      `capacity` keys were accepted after it. */
  lemma SeenIsExact(lim: Limits, log: seq<Mark>, marks: seq<Mark>, before: real, key: Key, now: real)
    requires Sorted(log) && IsWindow(lim, log, marks, before) && before <= now
    ensures Observe(lim, marks, key, now).0
       <==> exists i :: 0 <= i < |log| && log[i].key == key && log[i].at >= now - lim.ttl && |log| - i <= lim.capacity
  {
    hide Observe, Expire, IsWindow, Sorted, Contains;
    ExpireKeepsWindow(lim, log, marks, before, now);
    ObserveLooksUp(lim, marks, key, now);
    WindowHolds(lim, log, Expire(marks, now - lim.ttl), key, now);
  }

  // -- runs -------------------------------------------------------------------------------

  datatype Query = Query(key: Key, now: real)

  function MarksOf(lim: Limits, queries: seq<Query>): seq<Mark> {
    if queries == [] then []
    else
      var q := queries[|queries| - 1];
      Observe(lim, MarksOf(lim, queries[..|queries| - 1]), q.key, q.now).1
  }

  /** The keys accepted so far, with their times. */
  function LogOf(lim: Limits, queries: seq<Query>): seq<Mark> {
    if queries == [] then []
    else
      var q, before := queries[|queries| - 1], queries[..|queries| - 1];
      LogAfter(lim, LogOf(lim, before), MarksOf(lim, before), q.key, q.now)
  }

  /** In every run with a clock that never goes back, the cache is exactly that window. */
  lemma {:induction false} CacheRefinesLog(lim: Limits, queries: seq<Query>, now: real)
    requires lim.ttl >= 0.0
    requires forall i, j :: 0 <= i <= j < |queries| ==> queries[i].now <= queries[j].now
    requires queries != [] ==> now == queries[|queries| - 1].now
    ensures Sorted(LogOf(lim, queries)) && IsWindow(lim, LogOf(lim, queries), MarksOf(lim, queries), now)
    ensures NoneAfter(LogOf(lim, queries), now)
  {
    if queries != [] {
      var before, q := queries[..|queries| - 1], queries[|queries| - 1];
      var earlier := if before == [] then now else before[|before| - 1].now;
      CacheRefinesLog(lim, before, earlier);
      ObserveKeepsWindow(lim, LogOf(lim, before), MarksOf(lim, before), earlier, q.key, q.now);
    }
  }

  /** The cache object. */
  class DedupCache {
    const lim: Limits
    var marks: seq<Mark>

    constructor (lim: Limits)
      ensures this.lim == lim && marks == []
    {
      this.lim := lim;
      marks := [];
    }

    method Seen(key: Key, now: real) returns (known: bool)
      modifies this
      ensures known == Observe(lim, old(marks), key, now).0
      ensures marks == Observe(lim, old(marks), key, now).1
    {
      Prune(now);
      if Contains(marks, key) {
        return true;
      }
      marks := marks + [Mark(key, now)];
      ghost var full := marks;
      while |marks| > lim.capacity
        invariant Trim(marks, lim.capacity) == Trim(full, lim.capacity)
      {
        marks := marks[1..];
      }
      known := false;
    }

    method Prune(now: real)
      modifies this
      ensures marks == Expire(old(marks), now - lim.ttl)
    {
      var cutoff := now - lim.ttl;
      while marks != []
        invariant Expire(marks, cutoff) == Expire(old(marks), cutoff)
        decreases |marks|
      {
        if marks[0].at >= cutoff {
          break;
        }
        marks := marks[1..];
      }
    }
  }
}
