/** The sliding-window duty-cycle budget: what it permits, how long it says to wait, and why no
    window of any run carries more airtime than the limit. Times and durations are exact reals.
*/
module Airtime {
  import opened SymbolicCrypto

  datatype Event = Event(at: real, airtime: real)

  datatype Config = Config(dutyCycle: Option<real>, window: real, maxDwellMs: Option<real>)

  datatype Verdict = Permitted | Exceeded(wait: real)

  function Total(events: seq<Event>): real {
    if events == [] then 0.0 else events[0].airtime + Total(events[1..])
  }

  function Prune(events: seq<Event>, cutoff: real): seq<Event> {
    if events != [] && events[0].at < cutoff then Prune(events[1..], cutoff) else events
  }

  /** The time of the first event by which at least `needed` airtime has been freed. */
  function FreedAt(events: seq<Event>, needed: real, freed: real): Option<real> {
    if events == [] then None
    else if freed + events[0].airtime >= needed then Some(events[0].at)
    else FreedAt(events[1..], needed, freed + events[0].airtime)
  }

  predicate DwellViolation(cfg: Config, airtime: real) {
    cfg.maxDwellMs.Some? && airtime * 1000.0 > cfg.maxDwellMs.value
  }

  function Budget(cfg: Config): real
    requires cfg.dutyCycle.Some?
  {
    cfg.dutyCycle.value * cfg.window
  }

  /** The verdict on pruned events. */
  function Judge(cfg: Config, events: seq<Event>, airtime: real, now: real): Verdict
    requires cfg.dutyCycle.Some?
  {
    var used := Total(events);
    if used + airtime <= Budget(cfg) then Permitted
    else
      match FreedAt(events, used + airtime - Budget(cfg), 0.0)
      case Some(at) => Exceeded(if at + cfg.window - now > 0.0 then at + cfg.window - now else 0.0)
      case None => Exceeded(cfg.window)
  }

  /** A check: the verdict and the events it leaves behind. */
  function Check(cfg: Config, events: seq<Event>, airtime: real, now: real): (Verdict, seq<Event>) {
    if DwellViolation(cfg, airtime) then (Exceeded(0.0), events)
    else if cfg.dutyCycle.None? then (Permitted, events)
    else
      var kept := Prune(events, now - cfg.window);
      (Judge(cfg, kept, airtime, now), kept)
  }

  function Record(cfg: Config, events: seq<Event>, airtime: real, now: real): seq<Event> {
    Prune(events + [Event(now, airtime)], now - cfg.window)
  }

  // -- pruning -------------------------------------------------------------------------

  lemma {:induction false} PruneIsSuffix(events: seq<Event>, cutoff: real) returns (k: nat)
    ensures k <= |events| && Prune(events, cutoff) == events[k..]
    ensures forall i :: 0 <= i < k ==> events[i].at < cutoff
    ensures k < |events| ==> events[k].at >= cutoff
  {
    if events != [] && events[0].at < cutoff {
      var k' := PruneIsSuffix(events[1..], cutoff);
      k := k' + 1;
    } else {
      k := 0;
    }
  }

  lemma {:induction false} TotalOfConcat(a: seq<Event>, b: seq<Event>)
    ensures Total(a + b) == Total(a) + Total(b)
  {
    if a == [] {
      assert a + b == b;
    } else {
      assert (a + b)[1..] == a[1..] + b;
      TotalOfConcat(a[1..], b);
    }
  }

  ghost predicate NonNegative(events: seq<Event>) {
    forall i :: 0 <= i < |events| ==> events[i].airtime >= 0.0
  }

  ghost predicate Sorted(events: seq<Event>) {
    forall i, j :: 0 <= i <= j < |events| ==> events[i].at <= events[j].at
  }

  lemma {:induction false} TotalNonNegative(events: seq<Event>)
    requires NonNegative(events)
    ensures Total(events) >= 0.0
  {
    if events != [] { TotalNonNegative(events[1..]); }
  }

  /** Pruning splits the total into what is dropped and what is kept. */
  lemma TotalSplits(events: seq<Event>, k: nat)
    requires k <= |events|
    ensures Total(events) == Total(events[..k]) + Total(events[k..])
  {
    assert events == events[..k] + events[k..];
    TotalOfConcat(events[..k], events[k..]);
  }

  lemma PrefixTotalsGrow(events: seq<Event>, j: nat, k: nat)
    requires NonNegative(events) && j <= k <= |events|
    ensures Total(events[..j]) <= Total(events[..k])
  {
    hide Total;
    assert events[..k] == events[..j] + events[j..k];
    TotalOfConcat(events[..j], events[j..k]);
    TotalNonNegative(events[j..k]);
  }

  // -- any window ------------------------------------------------------------------------

  /** Airtime of the events whose time lies in `[lo, hi]`. */
  function Load(log: seq<Event>, lo: real, hi: real): real {
    if log == [] then 0.0
    else (if lo <= log[0].at <= hi then log[0].airtime else 0.0) + Load(log[1..], lo, hi)
  }

  /** Airtime in the closed window that starts at `s`. */
  function WindowLoad(cfg: Config, log: seq<Event>, s: real): real {
    Load(log, s, s + cfg.window)
  }

  /** No window of the configured length, wherever it starts, carries more than the budget. */
  ghost predicate EveryWindowWithinBudget(cfg: Config, log: seq<Event>)
    requires cfg.dutyCycle.Some?
  {
    forall s: real :: WindowLoad(cfg, log, s) <= Budget(cfg)
  }

  lemma {:induction false} LoadOfConcat(a: seq<Event>, b: seq<Event>, lo: real, hi: real)
    ensures Load(a + b, lo, hi) == Load(a, lo, hi) + Load(b, lo, hi)
  {
    if a == [] {
      assert a + b == b;
    } else {
      assert (a + b)[1..] == a[1..] + b;
      LoadOfConcat(a[1..], b, lo, hi);
    }
  }

  lemma {:induction false} LoadBelow(log: seq<Event>, lo: real, hi: real)
    requires forall i :: 0 <= i < |log| ==> log[i].at < lo
    ensures Load(log, lo, hi) == 0.0
  {
    if log != [] { LoadBelow(log[1..], lo, hi); }
  }

  lemma {:induction false} LoadAtMostTotal(log: seq<Event>, lo: real, hi: real)
    requires NonNegative(log)
    ensures Load(log, lo, hi) <= Total(log)
  {
    if log != [] { LoadAtMostTotal(log[1..], lo, hi); }
  }

  /** The governor's list is what is left of the whole log; everything else is older than a window. */
  ghost predicate Remembers(cfg: Config, log: seq<Event>, events: seq<Event>, clock: real) {
    && |events| <= |log| && events == log[|log| - |events|..]
    && NonNegative(log) && Sorted(log)
    && (forall i :: 0 <= i < |log| ==> log[i].at <= clock)
    && (forall i :: 0 <= i < |log| - |events| ==> log[i].at < clock - cfg.window)
  }

  lemma PruneRemembers(cfg: Config, log: seq<Event>, events: seq<Event>, clock: real, now: real)
    requires Remembers(cfg, log, events, clock) && clock <= now
    ensures Remembers(cfg, log, Prune(events, now - cfg.window), now)
  {
    var k := PruneIsSuffix(events, now - cfg.window);
    var d := |log| - |events|;
    assert log[d + k..] == events[k..];
    forall i | 0 <= i < d + k ensures log[i].at < now - cfg.window {
      if i >= d { assert log[i] == events[i - d]; }
    }
  }

  lemma RecordRemembers(cfg: Config, log: seq<Event>, events: seq<Event>, clock: real, airtime: real, now: real)
    requires Remembers(cfg, log, events, clock) && clock <= now && airtime >= 0.0
    ensures Remembers(cfg, log + [Event(now, airtime)], Record(cfg, events, airtime, now), now)
  {
    var log' := log + [Event(now, airtime)];
    assert log'[|log'| - (|events| + 1)..] == events + [Event(now, airtime)];
    PruneRemembersAt(cfg, log', events + [Event(now, airtime)], now);
  }

  lemma CheckRemembers(cfg: Config, log: seq<Event>, events: seq<Event>, clock: real, airtime: real, now: real)
    requires Remembers(cfg, log, events, clock) && clock <= now
    ensures Remembers(cfg, log, Check(cfg, events, airtime, now).1, now)
  {
    PruneRemembers(cfg, log, events, clock, now);
  }

  lemma PruneRemembersAt(cfg: Config, log: seq<Event>, events: seq<Event>, now: real)
    requires Remembers(cfg, log, events, now)
    ensures Remembers(cfg, log, Prune(events, now - cfg.window), now)
  {
    PruneRemembers(cfg, log, events, now, now);
  }

  /** A window that reaches the new transmission saw only events the check still counted. */
  lemma WindowAtMostUsed(cfg: Config, log: seq<Event>, events: seq<Event>, clock: real, now: real, s: real)
    requires Remembers(cfg, log, events, clock) && clock <= now && s >= now - cfg.window
    ensures WindowLoad(cfg, log, s) <= Total(Prune(events, now - cfg.window))
  {
    PruneRemembers(cfg, log, events, clock, now);
    var kept := Prune(events, now - cfg.window);
    var d := |log| - |kept|;
    assert log == log[..d] + kept;
    LoadOfConcat(log[..d], kept, s, s + cfg.window);
    LoadBelow(log[..d], s, s + cfg.window);
    LoadAtMostTotal(kept, s, s + cfg.window);
  }

  /** A permitted check at `t1`, recorded at any later `t2`, keeps every window within budget. */
  lemma PermittedKeepsBudget(cfg: Config, log: seq<Event>, events: seq<Event>, clock: real, airtime: real, t1: real,
                             t2: real)
    requires cfg.dutyCycle.Some? && Remembers(cfg, log, events, clock) && clock <= t1 <= t2
    requires EveryWindowWithinBudget(cfg, log) && airtime >= 0.0
    requires Check(cfg, events, airtime, t1).0.Permitted?
    ensures EveryWindowWithinBudget(cfg, log + [Event(t2, airtime)])
  {
    forall s: real ensures WindowLoad(cfg, log + [Event(t2, airtime)], s) <= Budget(cfg) {
      LoadOfConcat(log, [Event(t2, airtime)], s, s + cfg.window);
      assert Load([Event(t2, airtime)], s, s + cfg.window) == if s <= t2 <= s + cfg.window then airtime else 0.0;
      assert WindowLoad(cfg, log, s) <= Budget(cfg);
      if s <= t2 <= s + cfg.window {
        WindowAtMostUsed(cfg, log, events, clock, t1, s);
      }
    }
  }

  // -- runs ------------------------------------------------------------------------------

  /** One use of the governor: a transmission under the lock, or a look at the usage. */
  datatype Use = Transmit(airtime: real, checkAt: real, recordAt: real) | Query(now: real)

  datatype Governor = Governor(events: seq<Event>, log: seq<Event>, clock: real)

  function UseOnce(cfg: Config, g: Governor, u: Use): Governor {
    match u
    case Transmit(airtime, t1, t2) =>
      var (verdict, kept) := Check(cfg, g.events, airtime, t1);
      if verdict.Permitted?
      then Governor(Record(cfg, kept, airtime, t2), g.log + [Event(t2, airtime)], t2)
      else Governor(kept, g.log, t1)
    case Query(now) => Governor(Prune(g.events, now - cfg.window), g.log, now)
  }

  function UseAll(cfg: Config, g: Governor, uses: seq<Use>): Governor {
    if uses == [] then g else UseOnce(cfg, UseAll(cfg, g, uses[..|uses| - 1]), uses[|uses| - 1])
  }

  /** The clock never goes back, and each recording follows its own check. */
  ghost predicate InOrder(cfg: Config, g: Governor, uses: seq<Use>) {
    forall i :: 0 <= i < |uses| ==>
      var clock := UseAll(cfg, g, uses[..i]).clock;
      match uses[i]
      case Transmit(airtime, t1, t2) => clock <= t1 <= t2 && airtime >= 0.0
      case Query(now) => clock <= now
  }

  lemma UseKeepsBudget(cfg: Config, g: Governor, u: Use)
    requires cfg.dutyCycle.Some? && Remembers(cfg, g.log, g.events, g.clock) && EveryWindowWithinBudget(cfg, g.log)
    requires u.Transmit? ==> g.clock <= u.checkAt <= u.recordAt && u.airtime >= 0.0
    requires u.Query? ==> g.clock <= u.now
    ensures var g' := UseOnce(cfg, g, u);
      Remembers(cfg, g'.log, g'.events, g'.clock) && EveryWindowWithinBudget(cfg, g'.log)
  {
    match u
    case Transmit(airtime, t1, t2) =>
      var (verdict, kept) := Check(cfg, g.events, airtime, t1);
      PruneRemembers(cfg, g.log, g.events, g.clock, t1);
      if verdict.Permitted? {
        PermittedKeepsBudget(cfg, g.log, g.events, g.clock, airtime, t1, t2);
        RecordRemembers(cfg, g.log, kept, t1, airtime, t2);
      }
    case Query(now) =>
      PruneRemembers(cfg, g.log, g.events, g.clock, now);
  }

  /** Safety over whole runs: no window anywhere in the history is ever over budget. */
  lemma {:induction false} AnyWindow(cfg: Config, start: real, uses: seq<Use>)
    requires cfg.dutyCycle.Some? && Budget(cfg) >= 0.0
    requires InOrder(cfg, Governor([], [], start), uses)
    ensures var g := UseAll(cfg, Governor([], [], start), uses);
      Remembers(cfg, g.log, g.events, g.clock) && EveryWindowWithinBudget(cfg, g.log)
  {
    if uses == [] {
      forall s: real ensures WindowLoad(cfg, [], s) <= Budget(cfg) {}
    } else {
      var before := uses[..|uses| - 1];
      assert forall i :: 0 <= i < |before| ==> before[..i] == uses[..i];
      AnyWindow(cfg, start, before);
      UseKeepsBudget(cfg, UseAll(cfg, Governor([], [], start), before), uses[|uses| - 1]);
    }
  }

  // -- the wait is exact --------------------------------------------------------------------

  /** `FreedAt` stops at the first event whose prefix frees enough, or finds none. */
  lemma {:induction false} FreedAtIsFirst(events: seq<Event>, needed: real, freed: real) returns (i: nat)
    requires NonNegative(events) && freed < needed
    ensures FreedAt(events, needed, freed).Some? <==> freed + Total(events) >= needed
    ensures FreedAt(events, needed, freed).Some? ==>
      && i < |events| && FreedAt(events, needed, freed) == Some(events[i].at)
      && freed + Total(events[..i]) < needed <= freed + Total(events[..i + 1])
  {
    i := 0;
    if events != [] {
      assert events[..1] == [events[0]] && events[..0] == [];
      assert Total([events[0]]) == events[0].airtime + Total([]);
      if freed + events[0].airtime >= needed {
        TotalNonNegative(events[1..]);
      } else {
        var i' := FreedAtIsFirst(events[1..], needed, freed + events[0].airtime);
        i := i' + 1;
        if FreedAt(events, needed, freed).Some? {
          assert events[..i] == [events[0]] + events[1..][..i'];
          assert events[..i + 1] == [events[0]] + events[1..][..i' + 1];
        }
      }
    }
  }

  /** A refusal on budget names the earliest time: refused at every moment up to it, permitted at
      every moment after it, as long as nothing else is recorded. */
  lemma WaitIsTight(cfg: Config, events: seq<Event>, airtime: real, now: real, t: real)
    requires cfg.dutyCycle.Some? && !DwellViolation(cfg, airtime) && airtime <= Budget(cfg)
    requires NonNegative(events) && Sorted(events) && now <= t
    requires Check(cfg, events, airtime, now).0.Exceeded?
    ensures var (verdict, kept) := Check(cfg, events, airtime, now);
      && verdict.wait >= 0.0
      && (Check(cfg, kept, airtime, t).0.Permitted? <==> t > now + verdict.wait)
  {
    hide Total, Prune, FreedAt;
    var m := PruneIsSuffix(events, now - cfg.window);
    var kept := events[m..];
    var needed := Total(kept) + airtime - Budget(cfg);
    var i := FreedAtIsFirst(kept, needed, 0.0);
    assert kept[i].at >= kept[0].at >= now - cfg.window;
    var k := PruneIsSuffix(kept, t - cfg.window);
    TotalSplits(kept, k);
    if t > now + Check(cfg, events, airtime, now).0.wait {
      assert forall j :: 0 <= j <= i ==> kept[j].at <= kept[i].at < t - cfg.window;
      PrefixTotalsGrow(kept, i + 1, k);
    } else {
      assert k <= i;
      PrefixTotalsGrow(kept, k, i);
    }
  }

  // -- the verdict, from the log alone -----------------------------------------------------------

  /** The frame fits the dwell limit, and the airtime of the window that ends now still leaves room for it. */
  ghost predicate HasRoom(cfg: Config, log: seq<Event>, airtime: real, now: real) {
    && (cfg.maxDwellMs.Some? ==> airtime * 1000.0 <= cfg.maxDwellMs.value)
    && (cfg.dutyCycle.Some? ==> Load(log, now - cfg.window, now) + airtime <= cfg.dutyCycle.value * cfg.window)
  }

  lemma {:induction false} LoadInside(log: seq<Event>, lo: real, hi: real)
    requires forall i :: 0 <= i < |log| ==> lo <= log[i].at <= hi
    ensures Load(log, lo, hi) == Total(log)
  {
    if log != [] { LoadInside(log[1..], lo, hi); }
  }

  lemma KeptIsRecent(cfg: Config, log: seq<Event>, events: seq<Event>, clock: real, now: real)
    requires Remembers(cfg, log, events, clock) && clock <= now
    ensures var kept := Prune(events, now - cfg.window);
      && |kept| <= |log| && log == log[..|log| - |kept|] + kept
      && (forall i :: 0 <= i < |log| - |kept| ==> log[i].at < now - cfg.window)
      && forall i :: 0 <= i < |kept| ==> now - cfg.window <= kept[i].at <= now
  {
    PruneRemembers(cfg, log, events, clock, now);
    var m := PruneIsSuffix(events, now - cfg.window);
    hide Prune;
    var kept := events[m..];
    forall i | 0 <= i < |kept| ensures now - cfg.window <= kept[i].at <= now {
      assert kept[0].at <= kept[i].at;
      assert kept[i] == log[|log| - |kept| + i];
    }
  }

  /** Recording leaves nothing behind that is older than the window. */
  lemma RecordForgets(cfg: Config, log: seq<Event>, events: seq<Event>, clock: real, airtime: real, now: real)
    requires Remembers(cfg, log, events, clock) && clock <= now && airtime >= 0.0
    ensures forall i :: 0 <= i < |Record(cfg, events, airtime, now)| ==>
      Record(cfg, events, airtime, now)[i].at >= now - cfg.window
  {
    var log', events' := log + [Event(now, airtime)], events + [Event(now, airtime)];
    assert log'[|log'| - |events'|..] == events';
    forall i | 0 <= i < |log| - |events| ensures log'[i].at < clock - cfg.window {}
    KeptIsRecent(cfg, log', events', now, now);
  }

  /** What the governor counts as used is what the whole log has in the window that ends now. */
  lemma UsedIsLoad(cfg: Config, log: seq<Event>, events: seq<Event>, clock: real, now: real)
    requires Remembers(cfg, log, events, clock) && clock <= now
    ensures Total(Prune(events, now - cfg.window)) == Load(log, now - cfg.window, now)
  {
    hide Total, Load, Prune, Remembers;
    PruneRemembers(cfg, log, events, clock, now);
    var kept := Prune(events, now - cfg.window);
    KeptIsRecent(cfg, log, events, clock, now);
    var d := |log| - |kept|;
    LoadOfConcat(log[..d], kept, now - cfg.window, now);
    LoadBelow(log[..d], now - cfg.window, now);
    LoadInside(kept, now - cfg.window, now);
  }

  /** A transmission is permitted exactly when there is room for it. */
  lemma PermittedExactly(cfg: Config, log: seq<Event>, events: seq<Event>, clock: real, airtime: real, now: real)
    requires Remembers(cfg, log, events, clock) && clock <= now
    ensures Check(cfg, events, airtime, now).0.Permitted? <==> HasRoom(cfg, log, airtime, now)
  {
    hide Total, Load, Prune, Remembers, FreedAt;
    UsedIsLoad(cfg, log, events, clock, now);
  }

  /** So it is in every state of every run: refusing too much is as wrong as refusing too little. */
  lemma EveryVerdictIsExact(cfg: Config, start: real, uses: seq<Use>, airtime: real, now: real)
    requires cfg.dutyCycle.Some? ==> Budget(cfg) >= 0.0
    requires InOrder(cfg, Governor([], [], start), uses) && UseAll(cfg, Governor([], [], start), uses).clock <= now
    ensures var g := UseAll(cfg, Governor([], [], start), uses);
      Check(cfg, g.events, airtime, now).0.Permitted? <==> HasRoom(cfg, g.log, airtime, now)
  {
    hide InOrder, UseAll, Check, HasRoom, Remembers;
    RunRemembers(cfg, start, uses);
    var g := UseAll(cfg, Governor([], [], start), uses);
    PermittedExactly(cfg, g.log, g.events, g.clock, airtime, now);
  }

  lemma {:induction false} RunRemembers(cfg: Config, start: real, uses: seq<Use>)
    requires InOrder(cfg, Governor([], [], start), uses)
    ensures var g := UseAll(cfg, Governor([], [], start), uses); Remembers(cfg, g.log, g.events, g.clock)
  {
    if uses != [] {
      var before := uses[..|uses| - 1];
      assert forall i :: 0 <= i < |before| ==> before[..i] == uses[..i];
      RunRemembers(cfg, start, before);
      UseRemembers(cfg, UseAll(cfg, Governor([], [], start), before), uses[|uses| - 1]);
    }
  }

  lemma UseRemembers(cfg: Config, g: Governor, u: Use)
    requires Remembers(cfg, g.log, g.events, g.clock)
    requires u.Transmit? ==> g.clock <= u.checkAt <= u.recordAt && u.airtime >= 0.0
    requires u.Query? ==> g.clock <= u.now
    ensures var g' := UseOnce(cfg, g, u); Remembers(cfg, g'.log, g'.events, g'.clock)
  {
    hide Remembers, Check, Prune, Record;
    match u
    case Transmit(airtime, t1, t2) =>
      var (verdict, kept) := Check(cfg, g.events, airtime, t1);
      CheckRemembers(cfg, g.log, g.events, g.clock, airtime, t1);
      if verdict.Permitted? { RecordRemembers(cfg, g.log, kept, t1, airtime, t2); }
    case Query(now) => PruneRemembers(cfg, g.log, g.events, g.clock, now);
  }

  /** A refusal says how long: there is no room up to the end of the wait, and there is room at every
      moment after it, unless something else is sent. */
  lemma WaitIsLeast(cfg: Config, log: seq<Event>, events: seq<Event>, clock: real, airtime: real, now: real, t: real)
    requires Remembers(cfg, log, events, clock) && clock <= now <= t
    requires cfg.dutyCycle.Some? && airtime <= Budget(cfg)
    requires cfg.maxDwellMs.Some? ==> airtime * 1000.0 <= cfg.maxDwellMs.value
    requires Check(cfg, events, airtime, now).0.Exceeded?
    ensures Check(cfg, events, airtime, now).0.wait >= 0.0
    ensures HasRoom(cfg, log, airtime, t) <==> t > now + Check(cfg, events, airtime, now).0.wait
  {
    hide Check, HasRoom, Prune;
    RemembersInOrder(cfg, log, events, clock);
    WaitIsTight(cfg, events, airtime, now, t);
    CheckRemembers(cfg, log, events, clock, airtime, now);
    PermittedExactly(cfg, log, Check(cfg, events, airtime, now).1, now, airtime, t);
  }

  lemma RemembersInOrder(cfg: Config, log: seq<Event>, events: seq<Event>, clock: real)
    requires Remembers(cfg, log, events, clock)
    ensures NonNegative(events) && Sorted(events)
  {}

  /** Waiting out the whole window is the answer exactly when the frame alone is over budget. */
  lemma WholeWindowFallthrough(cfg: Config, events: seq<Event>, airtime: real, now: real)
    requires cfg.dutyCycle.Some? && !DwellViolation(cfg, airtime) && NonNegative(events)
    requires Check(cfg, events, airtime, now).0.Exceeded?
    ensures var kept := Prune(events, now - cfg.window);
      FreedAt(kept, Total(kept) + airtime - Budget(cfg), 0.0).None? <==> airtime > Budget(cfg)
  {
    var m := PruneIsSuffix(events, now - cfg.window);
    var kept := events[m..];
    var i := FreedAtIsFirst(kept, Total(kept) + airtime - Budget(cfg), 0.0);
  }

  lemma DwellRefusal(cfg: Config, events: seq<Event>, airtime: real, now: real)
    requires cfg.maxDwellMs.Some? && airtime * 1000.0 > cfg.maxDwellMs.value
    ensures Check(cfg, events, airtime, now) == (Exceeded(0.0), events)
  {}

  /** A frame over the whole budget by itself never has room, and is refused with the whole window for
      its wait; any other has room at some time. */
  lemma OverBudgetExactly(cfg: Config, log: seq<Event>, events: seq<Event>, clock: real, airtime: real, now: real)
    requires Remembers(cfg, log, events, clock) && clock <= now && cfg.dutyCycle.Some?
    requires cfg.maxDwellMs.Some? ==> airtime * 1000.0 <= cfg.maxDwellMs.value
    ensures airtime > Budget(cfg) <==> forall t :: t >= now ==> !HasRoom(cfg, log, airtime, t)
    ensures airtime > Budget(cfg) ==> Check(cfg, events, airtime, now).0 == Exceeded(cfg.window)
  {
    hide Load, Total, Prune, FreedAt;
    if airtime > Budget(cfg) {
      forall t | t >= now ensures !HasRoom(cfg, log, airtime, t) {
        LoadNonNegative(log, t - cfg.window, t);
      }
      PermittedExactly(cfg, log, events, clock, airtime, now);
      RemembersInOrder(cfg, log, events, clock);
      WholeWindowFallthrough(cfg, events, airtime, now);
    } else {
      var late := if clock + cfg.window + 1.0 > now then clock + cfg.window + 1.0 else now;
      LoadBelow(log, late - cfg.window, late);
      assert HasRoom(cfg, log, airtime, late);
    }
  }

  lemma {:induction false} LoadNonNegative(log: seq<Event>, lo: real, hi: real)
    requires NonNegative(log)
    ensures Load(log, lo, hi) >= 0.0
  {
    if log != [] { LoadNonNegative(log[1..], lo, hi); }
  }
}
