/** The governor object, and the transport that checks and records under one lock. */
module AirtimeObjects {
  import A = Airtime

  class DutyCycleGovernor {
    const cfg: A.Config
    var events: seq<A.Event>

    constructor (cfg: A.Config)
      ensures this.cfg == cfg && events == []
    {
      this.cfg := cfg;
      events := [];
    }

    method Prune(now: real)
      modifies this
      ensures events == A.Prune(old(events), now - cfg.window)
    {
      var cutoff := now - cfg.window;
      while events != [] && events[0].at < cutoff
        invariant A.Prune(events, cutoff) == A.Prune(old(events), cutoff)
        decreases |events|
      {
        events := events[1..];
      }
    }

    method UsedAirtime(now: real) returns (used: real)
      modifies this
      ensures events == A.Prune(old(events), now - cfg.window) && used == A.Total(events)
    {
      Prune(now);
      used := Sum();
    }

    method Sum() returns (used: real)
      ensures used == A.Total(events)
    {
      used := 0.0;
      for i := 0 to |events|
        invariant used + A.Total(events[i..]) == A.Total(events)
      {
        used := used + events[i].airtime;
      }
    }

    method Check(airtime: real, now: real) returns (verdict: A.Verdict)
      modifies this
      ensures (verdict, events) == A.Check(cfg, old(events), airtime, now)
    {
      if A.DwellViolation(cfg, airtime) {
        return A.Exceeded(0.0);
      }
      if cfg.dutyCycle.None? {
        return A.Permitted;
      }
      Prune(now);
      var used := Sum();
      if used + airtime <= A.Budget(cfg) {
        return A.Permitted;
      }
      var needed := used + airtime - A.Budget(cfg);
      var freed := 0.0;
      for i := 0 to |events|
        invariant A.FreedAt(events[i..], needed, freed) == A.FreedAt(events, needed, 0.0)
      {
        freed := freed + events[i].airtime;
        if freed >= needed {
          var wait := events[i].at + cfg.window - now;
          return A.Exceeded(if wait > 0.0 then wait else 0.0);
        }
      }
      verdict := A.Exceeded(cfg.window);
    }

    method Record(airtime: real, now: real)
      modifies this
      ensures events == A.Record(cfg, old(events), airtime, now)
    {
      events := events + [A.Event(now, airtime)];
      Prune(now);
    }
  }

  /** How a send ends: not started, longer than the link takes, refused, raised by the radio, or sent. */
  datatype Outcome = Stopped | Oversized | Refused(wait: real) | Raised | Sent

  /** `Send` holds the transmit lock from its check to its recording, so calls never interleave. */
  class LoRaTransport {
    const governor: DutyCycleGovernor
    const mtu: nat
    var running: bool
    var framesSent: nat
    ghost var log: seq<A.Event>
    ghost var clock: real

    ghost predicate Valid()
      reads this, governor
    {
      && A.Remembers(governor.cfg, log, governor.events, clock)
      && |log| == framesSent
      && (governor.cfg.dutyCycle.Some? ==> A.EveryWindowWithinBudget(governor.cfg, log))
    }

    constructor (cfg: A.Config, mtu: nat, now: real)
      requires cfg.dutyCycle.Some? ==> A.Budget(cfg) >= 0.0
      ensures Valid() && fresh(governor) && governor.cfg == cfg && this.mtu == mtu && log == [] && clock == now
      ensures !running
    {
      governor := new DutyCycleGovernor(cfg);
      this.mtu, running, framesSent, log, clock := mtu, false, 0, [], now;
      new;
      if cfg.dutyCycle.Some? {
        A.AnyWindow(cfg, now, []);
      }
    }

    /** `raised` says whether writing to the radio raises: such a frame is not recorded. */
    method Send(frameLen: nat, airtime: real, checkAt: real, recordAt: real, raised: bool) returns (outcome: Outcome)
      requires Valid() && airtime >= 0.0 && clock <= checkAt <= recordAt
      modifies this, governor
      ensures Valid() && running == old(running)
      ensures var verdict := A.Check(governor.cfg, old(governor.events), airtime, checkAt).0;
        outcome == if !running then Stopped
                   else if frameLen > mtu then Oversized
                   else if verdict.Exceeded? then Refused(verdict.wait)
                   else if raised then Raised
                   else Sent
      ensures running && frameLen <= mtu ==>
        (outcome.Refused? <==> !A.HasRoom(governor.cfg, old(log), airtime, checkAt))
      ensures log == if outcome.Sent? then old(log) + [A.Event(recordAt, airtime)] else old(log)
      ensures outcome.Stopped? || outcome.Oversized? ==> governor.events == old(governor.events) && clock == old(clock)
    {
      hide A.Remembers, A.EveryWindowWithinBudget, A.Check, A.Record, A.HasRoom;
      if !running {
        return Stopped;
      }
      if frameLen > mtu {
        return Oversized;
      }
      ghost var before := governor.events;
      A.PermittedExactly(governor.cfg, log, before, clock, airtime, checkAt);
      var verdict := governor.Check(airtime, checkAt);
      A.CheckRemembers(governor.cfg, log, before, clock, airtime, checkAt);
      if verdict.Exceeded? {
        clock := checkAt;
        return Refused(verdict.wait);
      }
      if raised {
        clock := checkAt;
        return Raised;
      }
      if governor.cfg.dutyCycle.Some? {
        A.PermittedKeepsBudget(governor.cfg, log, before, clock, airtime, checkAt, recordAt);
      }
      A.RecordRemembers(governor.cfg, log, governor.events, checkAt, airtime, recordAt);
      governor.Record(airtime, recordAt);
      framesSent := framesSent + 1;
      log := log + [A.Event(recordAt, airtime)];
      clock := recordAt;
      outcome := Sent;
    }
  }
}
