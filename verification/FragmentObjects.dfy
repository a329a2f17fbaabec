/** The reassembly buffer object. */
module FragmentObjects {
  import opened SymbolicCrypto
  import P = Packet
  import F = Fragment

  class Reassembler {
    const cfg: F.Config
    var pending: F.Pending

    constructor (cfg: F.Config)
      ensures this.cfg == cfg && pending == map[]
    {
      this.cfg := cfg;
      pending := map[];
    }

    method Expire(now: real)
      modifies this
      ensures pending == F.Expire(old(pending), cfg.timeout, now)
    {
      var todo := pending.Keys;
      while todo != {}
        invariant todo <= pending.Keys <= old(pending).Keys
        invariant forall id :: id in pending ==> pending[id] == old(pending)[id]
        invariant forall id :: id in old(pending) && id !in todo ==>
          (id in pending <==> now - old(pending)[id].firstSeen <= cfg.timeout)
        decreases todo
      {
        var id :| id in todo;
        todo := todo - {id};
        if now - pending[id].firstSeen > cfg.timeout {
          pending := pending - {id};
        }
      }
    }

    /** An entry first seen no later than any other; which one, when several tie, is left open. */
    method Oldest() returns (oldest: Bytes)
      requires pending != map[]
      ensures F.IsOldest(pending, oldest)
    {
      assert pending.Keys != {};
      oldest :| oldest in pending.Keys;
      var todo := pending.Keys - {oldest};
      while todo != {}
        invariant todo <= pending.Keys && oldest in pending
        invariant forall id :: id in pending && id !in todo ==> pending[oldest].firstSeen <= pending[id].firstSeen
        decreases todo
      {
        var id :| id in todo;
        todo := todo - {id};
        if pending[id].firstSeen < pending[oldest].firstSeen {
          oldest := id;
        }
      }
    }

    method Add(p: P.Packet, now: real) returns (result: F.Result, ghost victim: Bytes)
      requires P.Valid(p) && cfg.maxPending >= 1
      modifies this
      ensures F.Evicts(cfg, old(pending), p, now, victim)
      ensures result == F.Add(cfg, old(pending), p, now, victim).0
      ensures pending == F.Add(cfg, old(pending), p, now, victim).1
    {
      victim := [];
      Expire(now);
      if p.fragCount == 1 {
        return F.Complete(p.payload), victim;
      }
      if p.msgId !in pending {
        if |pending| >= cfg.maxPending {
          var oldest := Oldest();
          victim := oldest;
          pending := pending - {oldest};
        }
        pending := pending[p.msgId := F.Partial(p.fragCount, p.ptype, map[], 0, now)];
      }
      result := Insert(p);
    }

    method Insert(p: P.Packet) returns (result: F.Result)
      requires p.msgId in pending
      modifies this
      ensures result == F.Insert(cfg, old(pending), p).0 && pending == F.Insert(cfg, old(pending), p).1
    {
      var part := pending[p.msgId];
      if part.fragCount != p.fragCount || part.ptype != p.ptype {
        pending := pending - {p.msgId};
        return F.Inconsistent;
      }
      if p.fragIndex in part.fragments {
        return F.Waiting;
      }
      if part.totalBytes + |p.payload| > cfg.maxBytes {
        pending := pending - {p.msgId};
        return F.TooLarge;
      }
      part := part.(fragments := part.fragments[p.fragIndex := p.payload], totalBytes := part.totalBytes + |p.payload|);
      if |part.fragments| == part.fragCount {
        pending := pending - {p.msgId};
        return F.Complete(F.Assembled(part));
      }
      pending := pending[p.msgId := part];
      result := F.Waiting;
    }
  }
}
