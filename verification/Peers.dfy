/** What a node knows of its peers, and which one it would sync from. */
module Peers {
  import opened Types

  datatype Info = Info(
    tipHeight: nat, tipHash: Hash, cumWork: nat,
    lastRtt: nat,                 // 0 when unknown
    timeouts: nat, errors: nat,
    cooldownUntil: Option<int>)

  predicate Usable(p: Info, now: int) {
    p.cooldownUntil.None? || p.cooldownUntil.value <= now
  }

  /** `p` would be chosen over `q`, or is as good: more work, then more height, then the lower known RTT. */
  ghost predicate AtLeast(p: Info, q: Info) {
    || p.cumWork > q.cumWork
    || (p.cumWork == q.cumWork && p.tipHeight > q.tipHeight)
    || (p.cumWork == q.cumWork && p.tipHeight == q.tipHeight
        && (q.lastRtt == 0 || (0 < p.lastRtt <= q.lastRtt)))
  }

  lemma AtLeastIsTotalOrder(p: Info, q: Info, r: Info)
    ensures AtLeast(p, q) || AtLeast(q, p)
    ensures AtLeast(p, q) && AtLeast(q, r) ==> AtLeast(p, r)
  {}

  class Manager {
    var peers: map<string, Info>
    const backoff: int
    const zero: Hash

    constructor (backoffMs: int, zeroHash: Hash)
      ensures peers == map[] && backoff == (if backoffMs <= 0 then 800 else backoffMs) && zero == zeroHash
    {
      peers := map[];
      backoff := if backoffMs <= 0 then 800 else backoffMs;
      zero := zeroHash;
    }

    /** The known record, or a new one. */
    function Ensured(id: string): Info
      reads this
    {
      if id in peers then peers[id] else Info(0, zero, 0, 0, 0, 0, None)
    }

    method Upsert(id: string)
      modifies this
      ensures peers == if id == "" || id in old(peers) then old(peers)
                       else old(peers)[id := Info(0, zero, 0, 0, 0, 0, None)]
    {
      if id == "" || id in peers {
        return;
      }
      peers := peers[id := Ensured(id)];
    }

    /** Record an advertised tip. A cooldown that has run out is cleared; a running one stays. */
    method UpdateTip(id: string, height: nat, tipHash: Hash, cumWork: nat, rtt: nat, now: int)
      modifies this
      ensures id == "" ==> peers == old(peers)
      ensures id != "" ==>
                && peers.Keys == old(peers).Keys + {id}
                && (forall k | k in old(peers) && k != id :: peers[k] == old(peers)[k])
                && var p := peers[id];
                   && p.tipHeight == height && p.tipHash == tipHash && p.cumWork == cumWork && p.lastRtt == rtt
                   && p.timeouts == old(Ensured(id)).timeouts && p.errors == old(Ensured(id)).errors
                   && (Usable(p, now) <==> old(Usable(Ensured(id), now)))
                   && (!Usable(p, now) ==> p.cooldownUntil == old(Ensured(id)).cooldownUntil)
    {
      if id == "" {
        return;
      }
      var p := Ensured(id);
      p := p.(tipHeight := height, tipHash := tipHash, cumWork := cumWork, lastRtt := rtt);
      if p.cooldownUntil.Some? && p.cooldownUntil.value < now {
        p := p.(cooldownUntil := None);
      }
      peers := peers[id := p];
    }

    /** A timeout or error puts the peer on cooldown: it is unusable strictly before now + backoff. */
    method ReportFailure(id: string, timeout: bool, now: int)
      modifies this
      ensures id == "" ==> peers == old(peers)
      ensures id != "" ==>
                && peers.Keys == old(peers).Keys + {id}
                && (forall k | k in old(peers) && k != id :: peers[k] == old(peers)[k])
                && var (p, was) := (peers[id], old(Ensured(id)));
                   && p.cumWork == was.cumWork && p.tipHeight == was.tipHeight
                   && p.tipHash == was.tipHash && p.lastRtt == was.lastRtt
                   && p.timeouts == was.timeouts + (if timeout then 1 else 0)
                   && p.errors == was.errors + (if timeout then 0 else 1)
                   && forall t :: Usable(p, t) <==> now + backoff <= t
    {
      if id == "" {
        return;
      }
      var p := Ensured(id);
      p := if timeout then p.(timeouts := p.timeouts + 1) else p.(errors := p.errors + 1);
      peers := peers[id := p.(cooldownUntil := Some(now + backoff))];
    }

    /** The best usable peer, whatever order the map is visited in; none only when all are cooling down. */
    method BestPeer(now: int) returns (best: Option<string>)
      ensures best.None? <==> forall k | k in peers :: !Usable(peers[k], now)
      ensures best.Some? ==>
                && best.value in peers && Usable(peers[best.value], now)
                && forall k | k in peers && Usable(peers[k], now) :: AtLeast(peers[best.value], peers[k])
      // in terms of the records: among the peers not cooling down none has more work than the chosen one, none of
      // equal work more height, and none equal in both a lower known RTT
      ensures best.Some? ==>
                && best.value in peers
                && (peers[best.value].cooldownUntil.None? || peers[best.value].cooldownUntil.value <= now)
                && forall k | k in peers && (peers[k].cooldownUntil.None? || peers[k].cooldownUntil.value <= now) ::
                     var (p, q) := (peers[best.value], peers[k]);
                     && q.cumWork <= p.cumWork
                     && (q.cumWork == p.cumWork ==> q.tipHeight <= p.tipHeight)
                     && (q.cumWork == p.cumWork && q.tipHeight == p.tipHeight && q.lastRtt > 0 ==>
                           0 < p.lastRtt <= q.lastRtt)
    {
      best := None;
      var pending := peers.Keys;
      while pending != {}
        invariant pending <= peers.Keys
        invariant best.None? ==> forall k | k in peers && k !in pending :: !Usable(peers[k], now)
        invariant best.Some? ==>
                    && best.value in peers && Usable(peers[best.value], now)
                    && forall k | k in peers && k !in pending && Usable(peers[k], now) ::
                         AtLeast(peers[best.value], peers[k])
        decreases pending
      {
        var id :| id in pending;
        pending := pending - {id};
        var p := peers[id];
        if p.cooldownUntil.Some? && p.cooldownUntil.value > now {
          continue;
        }
        if best.None? {
          best := Some(id);
          continue;
        }
        var b := peers[best.value];
        if p.cumWork > b.cumWork {
          best := Some(id);
        } else if p.cumWork < b.cumWork {
          continue;
        } else if p.tipHeight > b.tipHeight {
          best := Some(id);
        } else if p.tipHeight < b.tipHeight {
          continue;
        } else if b.lastRtt == 0 || (p.lastRtt > 0 && p.lastRtt < b.lastRtt) {
          best := Some(id);
        }
      }
    }
  }
}
