/** A download from peers that never answer: the ticker's rounds retry, give up, and back off, and the first decision
    after the backoff asks the best peer of that moment. */
module Silence {
  import opened Types
  import opened Window
  import opened Syncer

  /** What one round of the ticker finds: the time, the best peer (none is "") for retries and for queued blocks, the
      blocks held, and then the best peer with its height and work, and the local chain's work and height. Reported
      timeouts may change the best peer within a round. */
  datatype Probe = Probe(now: int, retryAt: string, askAt: string, have: set<Hash>, best: Option<(string, nat, nat)>,
                         work: nat, height: nat)

  /** The best peer, if any, is ahead. */
  ghost predicate Lags(p: Probe) {
    p.best.None? || p.work < p.best.value.2 || p.height < p.best.value.1
  }

  /** So it is in every round, and consecutive rounds are at most `gap` apart. */
  ghost predicate StaysBehind(probes: seq<Probe>, gap: nat) {
    && (forall i | 0 <= i < |probes| :: Lags(probes[i]))
    && (forall i | 0 < i < |probes| :: probes[i].now <= probes[i - 1].now + gap)
  }

  /** A sync request asked for `attempts` times so far is due by then. */
  function DueBy(start: int, retries: nat, unit: int): int { start + retries * unit }

  lemma OneRetryLater(start: int, retries: nat, most: nat, unit: int)
    requires unit >= 0
    ensures DueBy(start, 0, unit) == start && DueBy(start, retries + 1, unit) == DueBy(start, retries, unit) + unit
    ensures start <= DueBy(start, retries, unit)
    ensures retries <= most ==> DueBy(start, retries, unit) <= start + most * unit
  {
    assert (retries + 1) * unit == retries * unit + unit;
    if retries <= most {
      assert (most - retries) * unit >= 0;
      assert most * unit == retries * unit + (most - retries) * unit;
    }
  }

  /** The ticker's rounds while nothing arrives: timeouts, dispatch, decision. A node that downloads blocks, with some
      sync request in flight, backs off: all retries of that request fit into `retryLimit` times a timeout and a
      gap. When it does, no sync block is queued or in flight and no peer is kept. Other requests may come and go,
      and the best peer may change. */
  method BacksOff(sy: Syncer, probes: seq<Probe>, ghost h: Hash, ghost start: int, ghost gap: nat) returns (k: nat)
    requires sy.Valid() && sy.state == SyncingBlocks && sy.cfg.syncTimeout > 0 && sy.cfg.backoff >= 0
    requires h in sy.inflightBlocks && sy.inflightBlocks[h].kind == Sync && sy.inflightBlocks[h].deadline <= start
    requires StaysBehind(probes, gap) && probes != [] && probes[0].now <= start
    requires probes[|probes| - 1].now >= start + (sy.cfg.retryLimit - 1) * (sy.cfg.syncTimeout + gap)
    modifies sy
    ensures sy.Valid() && 0 < k <= |probes|
    ensures sy.state == Backoff && sy.backoffUntil == probes[k - 1].now + sy.cfg.backoff && sy.syncPeer == ""
    ensures sy.queueSync == [] && forall x | x in sy.inflightBlocks :: sy.inflightBlocks[x].kind != Sync
  {
    hide WindowOk, Dispatched, WindowFilled, Carries, Resends, Ticked, WithoutSync, DueBy, SingleHashes, BatchHashes;
    k := 0;
    ghost var a0, unit: int := sy.inflightBlocks[h].attempts, sy.cfg.syncTimeout + gap;
    AttemptsWithin(sy.cfg, sy.zero, sy.Snapshot(), h);
    OneRetryLater(start, 0, 0, unit);
    while k < |probes| && sy.state == SyncingBlocks
      invariant k <= |probes| && sy.Valid() && (sy.state == SyncingBlocks || sy.state == Backoff)
      invariant sy.state == SyncingBlocks ==>
                  && h in sy.inflightBlocks && sy.inflightBlocks[h].kind == Sync
                  && a0 <= sy.inflightBlocks[h].attempts <= sy.cfg.retryLimit
                  && sy.inflightBlocks[h].deadline <= DueBy(start, sy.inflightBlocks[h].attempts - a0, unit)
                  && (k > 0 ==> probes[k - 1].now < sy.inflightBlocks[h].deadline)
      invariant sy.state == Backoff ==>
                  && k > 0 && sy.backoffUntil == probes[k - 1].now + sy.cfg.backoff && sy.syncPeer == ""
                  && sy.queueSync == [] && forall x | x in sy.inflightBlocks :: sy.inflightBlocks[x].kind != Sync
      decreases |probes| - k
    {
      ghost var r, due := sy.inflightBlocks[h].attempts - a0, sy.inflightBlocks[h].deadline;
      OneRetryLater(start, r, 0, unit);
      assert probes[k].now <= DueBy(start, r, unit) + gap;
      Round(sy, probes[k], h);
      assert sy.state == SyncingBlocks ==>
          var now := sy.inflightBlocks[h];
          || (now.attempts - a0 == r && now.deadline == due)
          || (now.attempts - a0 == r + 1 && now.deadline <= DueBy(start, r + 1, unit));
      k := k + 1;
    }
    if sy.state == SyncingBlocks {
      OneRetryLater(start, sy.inflightBlocks[h].attempts - a0, sy.cfg.retryLimit - 1, unit);
      assert false;
    }
  }

  lemma AttemptsWithin(cfg: Config, zero: Hash, s: State, h: Hash)
    requires WindowOk(cfg, zero, s) && h in s.inflight
    ensures 1 <= s.inflight[h].attempts <= cfg.retryLimit
  {}

  /** One round. The request is not due yet, or was retried, or was spent and the node has backed off. */
  method Round(sy: Syncer, p: Probe, ghost h: Hash)
    requires sy.Valid() && sy.state == SyncingBlocks && sy.cfg.backoff >= 0
    requires h in sy.inflightBlocks && sy.inflightBlocks[h].kind == Sync
    requires Lags(p)
    modifies sy
    ensures sy.Valid()
    ensures sy.state == SyncingBlocks || sy.state == Backoff
    ensures sy.state == SyncingBlocks ==>
              && h in sy.inflightBlocks && sy.inflightBlocks[h].kind == Sync
              && var (r, now) := (old(sy.inflightBlocks)[h], sy.inflightBlocks[h]);
                 if p.now < r.deadline then now == r
                 else now.attempts == r.attempts + 1 <= sy.cfg.retryLimit && now.deadline == p.now + sy.cfg.syncTimeout
    ensures sy.state == Backoff ==>
              && sy.backoffUntil == p.now + sy.cfg.backoff && sy.syncPeer == ""
              && sy.queueSync == [] && forall x | x in sy.inflightBlocks :: sy.inflightBlocks[x].kind != Sync
  {
    hide WindowOk, Dispatched, WindowFilled, Carries, Resends, Ticked, WithoutSync, SingleHashes, BatchHashes;
    var _, _, _ := sy.TickInflight(p.now, p.retryAt);
    ghost var was := sy.Snapshot();
    var singles, batches, sent := sy.DispatchQueuedBlocks(p.now, p.askAt, p.have);
    ghost var c := Context(sy.cfg, p.askAt, if sy.syncPeer == "" then p.askAt else sy.syncPeer, p.have, p.now);
    DispatchMeans(c, sy.zero, was, sy.Snapshot(), sent, singles, batches);
    DrainedSync(c, sy.zero, was, sy.Snapshot(), sent);
    var request := sy.Advance(p.now, p.best, p.work, p.height);
  }

  /** With no sync block queued a dispatch asks for none. */
  lemma DrainedSync(c: Context, zero: Hash, was: State, now: State, sent: seq<Hash>)
    requires Dispatched(c, zero, was, now, sent)
    ensures was.syncs.items == [] ==> now.syncs.items == []
    ensures was.syncs.from == map[] ==>
              forall h | h in now.inflight && h !in was.inflight :: now.inflight[h].kind != Sync
  {}

  /** The first decision after a backoff has run out, behind a usable peer, asks that peer for headers. */
  method AsksAfterBackoff(sy: Syncer, p: Probe) returns (request: Option<string>)
    requires sy.Valid() && sy.state == Backoff && p.best.Some?
    requires p.work < p.best.value.2 || p.height < p.best.value.1
    requires p.best.value.0 != "" && p.best.value.0 != sy.cfg.nodeId
    modifies sy
    ensures sy.Valid()
    ensures sy.backoffUntil < p.now ==>
              request == Some(p.best.value.0) && sy.state == SyncingHeaders && sy.syncPeer == p.best.value.0
    ensures p.now <= sy.backoffUntil ==>
              request == None && sy.state == Backoff && sy.Snapshot() == old(sy.Snapshot())
  {
    request := sy.Advance(p.now, p.best, p.work, p.height);
  }
}
