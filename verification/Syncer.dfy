/** The syncer: a headers-first state machine over a bounded window of block requests. */
module Syncer {
  import opened Types
  import opened Window

  datatype Phase = Idle | SyncingHeaders | SyncingBlocks | Backoff

  datatype Single = Single(to: string, hash: Hash)           // GetBlock
  datatype Batch = Batch(to: string, hashes: seq<Hash>)      // GetBlocks

  /** Where the state machine stands: phase, peer synced from, failed header requests, one outstanding or not. */
  datatype Control = Control(phase: Phase, peer: string, retries: nat, asked: bool)

  /** An answered, or failed, header request. */
  datatype HeadersResult = HeadersResult(peer: string, ok: bool, metas: seq<BlockMeta>)

  function SingleHashes(ss: seq<Single>): seq<Hash> { seq(|ss|, i requires 0 <= i < |ss| => ss[i].hash) }

  function BatchHashes(bs: seq<Batch>): seq<Hash>
    decreases |bs|
  {
    if bs == [] then [] else BatchHashes(bs[..|bs| - 1]) + bs[|bs| - 1].hashes
  }

  lemma NoBatchHashes()
    ensures BatchHashes([]) == []
  {}

  lemma BatchHashesSnoc(bs: seq<Batch>, b: Batch)
    ensures BatchHashes(bs + [b]) == BatchHashes(bs) + b.hashes
  {
    assert (bs + [b])[..|bs + [b]| - 1] == bs;
  }

  lemma {:induction false} BatchHashesConcat(xs: seq<Batch>, ys: seq<Batch>)
    ensures BatchHashes(xs + ys) == BatchHashes(xs) + BatchHashes(ys)
    decreases |ys|
  {
    hide BatchHashes;
    if ys == [] {
      assert xs + ys == xs;
      NoBatchHashes();
    } else {
      var init, last := ys[..|ys| - 1], ys[|ys| - 1];
      BatchHashesConcat(xs, init);
      assert ys == init + [last] && xs + ys == (xs + init) + [last];
      BatchHashesSnoc(xs + init, last);
      BatchHashesSnoc(init, last);
      assert (BatchHashes(xs) + BatchHashes(init)) + last.hashes == BatchHashes(xs) + (BatchHashes(init) + last.hashes);
    }
  }

  /** The messages carry exactly the hashes `sent`, each to the peer its request records, in batches
      that are neither empty nor over the limit. */
  ghost predicate Carries(singles: seq<Single>, batches: seq<Batch>, sent: seq<Hash>,
                          inflight: map<Hash, Request>, limit: nat) {
    && multiset(SingleHashes(singles)) + multiset(BatchHashes(batches)) == multiset(sent)
    && (forall m | m in singles :: m.hash in inflight && inflight[m.hash].peer == m.to)
    && (forall b | b in batches :: 0 < |b.hashes| <= limit
          && forall h | h in b.hashes :: h in inflight && inflight[h].peer == b.to)
  }

  lemma CarriesSingle(singles: seq<Single>, batches: seq<Batch>, sent: seq<Hash>,
                      inflight: map<Hash, Request>, limit: nat, h: Hash, r: Request)
    requires Carries(singles, batches, sent, inflight, limit) && h !in inflight
    ensures Carries(singles + [Single(r.peer, h)], batches, sent + [h], inflight[h := r], limit)
  {
    var now := inflight[h := r];
    var more := singles + [Single(r.peer, h)];
    assert SingleHashes(more) == SingleHashes(singles) + [h];
    SumGrows(SingleHashes(singles), BatchHashes(batches), sent, h);
    forall m | m in more ensures m.hash in now && now[m.hash].peer == m.to {
      assert m in singles || m == Single(r.peer, h);
    }
    forall b | b in batches
      ensures 0 < |b.hashes| <= limit && forall x | x in b.hashes :: x in now && now[x].peer == b.to
    {}
  }

  lemma SumGrows(xs: seq<Hash>, ys: seq<Hash>, zs: seq<Hash>, h: Hash)
    requires multiset(xs) + multiset(ys) == multiset(zs)
    ensures multiset(xs + [h]) + multiset(ys) == multiset(zs + [h])
  {}

  lemma CarriesBatch(singles: seq<Single>, batches: seq<Batch>, before: seq<Hash>, was: map<Hash, Request>,
                     sent: seq<Hash>, now: map<Hash, Request>, limit: nat, b: Batch)
    requires Carries(singles, batches, before, was, limit) && sent == before + b.hashes
    requires forall h | h in was :: h in now && now[h] == was[h]
    requires |b.hashes| <= limit && forall h | h in b.hashes :: h in now && now[h].peer == b.to
    ensures Carries(singles, if b.hashes == [] then batches else batches + [b], sent, now, limit)
  {
    hide BatchHashes;
    if b.hashes == [] {
      assert sent == before;
      BatchesStay(batches, was, now, limit);
    } else {
      BatchHashesSnoc(batches, b);
      assert multiset(BatchHashes(batches) + b.hashes) == multiset(BatchHashes(batches)) + multiset(b.hashes);
      BatchesStay(batches, was, now, limit);
    }
  }

  lemma BatchesStay(batches: seq<Batch>, was: map<Hash, Request>, now: map<Hash, Request>, limit: nat)
    requires forall h | h in was :: h in now && now[h] == was[h]
    requires forall b | b in batches ::
               0 < |b.hashes| <= limit && forall h | h in b.hashes :: h in was && was[h].peer == b.to
    ensures forall b | b in batches ::
              0 < |b.hashes| <= limit && forall h | h in b.hashes :: h in now && now[h].peer == b.to
  {}

  class Syncer {
    const cfg: Config
    const zero: Hash

    var queueParent: seq<Hash>
    var queueSync: seq<Hash>
    var queueInv: seq<Hash>
    var queuedParent: map<Hash, string>
    var queuedSync: map<Hash, string>
    var queuedInv: map<Hash, string>
    var inflightBlocks: map<Hash, Request>

    var state: Phase
    var syncPeer: string
    var backoffUntil: int
    var headerReqInFlight: bool
    var headerRetries: nat

    ghost function Snapshot(): State
      reads this
    {
      State(Queue(queueParent, queuedParent), Queue(queueSync, queuedSync), Queue(queueInv, queuedInv), inflightBlocks)
    }

    ghost predicate Valid()
      reads this
    {
      && WindowOk(cfg, zero, Snapshot())
      && cfg.maxInflight > 0 && cfg.batchSize > 0 && cfg.retryLimit > 0 && cfg.headerRetryLimit > 0
    }

    ghost function Controls(): Control
      reads this
    {
      Control(state, syncPeer, headerRetries, headerReqInFlight)
    }

    /** Non-positive settings fall back to defaults. */
    constructor (nodeId: string, maxInflight: int, batchSize: int, retryLimit: int, headerRetryLimit: int,
                 syncTimeout: int, backoff: int, zeroHash: Hash)
      ensures Valid() && Snapshot() == State(Queue([], map[]), Queue([], map[]), Queue([], map[]), map[])
      ensures state == Idle && syncPeer == "" && zero == zeroHash
      ensures cfg == Config(nodeId,
                            if maxInflight <= 0 then 16 else maxInflight,
                            if batchSize <= 0 then 64 else batchSize,
                            if retryLimit <= 0 then 3 else retryLimit,
                            if headerRetryLimit <= 0 then 2 else headerRetryLimit,
                            if syncTimeout <= 0 then 2000 else syncTimeout,
                            if backoff <= 0 then 1200 else backoff)
    {
      cfg := Config(nodeId,
                    if maxInflight <= 0 then 16 else maxInflight,
                    if batchSize <= 0 then 64 else batchSize,
                    if retryLimit <= 0 then 3 else retryLimit,
                    if headerRetryLimit <= 0 then 2 else headerRetryLimit,
                    if syncTimeout <= 0 then 2000 else syncTimeout,
                    if backoff <= 0 then 1200 else backoff);
      zero := zeroHash;
      queueParent, queueSync, queueInv := [], [], [];
      queuedParent, queuedSync, queuedInv := map[], map[], map[];
      inflightBlocks := map[];
      state, syncPeer, backoffUntil, headerReqInFlight, headerRetries := Idle, "", 0, false, 0;
    }

    // ---------- queues ----------

    /** Queue a block for download, unless it is held, in flight, or already in that queue. */
    method EnqueueBlock(h: Hash, preferred: string, kind: Kind, have: set<Hash>)
      requires Valid()
      modifies this`queueParent, this`queueSync, this`queueInv, this`queuedParent, this`queuedSync, this`queuedInv
      ensures Valid()
      ensures var was := old(Snapshot());
              Snapshot() == if h == zero || h in have || h in was.inflight || h in QueueOf(was, kind).from then was
                            else WithQueue(was, kind, QueueOf(was, kind).Push(h, preferred))
      // queued at the back, under the peer it came from, exactly where neither held, in flight nor queued already
      ensures var isNew := h != zero && h !in have && h !in inflightBlocks;
              var joins := (kind == Parent && isNew && h !in old(queuedParent),
                            kind == Sync && isNew && h !in old(queuedSync),
                            kind == Inv && isNew && h !in old(queuedInv));
              && queueParent == old(queueParent) + (if joins.0 then [h] else [])
              && queuedParent == (if joins.0 then old(queuedParent)[h := preferred] else old(queuedParent))
              && queueSync == old(queueSync) + (if joins.1 then [h] else [])
              && queuedSync == (if joins.1 then old(queuedSync)[h := preferred] else old(queuedSync))
              && queueInv == old(queueInv) + (if joins.2 then [h] else [])
              && queuedInv == (if joins.2 then old(queuedInv)[h := preferred] else old(queuedInv))
    {
      if h == zero || h in have || h in inflightBlocks {
        return;
      }
      match kind
      case Parent =>
        if h in queuedParent {
          return;
        }
        PushOk(Queue(queueParent, queuedParent), h, preferred, zero);
        queuedParent := queuedParent[h := preferred];
        queueParent := queueParent + [h];
      case Sync =>
        if h in queuedSync {
          return;
        }
        PushOk(Queue(queueSync, queuedSync), h, preferred, zero);
        queuedSync := queuedSync[h := preferred];
        queueSync := queueSync + [h];
      case Inv =>
        if h in queuedInv {
          return;
        }
        PushOk(Queue(queueInv, queuedInv), h, preferred, zero);
        queuedInv := queuedInv[h := preferred];
        queueInv := queueInv + [h];
    }

    /** The first queue with work, by priority. */
    ghost function NextKind(): Kind
      reads this
    {
      if queueParent != [] then Parent else if queueSync != [] then Sync else Inv
    }

    /** Pop by priority: parent, then sync, then inv. The skip of an item missing from its shadow map
        never happens, so one pop removes exactly one item. */
    method PopNextQueued() returns (h: Hash, peer: string, kind: Kind, ok: bool)
      requires Valid()
      modifies this`queueParent, this`queueSync, this`queueInv, this`queuedParent, this`queuedSync, this`queuedInv
      ensures Valid()
      ensures ok <==> old(queueParent) != [] || old(queueSync) != [] || old(queueInv) != []
      ensures !ok ==> Snapshot() == old(Snapshot())
      ensures ok ==> var q := QueueOf(old(Snapshot()), kind);
                     && kind == old(NextKind()) && q.items != [] && h == q.items[0]
                     && h in q.from && peer == q.from[h]
                     && Snapshot() == Popped(old(Snapshot()), kind)
      // the front of the first queue that is not empty: parents, then sync blocks, then announced ones
      ensures if old(queueParent) != [] then
                && kind == Parent && [h] + queueParent == old(queueParent)
                && h in old(queuedParent) && peer == old(queuedParent)[h] && queuedParent == old(queuedParent) - {h}
              else queueParent == [] && queuedParent == old(queuedParent)
      ensures if old(queueParent) == [] && old(queueSync) != [] then
                && kind == Sync && [h] + queueSync == old(queueSync)
                && h in old(queuedSync) && peer == old(queuedSync)[h] && queuedSync == old(queuedSync) - {h}
              else queueSync == old(queueSync) && queuedSync == old(queuedSync)
      ensures if old(queueParent) == [] && old(queueSync) == [] && old(queueInv) != [] then
                && kind == Inv && [h] + queueInv == old(queueInv)
                && h in old(queuedInv) && peer == old(queuedInv)[h] && queuedInv == old(queuedInv) - {h}
              else queueInv == old(queueInv) && queuedInv == old(queuedInv)
    {
      h, peer, kind, ok := zero, "", Sync, false;
      if queueParent != [] {
        TailOk(Queue(queueParent, queuedParent), zero);
        h := queueParent[0];
        queueParent := queueParent[1..];
        peer := queuedParent[h];
        queuedParent := queuedParent - {h};
        kind, ok := Parent, true;
      } else if queueSync != [] {
        TailOk(Queue(queueSync, queuedSync), zero);
        h := queueSync[0];
        queueSync := queueSync[1..];
        peer := queuedSync[h];
        queuedSync := queuedSync - {h};
        kind, ok := Sync, true;
      } else if queueInv != [] {
        TailOk(Queue(queueInv, queuedInv), zero);
        h := queueInv[0];
        queueInv := queueInv[1..];
        peer := queuedInv[h];
        queuedInv := queuedInv - {h};
        kind, ok := Inv, true;
      }
    }

    // ---------- dispatch ----------

    /** Fill the window from the queues. */
    method DispatchQueuedBlocks(now: int, bestPeer: string, have: set<Hash>)
      returns (singles: seq<Single>, batches: seq<Batch>, ghost sent: seq<Hash>)
      requires Valid()
      modifies this`queueParent, this`queueSync, this`queueInv, this`queuedParent, this`queuedSync,
               this`queuedInv, this`inflightBlocks
      ensures Valid()
      ensures var c := Context(cfg, bestPeer, if syncPeer == "" then bestPeer else syncPeer, have, now);
              Dispatched(c, zero, old(Snapshot()), Snapshot(), sent) && WindowFilled(c, Snapshot())
      ensures Carries(singles, batches, sent, inflightBlocks, cfg.batchSize)
    {
      hide WindowOk, Dispatched, Carries;
      var from := if syncPeer == "" then bestPeer else syncPeer;
      ghost var c := Context(cfg, bestPeer, from, have, now);
      ghost var was := Snapshot();
      DispatchStart(c, zero, was);
      CarriesNothing(inflightBlocks, cfg.batchSize);
      singles, sent := DispatchSingles(c, was, now, bestPeer, have);
      batches, sent := DispatchSync(c, was, now, from, have, singles, sent);
      singles, sent := DispatchInv(c, was, now, bestPeer, have, singles, batches, sent);
      DispatchedWindow(c, zero, was, Snapshot(), sent);
    }

    /** Parents first, one block per message; stops at the first sync item, which goes back to the
        front of its queue. */
    method DispatchSingles(ghost c: Context, ghost was: State, now: int, bestPeer: string, have: set<Hash>)
      returns (singles: seq<Single>, ghost sent: seq<Hash>)
      requires Valid() && c.cfg == cfg && c.now == now && c.best == bestPeer && c.have == have
      requires Dispatched(c, zero, was, Snapshot(), []) && Carries([], [], [], inflightBlocks, cfg.batchSize)
      modifies this`queueParent, this`queueSync, this`queueInv, this`queuedParent, this`queuedSync,
               this`queuedInv, this`inflightBlocks
      ensures Valid() && Dispatched(c, zero, was, Snapshot(), sent)
      ensures Carries(singles, [], sent, inflightBlocks, cfg.batchSize)
      ensures |inflightBlocks| < cfg.maxInflight ==> queueParent == [] && (queueSync == [] ==> queueInv == [])
    {
      hide WindowOk, Dispatched, Carries, MayServe;
      singles, sent := [], [];
      while |inflightBlocks| < cfg.maxInflight
        invariant Valid() && Dispatched(c, zero, was, Snapshot(), sent)
        invariant Carries(singles, [], sent, inflightBlocks, cfg.batchSize)
        decreases |queueParent| + |queueSync| + |queueInv|
      {
        ghost var s := Snapshot();
        var h, peer, kind, ok := PopNextQueued();
        if !ok {
          break;
        }
        if kind == Sync {
          queueSync := [h] + queueSync;
          queuedSync := queuedSync[h := peer];
          PutBack(s.syncs);
          assert Snapshot() == s;
          break;
        }
        MayServeNext(c, s, kind);
        singles, sent := ServeSingle(c, was, s, h, peer, kind, now, bestPeer, have, singles, [], sent);
      }
    }

    /** Request one popped block, unless it is held, in flight, or has no usable peer. */
    method ServeSingle(ghost c: Context, ghost was: State, ghost s: State, h: Hash, preferred: string, kind: Kind,
                       now: int, bestPeer: string, have: set<Hash>,
                       singles: seq<Single>, ghost batches: seq<Batch>, ghost sent: seq<Hash>)
      returns (singles': seq<Single>, ghost sent': seq<Hash>)
      requires c.cfg == cfg && c.now == now && c.best == bestPeer && c.have == have && cfg.retryLimit > 0
      requires Dispatched(c, zero, was, s, sent) && Carries(singles, batches, sent, s.inflight, cfg.batchSize)
      requires kind != Sync && QueueOf(s, kind).items != [] && MayServe(c, s, kind)
      requires var q := QueueOf(s, kind); h == q.items[0] && h in q.from && preferred == q.from[h]
      requires Snapshot() == Popped(s, kind) && |s.inflight| < cfg.maxInflight
      modifies this`inflightBlocks
      ensures WindowOk(cfg, zero, Snapshot()) && Dispatched(c, zero, was, Snapshot(), sent')
      ensures Carries(singles', batches, sent', inflightBlocks, cfg.batchSize)
    {
      hide WindowOk, Dispatched, Carries, MayServe;
      singles', sent' := singles, sent;
      var peer := if preferred == "" then bestPeer else preferred;
      if h in have || h in inflightBlocks || peer == "" || peer == cfg.nodeId {
        PopDrops(c, zero, was, s, sent, kind);
        DispatchedWindow(c, zero, was, Snapshot(), sent);
        return;
      }
      PopLaunches(c, zero, was, s, sent, kind, peer);
      ghost var r := Request(peer, kind, 1, now + cfg.syncTimeout);
      CarriesSingle(singles, batches, sent, inflightBlocks, cfg.batchSize, h, r);
      inflightBlocks := inflightBlocks[h := Request(peer, kind, 1, now + cfg.syncTimeout)];
      singles' := singles + [Single(peer, h)];
      sent' := sent + [h];
      assert Snapshot() == Launch(Popped(s, kind), h, r);
      DispatchedWindow(c, zero, was, Snapshot(), sent');
    }

    /** Sync blocks in batches, as large as the batch limit, the window and the queue allow. */
    method DispatchSync(ghost c: Context, ghost was: State, now: int, from: string, have: set<Hash>,
                        ghost singles: seq<Single>, ghost before: seq<Hash>)
      returns (batches: seq<Batch>, ghost sent: seq<Hash>)
      requires Valid() && c.cfg == cfg && c.now == now && c.syncFrom == from && c.have == have
      requires Dispatched(c, zero, was, Snapshot(), before)
      requires Carries(singles, [], before, inflightBlocks, cfg.batchSize)
      requires |inflightBlocks| < cfg.maxInflight ==> queueParent == [] && (queueSync == [] ==> queueInv == [])
      modifies this`queueSync, this`queuedSync, this`inflightBlocks
      ensures Valid() && Dispatched(c, zero, was, Snapshot(), sent)
      ensures Carries(singles, batches, sent, inflightBlocks, cfg.batchSize)
      ensures |inflightBlocks| < cfg.maxInflight ==> queueParent == [] && (queueSync == [] || !UsablePeer(cfg, from))
    {
      hide WindowOk, Dispatched, Carries;
      batches, sent := [], before;
      while |inflightBlocks| < cfg.maxInflight && |queueSync| > 0
        invariant Valid() && Dispatched(c, zero, was, Snapshot(), sent)
        invariant Carries(singles, batches, sent, inflightBlocks, cfg.batchSize)
        invariant |inflightBlocks| < cfg.maxInflight ==> queueParent == []
        decreases |queueSync|
      {
        var remaining := cfg.maxInflight - |inflightBlocks|;
        var bs := cfg.batchSize;
        if bs > remaining {
          bs := remaining;
        }
        if bs > |queueSync| {
          bs := |queueSync|;
        }
        if from == "" || from == cfg.nodeId {
          break;
        }
        ghost var earlier, sentBefore := inflightBlocks, sent;
        var hashes;
        hashes, sent := PopBatch(c, was, bs, now, from, have, sent);
        CarriesBatch(singles, batches, sentBefore, earlier, sent, inflightBlocks, cfg.batchSize, Batch(from, hashes));
        if |hashes| > 0 {
          batches := batches + [Batch(from, hashes)];
        }
      }
    }

    /** Pop `bs` sync items; those neither held nor in flight become one batch. */
    method PopBatch(ghost c: Context, ghost was: State, bs: nat, now: int, from: string, have: set<Hash>,
                    ghost before: seq<Hash>)
      returns (hashes: seq<Hash>, ghost sent: seq<Hash>)
      requires Valid() && c.cfg == cfg && c.now == now && c.syncFrom == from && c.have == have
      requires Dispatched(c, zero, was, Snapshot(), before) && queueParent == [] && UsablePeer(cfg, from)
      requires 0 < bs <= |queueSync| && |inflightBlocks| + bs <= cfg.maxInflight
      modifies this`queueSync, this`queuedSync, this`inflightBlocks
      ensures Valid() && Dispatched(c, zero, was, Snapshot(), sent)
      ensures sent == before + hashes && |hashes| <= bs && |queueSync| == old(|queueSync|) - bs
      ensures forall h | h in old(inflightBlocks) :: h in inflightBlocks && inflightBlocks[h] == old(inflightBlocks)[h]
      ensures forall h | h in hashes :: h in inflightBlocks && inflightBlocks[h].peer == from
    {
      hide WindowOk, Dispatched, MayServe;
      hashes, sent := [], before;
      for i := 0 to bs
        invariant Valid() && Dispatched(c, zero, was, Snapshot(), sent)
        invariant sent == before + hashes && |hashes| <= i && |queueSync| == old(|queueSync|) - i
        invariant |inflightBlocks| + bs - i <= cfg.maxInflight
        invariant forall h | h in old(inflightBlocks) ::
                    h in inflightBlocks && inflightBlocks[h] == old(inflightBlocks)[h]
        invariant forall h | h in hashes :: h in inflightBlocks && inflightBlocks[h].peer == from
      {
        ghost var s := Snapshot();
        FrontQueued(cfg, zero, s, Sync);
        var h := queueSync[0];
        queueSync := queueSync[1..];
        queuedSync := queuedSync - {h};
        assert Snapshot() == Popped(s, Sync);
        if h == zero || h in have || h in inflightBlocks {
          PopDrops(c, zero, was, s, sent, Sync);
        } else {
          MayServeSync(c, s);
          PopLaunches(c, zero, was, s, sent, Sync, from);
          inflightBlocks := inflightBlocks[h := Request(from, Sync, 1, now + cfg.syncTimeout)];
          hashes := hashes + [h];
          sent := sent + [h];
          assert Snapshot() == Launch(Popped(s, Sync), h, inflightBlocks[h]);
        }
        DispatchedWindow(c, zero, was, Snapshot(), sent);
      }
    }

    /** Announced blocks last, one per message. */
    method DispatchInv(ghost c: Context, ghost was: State, now: int, bestPeer: string, have: set<Hash>,
                       before: seq<Single>, ghost batches: seq<Batch>, ghost sentBefore: seq<Hash>)
      returns (singles: seq<Single>, ghost sent: seq<Hash>)
      requires Valid() && c.cfg == cfg && c.now == now && c.best == bestPeer && c.have == have
      requires Dispatched(c, zero, was, Snapshot(), sentBefore)
      requires Carries(before, batches, sentBefore, inflightBlocks, cfg.batchSize)
      requires |inflightBlocks| < cfg.maxInflight ==>
                 queueParent == [] && (queueSync == [] || !UsablePeer(cfg, c.syncFrom))
      modifies this`queueInv, this`queuedInv, this`inflightBlocks
      ensures Valid() && Dispatched(c, zero, was, Snapshot(), sent)
      ensures Carries(singles, batches, sent, inflightBlocks, cfg.batchSize)
      ensures |inflightBlocks| < cfg.maxInflight ==>
                queueParent == [] && (queueSync == [] || !UsablePeer(cfg, c.syncFrom)) && queueInv == []
    {
      hide WindowOk, Dispatched, Carries;
      singles, sent := before, sentBefore;
      while |inflightBlocks| < cfg.maxInflight && |queueInv| > 0
        invariant Valid() && Dispatched(c, zero, was, Snapshot(), sent)
        invariant Carries(singles, batches, sent, inflightBlocks, cfg.batchSize)
        invariant |inflightBlocks| < cfg.maxInflight ==>
                    queueParent == [] && (queueSync == [] || !UsablePeer(cfg, c.syncFrom))
        decreases |queueInv|
      {
        ghost var s := Snapshot();
        FrontQueued(cfg, zero, s, Inv);
        var h := queueInv[0];
        queueInv := queueInv[1..];
        var peer := queuedInv[h];
        queuedInv := queuedInv - {h};
        assert Snapshot() == Popped(s, Inv);
        singles, sent := ServeSingle(c, was, s, h, peer, Inv, now, bestPeer, have, singles, batches, sent);
      }
    }

    method OnBlockArrived(h: Hash)
      requires Valid()
      modifies this`inflightBlocks
      ensures Valid() && inflightBlocks == old(inflightBlocks) - {h}
    {
      WindowOkShrinks(cfg, zero, Snapshot(), {h});
      inflightBlocks := inflightBlocks - {h};
    }

    // ---------- timeouts ----------

    /** Retry what is overdue, drop what is exhausted, and back off if sync work was dropped while syncing. */
    method TickInflight(now: int, bestPeer: string)
      returns (singles: seq<Single>, batches: seq<Batch>, timeouts: seq<string>)
      requires Valid()
      modifies this
      ensures Valid()
      // while syncing, a sync request overdue after its last attempt ends the sync: back off, forget the peer, drop all
      // sync work; otherwise phase, peer, retries and backoff time stay
      ensures var was := old(Snapshot());
              var ticked := was.(inflight := Ticked(cfg, bestPeer, now, was.inflight));
              if (old(state) == SyncingBlocks || old(state) == SyncingHeaders)
                 && (exists h :: h in was.inflight && was.inflight[h].kind == Sync
                                 && was.inflight[h].deadline <= now && was.inflight[h].attempts >= cfg.retryLimit)
              then Snapshot() == WithoutSync(ticked) && state == Phase.Backoff && backoffUntil == now + cfg.backoff
                   && syncPeer == "" && headerRetries == 0 && !headerReqInFlight
                   && queueSync == [] && queuedSync == map[]
                   && forall h | h in inflightBlocks :: inflightBlocks[h].kind != Sync
              else Snapshot() == ticked && Controls() == old(Controls()) && backoffUntil == old(backoffUntil)
      // what stays in flight is not due, or was retried: at the best peer if one is known, one attempt and one
      // timeout on
      ensures forall h | h in inflightBlocks ::
                && h in old(inflightBlocks)
                && var r := old(inflightBlocks)[h];
                   if now < r.deadline then inflightBlocks[h] == r
                   else r.attempts < cfg.retryLimit
                        && inflightBlocks[h] == Request(if bestPeer == "" then r.peer else bestPeer, r.kind,
                                                        r.attempts + 1, now + cfg.syncTimeout)
      ensures state == old(state) ==>
                forall h | h in old(inflightBlocks) && h !in inflightBlocks ::
                  old(inflightBlocks)[h].deadline <= now && old(inflightBlocks)[h].attempts >= cfg.retryLimit
      ensures Resends(singles, batches, cfg, bestPeer, now, old(inflightBlocks))
      // every retry with another node to go to is sent there, and nothing else is sent
      ensures forall h :: h in SingleHashes(singles) || h in BatchHashes(batches) <==>
                && h in old(inflightBlocks)
                && var r := old(inflightBlocks)[h]; var to := if bestPeer == "" then r.peer else bestPeer;
                   r.deadline <= now && r.attempts < cfg.retryLimit && to != "" && to != cfg.nodeId
      ensures forall m | m in singles ::
                m.hash in old(inflightBlocks)
                && m.to == if bestPeer == "" then old(inflightBlocks)[m.hash].peer else bestPeer
      ensures forall b | b in batches :: forall h | h in b.hashes ::
                h in old(inflightBlocks) && b.to == if bestPeer == "" then old(inflightBlocks)[h].peer else bestPeer
      // each overdue request is reported once against the peer it was asked from
      ensures forall peer ::
                multiset(timeouts)[peer]
                == |set h | h in old(inflightBlocks) && old(inflightBlocks)[h].deadline <= now
                            && old(inflightBlocks)[h].peer == peer != ""|
    {
      hide WindowOk, GroupedSoFar, Resends, Ticked, DueFrom, WithoutSync;
      ghost var was := inflightBlocks;
      var retry, failed;
      singles, retry, timeouts, failed := RetryOverdue(now, bestPeer);
      TickedKeepsWindow(cfg, zero, old(Snapshot()), bestPeer, now);
      batches := Chunk(retry, singles, bestPeer, now, was);
      TickMeans(cfg, bestPeer, now, was);
      ResendsMean(singles, batches, cfg, bestPeer, now, was);
      NoneMissedDue(was, now);
      if failed {
        EnterBackoff(now);
      }
    }

    /** The pass over the window: count each overdue request as a timeout of its peer, then drop or retry it. */
    method RetryOverdue(now: int, bestPeer: string)
      returns (singles: seq<Single>, retry: map<string, seq<Hash>>, timeouts: seq<string>, failed: bool)
      modifies this`inflightBlocks
      ensures inflightBlocks == Ticked(cfg, bestPeer, now, old(inflightBlocks))
      ensures failed <==> (state == SyncingBlocks || state == SyncingHeaders)
                          && exists h :: h in old(inflightBlocks) && Spent(cfg, now, old(inflightBlocks)[h])
      ensures GroupedSoFar(cfg, bestPeer, now, old(inflightBlocks), {}, singles, retry)
      ensures forall peer :: multiset(timeouts)[peer] == |DueFrom(old(inflightBlocks), now, {}, peer)|
    {
      hide TickedSoFar, GroupedSoFar, Ticked, DueFrom;
      ghost var was := inflightBlocks;
      TickStart(cfg, bestPeer, now, was);
      NoneDueYet(was, now);
      failed := false;
      retry := map[];
      singles, timeouts := [], [];
      var pending := inflightBlocks.Keys;
      while pending != {}
        invariant pending <= was.Keys
        invariant TickedSoFar(cfg, bestPeer, now, was, inflightBlocks, pending)
        invariant failed <==> (state == SyncingBlocks || state == SyncingHeaders)
                              && exists h :: h in was && h !in pending && Spent(cfg, now, was[h])
        invariant GroupedSoFar(cfg, bestPeer, now, was, pending, singles, retry)
        invariant forall peer :: multiset(timeouts)[peer] == |DueFrom(was, now, pending, peer)|
        decreases pending
      {
        var h :| h in pending;
        ghost var left := pending;
        pending := pending - {h};
        TickStep(cfg, bestPeer, now, was, inflightBlocks, left, h);
        GroupStep(cfg, bestPeer, now, was, left, h, singles, retry);
        DueStep(was, now, left, h);
        var req := inflightBlocks[h];
        if now < req.deadline {
          continue;
        }
        if req.peer != "" {
          timeouts := timeouts + [req.peer];
        }
        if req.attempts >= cfg.retryLimit {
          if req.kind == Sync && (state == SyncingBlocks || state == SyncingHeaders) {
            failed := true;
          }
          inflightBlocks := inflightBlocks - {h};
          continue;
        }
        var peer := if bestPeer != "" then bestPeer else req.peer;
        inflightBlocks := inflightBlocks[h := req.(peer := peer, attempts := req.attempts + 1,
                                                   deadline := now + cfg.syncTimeout)];
        if peer != "" && peer != cfg.nodeId {
          if req.kind == Sync {
            retry := retry[peer := (if peer in retry then retry[peer] else []) + [h]];
          } else {
            singles := singles + [Single(peer, h)];
          }
        }
      }
      TickDone(cfg, bestPeer, now, was, inflightBlocks);
    }

    /** Send each peer its retried sync hashes in batches. */
    method Chunk(retry: map<string, seq<Hash>>, ghost singles: seq<Single>, ghost best: string, ghost now: int,
                 ghost was: map<Hash, Request>)
      returns (batches: seq<Batch>)
      requires cfg.batchSize > 0 && GroupedSoFar(cfg, best, now, was, {}, singles, retry)
      ensures Resends(singles, batches, cfg, best, now, was)
    {
      batches := [];
      var pending := retry.Keys;
      while pending != {}
        invariant pending <= retry.Keys
        invariant ChunkedSoFar(retry, pending, batches, cfg.batchSize)
        decreases pending
      {
        var peer :| peer in pending;
        var hashes := retry[peer];
        ghost var earlier := batches;
        var part := ChunkPeer(peer, hashes);
        BatchHashesConcat(batches, part);
        batches := batches + part;
        ChunkStep(retry, pending, peer, earlier, batches, cfg, best, now, was, singles);
        pending := pending - {peer};
      }
      ChunkDone(retry, batches, cfg, best, now, was, singles);
    }

    method ChunkPeer(peer: string, hashes: seq<Hash>) returns (part: seq<Batch>)
      requires cfg.batchSize > 0
      ensures BatchHashes(part) == hashes
      ensures forall b | b in part ::
                b.to == peer && 0 < |b.hashes| <= cfg.batchSize && forall h | h in b.hashes :: h in hashes
    {
      part := [];
      var i := 0;
      while i < |hashes|
        invariant i <= |hashes| && BatchHashes(part) == hashes[..i]
        invariant forall b | b in part ::
                    b.to == peer && 0 < |b.hashes| <= cfg.batchSize && forall h | h in b.hashes :: h in hashes
      {
        var end := if i + cfg.batchSize > |hashes| then |hashes| else i + cfg.batchSize;
        BatchHashesSnoc(part, Batch(peer, hashes[i..end]));
        assert hashes[..i] + hashes[i..end] == hashes[..end];
        part := part + [Batch(peer, hashes[i..end])];
        i := end;
      }
    }

    // ---------- phases ----------

    /** Drop all sync work, and nothing else. */
    method DropSyncWork()
      requires Valid()
      modifies this`queueSync, this`queuedSync, this`inflightBlocks
      ensures Valid() && Snapshot() == WithoutSync(old(Snapshot()))
      ensures queueSync == [] && queuedSync == map[]
      ensures inflightBlocks == map h | h in old(inflightBlocks) && old(inflightBlocks)[h].kind != Sync ::
                                  old(inflightBlocks)[h]
    {
      ghost var was := Snapshot();
      queueSync, queuedSync := [], map[];
      var pending := inflightBlocks.Keys;
      while pending != {}
        invariant pending <= was.inflight.Keys
        invariant forall h :: h in inflightBlocks <==>
                    h in was.inflight && (h in pending || was.inflight[h].kind != Sync)
        invariant forall h | h in inflightBlocks :: inflightBlocks[h] == was.inflight[h]
        invariant Snapshot() == was.(syncs := Queue([], map[]), inflight := inflightBlocks)
        decreases pending
      {
        var h :| h in pending;
        if inflightBlocks[h].kind == Sync {
          inflightBlocks := inflightBlocks - {h};
        }
        pending := pending - {h};
      }
      WithoutSyncOk(cfg, zero, was);
      assert inflightBlocks == WithoutSync(was).inflight;
    }

    method ResetSyncState()
      requires Valid()
      modifies this
      ensures Valid() && Snapshot() == WithoutSync(old(Snapshot()))
      ensures queueSync == [] && queuedSync == map[]
      ensures inflightBlocks == map h | h in old(inflightBlocks) && old(inflightBlocks)[h].kind != Sync ::
                                  old(inflightBlocks)[h]
      ensures queueParent == old(queueParent) && queueInv == old(queueInv)
      ensures queuedParent == old(queuedParent) && queuedInv == old(queuedInv)
      ensures state == Idle && syncPeer == "" && headerRetries == 0 && !headerReqInFlight
      ensures backoffUntil == old(backoffUntil)
    {
      state, syncPeer, headerRetries, headerReqInFlight := Idle, "", 0, false;
      DropSyncWork();
    }

    method EnterBackoff(now: int)
      requires Valid()
      modifies this
      ensures Valid() && Snapshot() == WithoutSync(old(Snapshot()))
      ensures queueSync == [] && queuedSync == map[]
      ensures inflightBlocks == map h | h in old(inflightBlocks) && old(inflightBlocks)[h].kind != Sync ::
                                  old(inflightBlocks)[h]
      ensures queueParent == old(queueParent) && queueInv == old(queueInv)
      ensures queuedParent == old(queuedParent) && queuedInv == old(queuedInv)
      ensures state == Phase.Backoff && backoffUntil == now + cfg.backoff
      ensures syncPeer == "" && headerRetries == 0 && !headerReqInFlight
    {
      state, backoffUntil := Phase.Backoff, now + cfg.backoff;
      syncPeer, headerRetries, headerReqInFlight := "", 0, false;
      DropSyncWork();
    }

    method SyncWorkDone() returns (done: bool)
      requires Valid()
      ensures done <==> NoSyncWork(Snapshot())
      ensures done <==> queueSync == [] && forall h | h in inflightBlocks :: inflightBlocks[h].kind != Sync
    {
      QueueEmptyIff(Queue(queueSync, queuedSync), zero);
      if |queuedSync| > 0 {
        return false;
      }
      var pending := inflightBlocks.Keys;
      while pending != {}
        invariant pending <= inflightBlocks.Keys
        invariant forall h | h in inflightBlocks && h !in pending :: inflightBlocks[h].kind != Sync
        decreases pending
      {
        var h :| h in pending;
        if inflightBlocks[h].kind == Sync {
          return false;
        }
        pending := pending - {h};
      }
      done := true;
    }

    /** The decision that ends each probe: leave an expired backoff, stop when caught up, start on the best
        peer when idle, ask for headers, or go back to headers once all sync blocks are in. `best` is the
        best peer with its advertised height and work. */
    method Advance(now: int, best: Option<(string, nat, nat)>, localWork: nat, localHeight: nat)
      returns (request: Option<string>)
      requires Valid()
      modifies this
      ensures Valid() && backoffUntil == old(backoffUntil)
      // headers are asked for exactly when behind in work or height, starting (idle, or a backoff has run out) or
      // syncing headers, with none outstanding, and the peer to sync from is another node
      ensures var starts := old(state) == Idle || (old(state) == Phase.Backoff && old(backoffUntil) < now);
              request.Some? <==>
                && best.Some? && (localWork < best.value.2 || localHeight < best.value.1)
                && (starts || old(state) == SyncingHeaders)
                && (!old(headerReqInFlight) || old(state) == Phase.Backoff)
                && var from := if starts || old(syncPeer) == "" then best.value.0 else old(syncPeer);
                   from != "" && from != cfg.nodeId
      ensures request.Some? ==>
                var starts := old(state) == Idle || (old(state) == Phase.Backoff && old(backoffUntil) < now);
                && request.value == (if starts || old(syncPeer) == "" then best.value.0 else old(syncPeer))
                && state == SyncingHeaders && syncPeer == request.value && headerReqInFlight
                && headerRetries == (if starts then 0 else old(headerRetries))
                && Snapshot() == old(Snapshot())
      // without a usable peer only a backoff that has run out ends
      ensures best.None? ==>
                && Snapshot() == old(Snapshot())
                && Controls() ==
                     if old(state) == Phase.Backoff && old(backoffUntil) < now then Control(Idle, "", 0, false)
                     else old(Controls())
      // caught up: idle, with no sync work left and nothing else touched
      ensures best.Some? && localWork >= best.value.2 && localHeight >= best.value.1 ==>
                && state == Idle && syncPeer == "" && headerRetries == 0 && !headerReqInFlight
                && queueSync == [] && queuedSync == map[] && Snapshot() == WithoutSync(old(Snapshot()))
      // still behind, but nothing to ask: a running backoff and a running download stay as they are, and a
      // download ends only when no sync block is queued or in flight
      ensures best.Some? && (localWork < best.value.2 || localHeight < best.value.1) && request.None? ==>
                && Snapshot() == old(Snapshot())
                && Controls() ==
                     if old(state) == Phase.Backoff && old(backoffUntil) < now then
                       Control(SyncingHeaders, best.value.0, 0, false)
                     else if old(state) == Idle then
                       Control(SyncingHeaders, best.value.0, 0, old(headerReqInFlight))
                     else if old(state) == SyncingBlocks && old(queueSync) == []
                          && (forall h | h in old(inflightBlocks) :: old(inflightBlocks)[h].kind != Sync) then
                       old(Controls()).(phase := SyncingHeaders)
                     else old(Controls())
    {
      request := None;
      if state == Phase.Backoff && now > backoffUntil {
        state, syncPeer, headerRetries, headerReqInFlight := Idle, "", 0, false;
      }
      if best.None? {
        return;
      }
      if !Behind(best.value, localWork, localHeight) {
        ResetSyncState();
        return;
      }
      if state == Idle {
        state, syncPeer, headerRetries := SyncingHeaders, best.value.0, 0;
      }
      var peer := if syncPeer == "" then best.value.0 else syncPeer;
      match state {
        case SyncingHeaders =>
          if peer == "" || peer == cfg.nodeId || headerReqInFlight {
            return;
          }
          headerReqInFlight := true;
          if syncPeer == "" {
            syncPeer := peer;
          }
          request := Some(peer);
        case SyncingBlocks =>
          var done := SyncWorkDone();
          if done {
            state := SyncingHeaders;
          }
        case _ =>
      }
    }

    // ---------- header results ----------

    /** Queue every announced block not yet held, in order, for sync. */
    method QueueHeaders(metas: seq<BlockMeta>, peer: string, have: set<Hash>) returns (queuedAny: bool)
      requires Valid()
      modifies this`queueParent, this`queueSync, this`queueInv, this`queuedParent, this`queuedSync, this`queuedInv
      ensures Valid()
      ensures HeadersQueued(old(Snapshot()), Snapshot(), metas, peer, zero, have)
      ensures queuedAny <==> exists h :: Wanted(metas, h, zero, have)
      ensures !queuedAny ==> Snapshot() == old(Snapshot())
    {
      hide WindowOk, HeadersQueued;
      queuedAny := false;
      ghost var was := Snapshot();
      assert metas[..0] == [];
      NoHeadersQueued(was, peer, zero, have);
      QueueIsOk(cfg, zero, was, Sync);
      for i := 0 to |metas|
        invariant Valid() && HeadersQueued(was, Snapshot(), metas[..i], peer, zero, have)
        invariant queuedAny <==> exists h :: Wanted(metas[..i], h, zero, have)
        invariant !queuedAny ==> Snapshot() == was
      {
        var h := metas[i].hash;
        WantedSnoc(metas, i, zero, have);
        QueueIsOk(cfg, zero, Snapshot(), Sync);
        HeaderQueued(was, Snapshot(), metas, i, peer, zero, have);
        if h == zero || h in have {
          continue;
        }
        EnqueueBlock(h, peer, Sync, have);
        queuedAny := true;
        assert Wanted(metas[..i + 1], h, zero, have);
      }
      assert metas[..|metas|] == metas;
    }

    /** Consume one header result: a failure counts towards backoff; a success queues the missing blocks, and
        if there are any moves on to downloading and fills the window. */
    method OnHeadersResult(r: HeadersResult, now: int, bestPeer: string, have: set<Hash>)
      returns (singles: seq<Single>, batches: seq<Batch>, ghost queued: State, ghost sent: seq<Hash>)
      requires Valid()
      modifies this
      ensures Valid()
      ensures !r.ok && old(headerRetries) + 1 >= cfg.headerRetryLimit ==>
                && Controls() == Control(Phase.Backoff, "", 0, false) && backoffUntil == now + cfg.backoff
                && Snapshot() == WithoutSync(old(Snapshot()))
      ensures !r.ok && old(headerRetries) + 1 < cfg.headerRetryLimit ==>
                && Controls() == Control(old(state), old(syncPeer), old(headerRetries) + 1, false)
                && Snapshot() == old(Snapshot())
      ensures !r.ok ==> singles == [] && batches == []
      ensures r.ok && !(exists h :: Wanted(r.metas, h, zero, have)) ==>
                && Controls() == Control(old(state), old(syncPeer), 0, false)
                && Snapshot() == old(Snapshot()) && singles == [] && batches == []
      ensures r.ok && (exists h :: Wanted(r.metas, h, zero, have)) ==>
                && Controls() == Control(if old(state) == SyncingHeaders then SyncingBlocks else old(state),
                                         if old(syncPeer) == "" then r.peer else old(syncPeer), 0, false)
                && HeadersQueued(old(Snapshot()), queued, r.metas, r.peer, zero, have)
                && var c := Context(cfg, bestPeer, if syncPeer == "" then bestPeer else syncPeer, have, now);
                   && WindowOk(cfg, zero, queued) && Dispatched(c, zero, queued, Snapshot(), sent)
                   && WindowFilled(c, Snapshot())
                   && Carries(singles, batches, sent, inflightBlocks, cfg.batchSize)
      ensures r.ok || old(headerRetries) + 1 < cfg.headerRetryLimit ==> backoffUntil == old(backoffUntil)
    {
      hide WindowOk, Dispatched, Carries, HeadersQueued, WindowFilled;
      singles, batches, sent, queued := [], [], [], Snapshot();
      headerReqInFlight := false;
      if !r.ok {
        headerRetries := headerRetries + 1;
        if headerRetries >= cfg.headerRetryLimit {
          EnterBackoff(now);
        }
        return;
      }
      headerRetries := 0;
      var queuedAny := QueueHeaders(r.metas, r.peer, have);
      queued := Snapshot();
      if queuedAny {
        if state == SyncingHeaders {
          state := SyncingBlocks;
        }
        if syncPeer == "" {
          syncPeer := r.peer;
        }
        singles, batches, sent := DispatchQueuedBlocks(now, bestPeer, have);
      }
    }
  }

  lemma CarriesNothing(inflight: map<Hash, Request>, limit: nat)
    ensures Carries([], [], [], inflight, limit)
  {}

  /** A dispatch read off the window, the queues and the messages: old requests stay; a new one is a first attempt, due
      one timeout on, for a queued block not held, at another node: the sync peer, or for single blocks the peer that
      announced it, else the best one; each new request is in exactly one message, to its peer, and no message
      carries anything else. */
  lemma DispatchMeans(c: Context, zero: Hash, was: State, now: State, sent: seq<Hash>, singles: seq<Single>,
                      batches: seq<Batch>)
    requires Dispatched(c, zero, was, now, sent) && Carries(singles, batches, sent, now.inflight, c.cfg.batchSize)
    ensures forall h | h in was.inflight :: h in now.inflight && now.inflight[h] == was.inflight[h]
    ensures forall h | h in now.inflight && h !in was.inflight ::
              var r := now.inflight[h];
              && r.attempts == 1 && r.deadline == c.now + c.cfg.syncTimeout && h !in c.have
              && r.peer != "" && r.peer != c.cfg.nodeId
              && (r.kind == Sync ==> h in was.syncs.from && r.peer == c.syncFrom)
              && (r.kind == Parent ==>
                    h in was.parents.from
                    && r.peer == if was.parents.from[h] == "" then c.best else was.parents.from[h])
              && (r.kind == Inv ==>
                    h in was.invs.from && r.peer == if was.invs.from[h] == "" then c.best else was.invs.from[h])
    ensures forall h ::
              multiset(SingleHashes(singles))[h] + multiset(BatchHashes(batches))[h]
              == if h in now.inflight && h !in was.inflight then 1 else 0
    ensures forall m | m in singles :: m.hash in now.inflight && now.inflight[m.hash].peer == m.to
    ensures forall b | b in batches ::
              0 < |b.hashes| <= c.cfg.batchSize
              && forall h | h in b.hashes :: h in now.inflight && now.inflight[h].peer == b.to
  {
    hide DrainedAll, AllAccounted, InPriorityOrder, LeftQueues, WindowOk, SingleHashes, BatchHashes;
    forall h
      ensures multiset(SingleHashes(singles))[h] + multiset(BatchHashes(batches))[h]
              == if h in now.inflight && h !in was.inflight then 1 else 0
    {
      CountDistinct(sent, h);
      assert (multiset(SingleHashes(singles)) + multiset(BatchHashes(batches)))[h] == multiset(sent)[h];
    }
  }

  /** What a dispatch leaves behind: the window full, or nothing queued but sync blocks without another node to ask; and
      of what left the queues, everything in flight or held, or a single block without another node to ask. Sync
      and inv requests wait for parents, inv requests for sync blocks too, unless those have no peer. */
  lemma DispatchLeaves(c: Context, zero: Hash, was: State, now: State, sent: seq<Hash>)
    requires Dispatched(c, zero, was, now, sent) && WindowFilled(c, now)
    ensures |now.inflight| <= c.cfg.maxInflight
    ensures exists i, j, k :: 0 <= i <= |was.parents.items| && 0 <= j <= |was.syncs.items| && 0 <= k <= |was.invs.items|
              && now.parents.items == was.parents.items[i..] && now.syncs.items == was.syncs.items[j..]
              && now.invs.items == was.invs.items[k..]
    ensures |now.inflight| < c.cfg.maxInflight ==>
              && now.parents.items == [] && now.invs.items == []
              && (now.syncs.items == [] || c.syncFrom == "" || c.syncFrom == c.cfg.nodeId)
    ensures forall h | h in was.syncs.from && h !in now.syncs.from :: h in now.inflight || h in c.have
    ensures forall h | h in was.parents.from && h !in now.parents.from ::
              h in now.inflight || h in c.have
              || (if was.parents.from[h] == "" then c.best else was.parents.from[h]) in {"", c.cfg.nodeId}
    ensures forall h | h in was.invs.from && h !in now.invs.from ::
              h in now.inflight || h in c.have
              || (if was.invs.from[h] == "" then c.best else was.invs.from[h]) in {"", c.cfg.nodeId}
    ensures forall h | h in now.inflight && h !in was.inflight ::
              && (now.inflight[h].kind != Parent ==> now.parents.items == [])
              && (now.inflight[h].kind == Inv ==>
                    now.syncs.items == [] || c.syncFrom == "" || c.syncFrom == c.cfg.nodeId)
  {
    hide SentExactly, LeftQueues;
    assert Drained(was.parents, now.parents) && Drained(was.syncs, now.syncs) && Drained(was.invs, now.invs);
    forall k: Kind, h: Hash ensures Accounted(c, was, now, k, h) {}
    forall h | h in was.syncs.from && h !in now.syncs.from ensures h in now.inflight || h in c.have {
      assert Accounted(c, was, now, Sync, h);
    }
    forall h | h in was.parents.from && h !in now.parents.from
      ensures h in now.inflight || h in c.have
              || (if was.parents.from[h] == "" then c.best else was.parents.from[h]) in {"", c.cfg.nodeId}
    {
      assert Accounted(c, was, now, Parent, h);
    }
    forall h | h in was.invs.from && h !in now.invs.from
      ensures h in now.inflight || h in c.have
              || (if was.invs.from[h] == "" then c.best else was.invs.from[h]) in {"", c.cfg.nodeId}
    {
      assert Accounted(c, was, now, Inv, h);
    }
  }

  lemma DispatchedWindow(c: Context, zero: Hash, was: State, now: State, sent: seq<Hash>)
    requires Dispatched(c, zero, was, now, sent)
    ensures WindowOk(c.cfg, zero, now) && |now.inflight| <= c.cfg.maxInflight
  {}

  lemma PutBack(q: Queue)
    requires q.items != [] && q.items[0] in q.from
    ensures [q.items[0]] + q.Tail().items == q.items && q.Tail().from[q.items[0] := q.from[q.items[0]]] == q.from
  {}

  lemma MayServeNext(c: Context, s: State, k: Kind)
    requires k == if s.parents.items != [] then Parent else if s.syncs.items != [] then Sync else Inv
    ensures MayServe(c, s, k)
  {}

  lemma MayServeSync(c: Context, s: State)
    requires s.parents.items == []
    ensures MayServe(c, s, Sync)
  {}

  lemma FrontQueued(cfg: Config, zero: Hash, s: State, k: Kind)
    requires WindowOk(cfg, zero, s) && QueueOf(s, k).items != []
    ensures QueueOf(s, k).items[0] in QueueOf(s, k).from && QueueOf(s, k).items[0] != zero
  {
    assert QueueOf(s, k).items[0] in QueueOf(s, k).items;
  }

  // ---------- what the state machine's steps mean ----------

  /** The best peer advertises more work, or more height, than the local chain has. */
  predicate Behind(best: (string, nat, nat), localWork: nat, localHeight: nat) {
    localWork < best.2 || localHeight < best.1
  }

  /** The state without its sync work: sync queue empty, sync requests gone, the rest untouched. */
  function WithoutSync(s: State): State {
    s.(syncs := Queue([], map[]), inflight := map h | h in s.inflight && s.inflight[h].kind != Sync :: s.inflight[h])
  }

  /** No sync block is queued or in flight. */
  ghost predicate NoSyncWork(s: State) {
    s.syncs.items == [] && forall h | h in s.inflight :: s.inflight[h].kind != Sync
  }

  /** A dispatch leaves the window full, or nothing queued but sync blocks with no usable peer. */
  ghost predicate WindowFilled(c: Context, s: State) {
    || |s.inflight| == c.cfg.maxInflight
    || (s.parents.items == [] && s.invs.items == [] && (s.syncs.items == [] || !UsablePeer(c.cfg, c.syncFrom)))
  }

  lemma WithoutSyncOk(cfg: Config, zero: Hash, s: State)
    requires WindowOk(cfg, zero, s)
    ensures WindowOk(cfg, zero, WithoutSync(s))
  {
    SubmapSize(WithoutSync(s).inflight, s.inflight);
  }

  lemma SubmapSize(m: map<Hash, Request>, n: map<Hash, Request>)
    requires m.Keys <= n.Keys
    ensures |m| <= |n|
  {
    SubsetSize(m.Keys, n.Keys);
  }

  lemma {:induction false} SubsetSize(a: set<Hash>, b: set<Hash>)
    requires a <= b
    ensures |a| <= |b|
  {
    if a != {} {
      var x :| x in a;
      SubsetSize(a - {x}, b - {x});
    }
  }

  lemma WindowOkShrinks(cfg: Config, zero: Hash, s: State, gone: set<Hash>)
    requires WindowOk(cfg, zero, s)
    ensures WindowOk(cfg, zero, s.(inflight := s.inflight - gone))
  {
    SubmapSize(s.inflight - gone, s.inflight);
  }

  lemma TickedKeepsWindow(cfg: Config, zero: Hash, s: State, best: string, now: int)
    requires WindowOk(cfg, zero, s)
    ensures WindowOk(cfg, zero, s.(inflight := Ticked(cfg, best, now, s.inflight)))
  {
    SubmapSize(Ticked(cfg, best, now, s.inflight), s.inflight);
  }

  /** A sync request overdue after its last attempt. */
  ghost predicate Spent(cfg: Config, now: int, r: Request) {
    r.kind == Sync && r.deadline <= now && r.attempts >= cfg.retryLimit
  }

  /** A round of timeouts, request by request. */
  lemma TickMeans(cfg: Config, best: string, now: int, was: map<Hash, Request>)
    ensures var after := Ticked(cfg, best, now, was);
            && (forall h :: h in after <==> h in was && (now < was[h].deadline || was[h].attempts < cfg.retryLimit))
            && (forall h | h in after ::
                  after[h] == if now < was[h].deadline then was[h]
                              else Request(if best == "" then was[h].peer else best, was[h].kind, was[h].attempts + 1,
                                           now + cfg.syncTimeout))
  {}

  /** The messages of a round of timeouts, request by request. */
  lemma ResendsMean(singles: seq<Single>, batches: seq<Batch>, cfg: Config, best: string, now: int,
                    was: map<Hash, Request>)
    requires Resends(singles, batches, cfg, best, now, was)
    ensures forall h :: h in SingleHashes(singles) || h in BatchHashes(batches) <==>
              && h in was
              && var to := if best == "" then was[h].peer else best;
                 was[h].deadline <= now && was[h].attempts < cfg.retryLimit && to != "" && to != cfg.nodeId
    ensures forall m | m in singles :: m.hash in was && m.to == if best == "" then was[m.hash].peer else best
    ensures forall b | b in batches :: forall h | h in b.hashes ::
              h in was && b.to == if best == "" then was[h].peer else best
  {}

  /** The overdue requests of a named peer, those still pending aside; each is reported once. */
  ghost function DueFrom(inflight: map<Hash, Request>, now: int, pending: set<Hash>, peer: string): set<Hash> {
    set h | h in inflight && h !in pending && Overdue(inflight[h], now) && inflight[h].peer == peer != ""
  }

  lemma NoneDueYet(was: map<Hash, Request>, now: int)
    ensures forall peer :: |DueFrom(was, now, was.Keys, peer)| == 0
  {
    forall peer ensures DueFrom(was, now, was.Keys, peer) == {} {}
  }

  lemma NoneMissedDue(was: map<Hash, Request>, now: int)
    ensures forall peer ::
              DueFrom(was, now, {}, peer) == set h | h in was && was[h].deadline <= now && was[h].peer == peer != ""
  {}

  lemma DueStep(was: map<Hash, Request>, now: int, pending: set<Hash>, h: Hash)
    requires h in pending && h in was
    ensures forall peer :: |DueFrom(was, now, pending - {h}, peer)| == |DueFrom(was, now, pending, peer)|
                           + (if Overdue(was[h], now) && was[h].peer == peer != "" then 1 else 0)
  {
    forall peer
      ensures |DueFrom(was, now, pending - {h}, peer)| == |DueFrom(was, now, pending, peer)|
              + (if Overdue(was[h], now) && was[h].peer == peer != "" then 1 else 0)
    {
      var before, after := DueFrom(was, now, pending, peer), DueFrom(was, now, pending - {h}, peer);
      assert after == before + (if Overdue(was[h], now) && was[h].peer == peer != "" then {h} else {});
    }
  }

  /** An overdue, unexhausted request whose retry has a usable peer. */
  ghost predicate Resent(cfg: Config, best: string, now: int, r: Request) {
    Overdue(r, now) && r.attempts < cfg.retryLimit && UsablePeer(cfg, RetryPeer(best, r))
  }

  /** The messages resend exactly the requests due for a retry, each hash once, each to its retry peer,
      sync blocks in batches within the limit. */
  ghost predicate Resends(singles: seq<Single>, batches: seq<Batch>, cfg: Config, best: string, now: int,
                          was: map<Hash, Request>) {
    && (forall h :: h in SingleHashes(singles) <==> h in was && was[h].kind != Sync && Resent(cfg, best, now, was[h]))
    && (forall h :: h in BatchHashes(batches) <==> h in was && was[h].kind == Sync && Resent(cfg, best, now, was[h]))
    && Distinct(SingleHashes(singles)) && Distinct(BatchHashes(batches))
    && (forall m | m in singles :: m.hash in was && m.to == RetryPeer(best, was[m.hash]))
    && (forall b | b in batches :: 0 < |b.hashes| <= cfg.batchSize
          && forall h | h in b.hashes :: h in was && b.to == RetryPeer(best, was[h]))
  }

  ghost predicate TickedSoFar(cfg: Config, best: string, now: int, was: map<Hash, Request>,
                              inflight: map<Hash, Request>, pending: set<Hash>) {
    && (forall h :: h in inflight <==> h in was && (h in pending || h in Ticked(cfg, best, now, was)))
    && (forall h | h in inflight ::
          inflight[h] == if h in pending then was[h] else Ticked(cfg, best, now, was)[h])
  }

  lemma TickStart(cfg: Config, best: string, now: int, was: map<Hash, Request>)
    ensures TickedSoFar(cfg, best, now, was, was, was.Keys) && GroupedSoFar(cfg, best, now, was, was.Keys, [], map[])
  {}

  lemma TickStep(cfg: Config, best: string, now: int, was: map<Hash, Request>, inflight: map<Hash, Request>,
                 pending: set<Hash>, h: Hash)
    requires TickedSoFar(cfg, best, now, was, inflight, pending) && h in pending && pending <= was.Keys
    ensures h in inflight && inflight[h] == was[h]
    ensures var r := was[h]; var rest := pending - {h};
            if !Overdue(r, now) then TickedSoFar(cfg, best, now, was, inflight, rest)
            else if r.attempts >= cfg.retryLimit then TickedSoFar(cfg, best, now, was, inflight - {h}, rest)
            else TickedSoFar(cfg, best, now, was, inflight[h := Retried(cfg, best, now, r)], rest)
  {}

  lemma TickDone(cfg: Config, best: string, now: int, was: map<Hash, Request>, inflight: map<Hash, Request>)
    requires TickedSoFar(cfg, best, now, was, inflight, {})
    ensures inflight == Ticked(cfg, best, now, was)
  {}

  /** Retries collected so far: single messages, and sync hashes grouped by retry peer. */
  ghost predicate GroupedSoFar(cfg: Config, best: string, now: int, was: map<Hash, Request>, pending: set<Hash>,
                               singles: seq<Single>, retry: map<string, seq<Hash>>) {
    && (forall h :: h in SingleHashes(singles) <==>
          h in was && h !in pending && was[h].kind != Sync && Resent(cfg, best, now, was[h]))
    && Distinct(SingleHashes(singles))
    && (forall m | m in singles :: m.hash in was && m.to == RetryPeer(best, was[m.hash]))
    && (forall h :: h in was && h !in pending && was[h].kind == Sync && Resent(cfg, best, now, was[h]) ==>
          RetryPeer(best, was[h]) in retry && h in retry[RetryPeer(best, was[h])])
    && (forall peer | peer in retry :: Distinct(retry[peer]) && forall h | h in retry[peer] ::
          h in was && h !in pending && was[h].kind == Sync && Resent(cfg, best, now, was[h])
              && RetryPeer(best, was[h]) == peer)
  }

  lemma GroupStep(cfg: Config, best: string, now: int, was: map<Hash, Request>, pending: set<Hash>, h: Hash,
                  singles: seq<Single>, retry: map<string, seq<Hash>>)
    requires GroupedSoFar(cfg, best, now, was, pending, singles, retry) && h in pending && h in was
    ensures var r := was[h]; var peer := RetryPeer(best, r); var rest := pending - {h};
            if !Resent(cfg, best, now, r) then GroupedSoFar(cfg, best, now, was, rest, singles, retry)
            else if r.kind == Sync then
              GroupedSoFar(cfg, best, now, was, rest, singles,
                           retry[peer := (if peer in retry then retry[peer] else []) + [h]])
            else GroupedSoFar(cfg, best, now, was, rest, singles + [Single(peer, h)], retry)
  {
    hide Resent;
    var r, peer, rest := was[h], RetryPeer(best, was[h]), pending - {h};
    if Resent(cfg, best, now, r) {
      if r.kind == Sync {
        SentGrows(if peer in retry then retry[peer] else [], h);
      } else {
        assert SingleHashes(singles + [Single(peer, h)]) == SingleHashes(singles) + [h];
        SentGrows(SingleHashes(singles), h);
      }
    }
  }

  /** The groups of all peers no longer pending have been cut into batches. */
  ghost predicate ChunkedSoFar(retry: map<string, seq<Hash>>, pending: set<string>, batches: seq<Batch>, limit: nat) {
    && (forall h :: h in BatchHashes(batches) <==> exists p :: p in retry && p !in pending && h in retry[p])
    && Distinct(BatchHashes(batches))
    && (forall b | b in batches ::
          0 < |b.hashes| <= limit && b.to in retry && forall h | h in b.hashes :: h in retry[b.to])
  }

  lemma ChunkStep(retry: map<string, seq<Hash>>, pending: set<string>, peer: string, earlier: seq<Batch>,
                  batches: seq<Batch>, cfg: Config, best: string, now: int, was: map<Hash, Request>,
                  singles: seq<Single>)
    requires GroupedSoFar(cfg, best, now, was, {}, singles, retry) && peer in pending && pending <= retry.Keys
    requires ChunkedSoFar(retry, pending, earlier, cfg.batchSize)
    requires BatchHashes(batches) == BatchHashes(earlier) + retry[peer]
    requires forall b | b in batches :: b in earlier ||
               (b.to == peer && 0 < |b.hashes| <= cfg.batchSize && forall h | h in b.hashes :: h in retry[peer])
    ensures ChunkedSoFar(retry, pending - {peer}, batches, cfg.batchSize)
  {
    var was', group := BatchHashes(earlier), retry[peer];
    forall i, j | 0 <= i < |was'| && 0 <= j < |group| ensures was'[i] != group[j] {
      assert was'[i] in was';
      var p :| p in retry && p !in pending && was'[i] in retry[p];
      assert group[j] in group;
    }
    forall h ensures h in BatchHashes(batches) <==> exists p :: p in retry && p !in pending - {peer} && h in retry[p] {
      if h in group {
        assert peer in retry && peer !in pending - {peer} && h in retry[peer];
      }
    }
  }

  lemma ChunkDone(retry: map<string, seq<Hash>>, batches: seq<Batch>, cfg: Config, best: string, now: int,
                  was: map<Hash, Request>, singles: seq<Single>)
    requires GroupedSoFar(cfg, best, now, was, {}, singles, retry) && ChunkedSoFar(retry, {}, batches, cfg.batchSize)
    ensures Resends(singles, batches, cfg, best, now, was)
  {}

  /** A header reply names this block, and it is neither the zero hash nor held. */
  ghost predicate Wanted(metas: seq<BlockMeta>, h: Hash, zero: Hash, have: set<Hash>) {
    h != zero && h !in have && exists i :: 0 <= i < |metas| && metas[i].hash == h
  }

  /** The announced blocks that are new to the sync queue, first occurrences only, in order. */
  ghost function Announced(s: State, metas: seq<BlockMeta>, zero: Hash, have: set<Hash>): seq<Hash>
    decreases |metas|
  {
    if metas == [] then []
    else
      var before, h := Announced(s, metas[..|metas| - 1], zero, have), metas[|metas| - 1].hash;
      if h == zero || h in have || h in s.inflight || h in s.syncs.from || h in before then before else before + [h]
  }

  /** The reply's place `k` is the first to name its hash, and that is new to the sync queue. */
  ghost predicate FirstNew(s: State, metas: seq<BlockMeta>, zero: Hash, have: set<Hash>, k: nat)
    requires k < |metas|
  {
    var h := metas[k].hash;
    && h != zero && h !in have && h !in s.inflight && h !in s.syncs.from
    && forall j | 0 <= j < k :: metas[j].hash != h
  }

  /** `hs` are the hashes at exactly such places, in the reply's order. */
  ghost predicate AtFirstPlaces(s: State, metas: seq<BlockMeta>, zero: Hash, have: set<Hash>, at: seq<nat>,
                                hs: seq<Hash>) {
    && |at| == |hs| && (forall i | 0 <= i < |at| :: at[i] < |metas| && metas[at[i]].hash == hs[i])
    && (forall i, j | 0 <= i < j < |at| :: at[i] < at[j])
    && (forall k: nat | k < |metas| :: k in at <==> FirstNew(s, metas, zero, have, k))
  }

  lemma {:induction false} AnnouncedInOrder(s: State, metas: seq<BlockMeta>, zero: Hash, have: set<Hash>)
    returns (at: seq<nat>)
    ensures AtFirstPlaces(s, metas, zero, have, at, Announced(s, metas, zero, have))
    decreases |metas|
  {
    hide AtFirstPlaces;
    if metas == [] {
      at := [];
      NoPlaces(s, zero, have);
    } else {
      var k := |metas| - 1;
      at := AnnouncedInOrder(s, metas[..k], zero, have);
      at := NextPlace(s, metas, zero, have, at, Announced(s, metas[..k], zero, have));
    }
  }

  lemma NoPlaces(s: State, zero: Hash, have: set<Hash>)
    ensures AtFirstPlaces(s, [], zero, have, [], Announced(s, [], zero, have))
  {}

  lemma NextPlace(s: State, metas: seq<BlockMeta>, zero: Hash, have: set<Hash>, at: seq<nat>, hs: seq<Hash>)
    returns (more: seq<nat>)
    requires metas != [] && AtFirstPlaces(s, metas[..|metas| - 1], zero, have, at, hs)
    ensures var h := metas[|metas| - 1].hash;
            AtFirstPlaces(s, metas, zero, have, more,
                          if h == zero || h in have || h in s.inflight || h in s.syncs.from || h in hs then hs
                          else hs + [h])
  {
    var n := |metas| - 1;
    var h := metas[n].hash;
    var init := metas[..n];
    NamedBefore(s, init, zero, have, at, hs, h);
    NewHere(s, metas, zero, have, n, hs);
    PlacesGrow(s, metas, zero, have, at, hs);
    more := if FirstNew(s, metas, zero, have, n) then at + [n] else at;
    PlacesEnd(s, metas, zero, have, at, hs);
  }

  lemma PlacesEnd(s: State, metas: seq<BlockMeta>, zero: Hash, have: set<Hash>, at: seq<nat>, hs: seq<Hash>)
    requires metas != [] && |at| == |hs| && forall i, j | 0 <= i < j < |at| :: at[i] < at[j]
    requires forall i | 0 <= i < |at| :: at[i] < |metas| - 1 && metas[at[i]].hash == hs[i]
    requires forall k: nat | k < |metas| - 1 :: k in at <==> FirstNew(s, metas, zero, have, k)
    requires forall k | k in at :: k < |metas| - 1
    ensures var n := |metas| - 1;
            if FirstNew(s, metas, zero, have, n) then
              AtFirstPlaces(s, metas, zero, have, at + [n], hs + [metas[n].hash])
            else AtFirstPlaces(s, metas, zero, have, at, hs)
  {
    hide FirstNew;
    var n := |metas| - 1;
    assert forall k: nat :: k in at + [n] <==> k in at || k == n;
  }

  lemma NewHere(s: State, metas: seq<BlockMeta>, zero: Hash, have: set<Hash>, n: nat, hs: seq<Hash>)
    requires n + 1 == |metas|
    requires var h := metas[n].hash;
             && (h in hs ==> exists j :: 0 <= j < n && metas[..n][j].hash == h)
             && ((h != zero && h !in have && h !in s.inflight && h !in s.syncs.from
                  && exists j :: 0 <= j < n && metas[..n][j].hash == h) ==> h in hs)
    ensures var h := metas[n].hash;
            FirstNew(s, metas, zero, have, n) <==>
              !(h == zero || h in have || h in s.inflight || h in s.syncs.from || h in hs)
  {
    assert forall j | 0 <= j < n :: metas[..n][j] == metas[j];
  }

  lemma PlacesGrow(s: State, metas: seq<BlockMeta>, zero: Hash, have: set<Hash>, at: seq<nat>, hs: seq<Hash>)
    requires metas != [] && AtFirstPlaces(s, metas[..|metas| - 1], zero, have, at, hs)
    ensures forall i | 0 <= i < |at| :: at[i] < |metas| - 1 && at[i] in at && metas[at[i]].hash == hs[i]
    ensures forall k: nat | k < |metas| - 1 :: k in at <==> FirstNew(s, metas, zero, have, k)
    ensures forall k | k in at :: k < |metas| - 1
  {
    var n := |metas| - 1;
    var init := metas[..n];
    assert forall j | 0 <= j < n :: init[j] == metas[j];
    forall k: nat | k < n ensures FirstNew(s, metas, zero, have, k) <==> k in at {
      assert FirstNew(s, init, zero, have, k) <==> k in at;
    }
  }

  /** Among new hashes, those named so far are those announced so far. */
  lemma NamedBefore(s: State, metas: seq<BlockMeta>, zero: Hash, have: set<Hash>, at: seq<nat>, hs: seq<Hash>, h: Hash)
    requires AtFirstPlaces(s, metas, zero, have, at, hs)
    ensures h in hs ==> exists j :: 0 <= j < |metas| && metas[j].hash == h
    ensures (h != zero && h !in have && h !in s.inflight && h !in s.syncs.from
             && exists j :: 0 <= j < |metas| && metas[j].hash == h) ==> h in hs
  {
    if h in hs {
      var i :| 0 <= i < |hs| && hs[i] == h;
      assert metas[at[i]].hash == h;
    }
    if h != zero && h !in have && h !in s.inflight && h !in s.syncs.from {
      if j :| 0 <= j < |metas| && metas[j].hash == h {
        var k := FirstAt(metas, h, j);
        assert FirstNew(s, metas, zero, have, k);
        var i :| 0 <= i < |at| && at[i] == k;
        assert hs[i] == h;
      }
    }
  }

  lemma FirstAt(metas: seq<BlockMeta>, h: Hash, j: nat) returns (k: nat)
    requires j < |metas| && metas[j].hash == h
    ensures k <= j && metas[k].hash == h && forall i | 0 <= i < k :: metas[i].hash != h
  {
    k := 0;
    while metas[k].hash != h
      invariant k <= j && forall i | 0 <= i < k :: metas[i].hash != h
      decreases j - k
    {
      k := k + 1;
    }
  }

  /** The sync queue has grown by exactly the announced new blocks, each from `peer`; nothing else changed. */
  ghost predicate HeadersQueued(was: State, now: State, metas: seq<BlockMeta>, peer: string, zero: Hash,
                                have: set<Hash>)
  {
    && now == was.(syncs := now.syncs)
    && now.syncs.items == was.syncs.items + Announced(was, metas, zero, have)
    && (forall h :: h in now.syncs.from <==>
          h in was.syncs.from || (Wanted(metas, h, zero, have) && h !in was.inflight))
    && (forall h | h in now.syncs.from ::
          now.syncs.from[h] == if h in was.syncs.from then was.syncs.from[h] else peer)
  }

  /** Which blocks a reply has queued, read off the queues and the reply. */
  lemma QueuedMeans(was: State, now: State, metas: seq<BlockMeta>, peer: string, zero: Hash, have: set<Hash>)
    requires HeadersQueued(was, now, metas, peer, zero, have)
    ensures forall h :: h in now.syncs.from <==>
              h in was.syncs.from
              || (h != zero && h !in have && h !in was.inflight && exists i :: 0 <= i < |metas| && metas[i].hash == h)
    ensures forall h | h in now.syncs.from ::
              now.syncs.from[h] == if h in was.syncs.from then was.syncs.from[h] else peer
    ensures was.syncs.items <= now.syncs.items && now.parents == was.parents && now.invs == was.invs
    ensures now.inflight == was.inflight
    ensures (exists h :: Wanted(metas, h, zero, have)) <==>
              exists i :: 0 <= i < |metas| && metas[i].hash != zero && metas[i].hash !in have
  {
    forall i | 0 <= i < |metas| && metas[i].hash != zero && metas[i].hash !in have
      ensures Wanted(metas, metas[i].hash, zero, have)
    {}
  }

  lemma NoHeadersQueued(was: State, peer: string, zero: Hash, have: set<Hash>)
    ensures HeadersQueued(was, was, [], peer, zero, have)
  {
    assert was.syncs.items + [] == was.syncs.items;
  }

  lemma HeaderQueued(was: State, now: State, metas: seq<BlockMeta>, i: nat, peer: string, zero: Hash, have: set<Hash>)
    requires i < |metas| && HeadersQueued(was, now, metas[..i], peer, zero, have)
    requires forall h :: h in now.syncs.items <==> h in now.syncs.from
    requires forall h :: h in was.syncs.items <==> h in was.syncs.from
    ensures var h := metas[i].hash;
            HeadersQueued(was, if h == zero || h in have || h in now.inflight || h in now.syncs.from then now
                               else WithQueue(now, Sync, now.syncs.Push(h, peer)), metas[..i + 1], peer, zero, have)
  {
    var h := metas[i].hash;
    assert metas[..i + 1][..i] == metas[..i];
    WantedSnoc(metas, i, zero, have);
    var before := Announced(was, metas[..i], zero, have);
    assert forall x :: x in now.syncs.items <==> x in was.syncs.items || x in before;
    assert was.syncs.items + (before + [h]) == (was.syncs.items + before) + [h];
  }

  lemma WantedSnoc(metas: seq<BlockMeta>, i: nat, zero: Hash, have: set<Hash>)
    requires i < |metas|
    ensures forall h :: Wanted(metas[..i + 1], h, zero, have) <==>
              Wanted(metas[..i], h, zero, have) || (h == metas[i].hash && h != zero && h !in have)
  {
    forall h
      ensures Wanted(metas[..i + 1], h, zero, have) <==>
                Wanted(metas[..i], h, zero, have) || (h == metas[i].hash && h != zero && h !in have)
    {
      if Wanted(metas[..i], h, zero, have) {
        var j :| 0 <= j < i && metas[..i][j].hash == h;
        assert metas[..i + 1][j].hash == h;
      }
      if h == metas[i].hash {
        assert metas[..i + 1][i].hash == h;
      }
      if Wanted(metas[..i + 1], h, zero, have) {
        var j :| 0 <= j < i + 1 && metas[..i + 1][j].hash == h;
        assert j < i ==> metas[..i][j].hash == h;
      }
    }
  }

  lemma QueueEmptyIff(q: Queue, zero: Hash)
    requires q.Ok(zero)
    ensures q.items == [] <==> q.from == map[]
  {
    if q.from != map[] {
      var h :| h in q.from.Keys;
      assert h in q.items;
    }
    if q.items != [] {
      assert q.items[0] in q.from;
    }
  }
}
