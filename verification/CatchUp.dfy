/** Catching up with an honest peer: locator, header reply, windowed download and submission together. */
module CatchUp {
  import opened Types
  import opened Tree
  import opened Orphans
  import opened ForkChoice
  import opened Chain
  import opened Segments
  import opened Forks
  import Locator
  import Pow
  import Window
  import S = Syncer

  // ---------- one answered round ----------

  /** The download still to come and the deliveries so far account for the whole segment. */
  ghost predicate Underway(p: Params, t: Tree, n: nat, hi: nat, s: Tree, u: Tree, bs: seq<Block>, q: Window.State)
    requires Linked(t) && n <= hi < |MainPath(t)|
  {
    && Run(p, s, bs, u) && Inv(p, u) && Quiescent(u)
    && (forall b | b in bs :: b in Segment(t, n + 1, hi))
    && (forall i {:trigger MainPath(t)[i]} | n + 1 <= i <= hi ::
          MainPath(t)[i] in Todo(q) || MainChain(t)[i] in bs || MainPath(t)[i] in u.blocks)
    && OnlySync(q)
    && (forall h | h in Todo(q) :: h in MainPath(t)[n + 1..hi + 1])
  }

  ghost function Todo(q: Window.State): set<Hash> { q.syncs.from.Keys + q.inflight.Keys }

  /** Nothing but sync work, each block either queued or in flight. */
  ghost predicate OnlySync(q: Window.State) {
    && q.parents.items == [] && q.invs.items == []
    && q.syncs.from.Keys !! q.inflight.Keys
    && forall h | h in q.inflight :: q.inflight[h].kind == Window.Sync
  }

  lemma DispatchKeepsOnlySync(c: Window.Context, zero: Hash, q: Window.State, r: Window.State, sent: seq<Hash>)
    requires Window.WindowOk(c.cfg, zero, q) && OnlySync(q) && Window.Dispatched(c, zero, q, r, sent)
    ensures OnlySync(r) && Todo(r) <= Todo(q)
    ensures forall h | h in Todo(q) :: h in Todo(r) || h in c.have
  {
    Window.DispatchedParts(c, zero, q, r, sent);
    forall h | h in r.inflight && h !in q.inflight ensures r.inflight[h].kind == Window.Sync && h in q.syncs.from {
      assert h in sent;
      EmptyQueues(c.cfg, zero, q);
    }
    forall h | h in Todo(q) ensures h in Todo(r) || h in c.have {
      assert Window.Accounted(c, q, r, Window.Sync, h);
    }
  }

  lemma EmptyQueues(cfg: Window.Config, zero: Hash, q: Window.State)
    requires Window.WindowOk(cfg, zero, q) && q.parents.items == [] && q.invs.items == []
    ensures q.parents.from == map[] && q.invs.from == map[]
  {
    S.QueueEmptyIff(q.parents, zero);
    S.QueueEmptyIff(q.invs, zero);
  }

  lemma DispatchKeepsUnderway(p: Params, t: Tree, n: nat, hi: nat, s: Tree, u: Tree, bs: seq<Block>,
                              c: Window.Context, zero: Hash, q: Window.State, r: Window.State, sent: seq<Hash>)
    requires Linked(t) && n <= hi < |MainPath(t)| && Underway(p, t, n, hi, s, u, bs, q)
    requires Window.WindowOk(c.cfg, zero, q) && Window.Dispatched(c, zero, q, r, sent) && c.have == u.blocks.Keys
    ensures Underway(p, t, n, hi, s, u, bs, r) && Todo(r) <= Todo(q)
  {
    hide Window.Dispatched, Window.WindowOk, Inv, Quiescent, Run;
    DispatchKeepsOnlySync(c, zero, q, r, sent);
  }

  lemma ArrivalKeepsUnderway(p: Params, t: Tree, n: nat, hi: nat, s: Tree, u: Tree, bs: seq<Block>,
                             q: Window.State, h: Hash, v: Tree)
    requires Inv(p, t) && Linked(t) && n <= hi < |MainPath(t)| && Underway(p, t, n, hi, s, u, bs, q)
    requires h in q.inflight && h in t.blocks && AddStep(p, u, t.blocks[h], v)
    ensures var r := q.(inflight := q.inflight - {h});
            Underway(p, t, n, hi, s, v, bs + [t.blocks[h]], r) && Todo(r) == Todo(q) - {h}
  {
    hide Inv, Quiescent, Run, AddStep, Connect, Extends, Link;
    var r := q.(inflight := q.inflight - {h});
    assert h in Todo(q);
    var i := InSegment(p, t, n, hi, h);
    RunSnoc(p, s, bs, u, t.blocks[h], v);
    AddStepKeepsInv(p, u, t.blocks[h], v);
    ExtendsKeys(u, v);
    ArrivalCovers(p, t, n, hi, u, bs, q, h, v);
  }

  lemma InSegment(p: Params, t: Tree, n: nat, hi: nat, h: Hash) returns (i: nat)
    requires Inv(p, t) && Linked(t) && n <= hi < |MainPath(t)| && h in MainPath(t)[n + 1..hi + 1]
    ensures n + 1 <= i <= hi && MainPath(t)[i] == h && h in t.blocks && MainChain(t)[i] == t.blocks[h]
    ensures t.blocks[h] in Segment(t, n + 1, hi)
  {
    hide Inv, Linked, Link;
    var k :| 0 <= k < hi - n && MainPath(t)[n + 1..hi + 1][k] == h;
    i := n + 1 + k;
    MainBlock(p, t, i);
    assert MainChain(t)[i] == t.blocks[h];
  }

  lemma ArrivalCovers(p: Params, t: Tree, n: nat, hi: nat, u: Tree, bs: seq<Block>, q: Window.State, h: Hash, v: Tree)
    requires Inv(p, t) && Linked(t) && n <= hi < |MainPath(t)| && h in t.blocks && u.blocks.Keys <= v.blocks.Keys
    requires forall i {:trigger MainPath(t)[i]} | n + 1 <= i <= hi ::
               MainPath(t)[i] in Todo(q) || MainChain(t)[i] in bs || MainPath(t)[i] in u.blocks
    ensures forall i {:trigger MainPath(t)[i]} | n + 1 <= i <= hi ::
              MainPath(t)[i] in Todo(q.(inflight := q.inflight - {h})) || MainPath(t)[i] == h
              || MainChain(t)[i] in bs || MainPath(t)[i] in v.blocks
    ensures forall i {:trigger MainPath(t)[i]} | n + 1 <= i <= hi && MainPath(t)[i] == h ::
              MainChain(t)[i] == t.blocks[h]
  {
    hide Inv, Linked, Link;
    forall i {:trigger MainPath(t)[i]} | n + 1 <= i <= hi && MainPath(t)[i] == h
      ensures MainChain(t)[i] == t.blocks[h]
    {
      MainBlock(p, t, i);
    }
  }

  lemma ExtendsKeys(u: Tree, v: Tree)
    requires Extends(u, v)
    ensures u.blocks.Keys <= v.blocks.Keys
  {}

  lemma NothingLeft(p: Params, t: Tree, c: nat, limit: nat, s: Tree, u: Tree, bs: seq<Block>, q: Window.State)
    requires Inv(p, t) && Linked(t) && Shares(p, t, s) && c < |MainPath(t)| && MainPath(t)[c] in s.blocks
    requires Underway(p, t, c, Locator.Min(c + limit, |MainPath(t)| - 1), s, u, bs, q) && Todo(q) == {}
    ensures RoundEffect(p, t, c, limit, s, u)
  {
    hide Inv, Run, Quiescent, Linked, Shares, RoundLeaves, RoundEffect;
    SegmentExtends(p, t, c, limit, s, bs, u);
  }

  /** The start of a round: what is wanted is exactly what the segment has and the node lacks. */
  lemma RoundStarts(p: Params, t: Tree, c: nat, hi: nat, s: Tree, metas: seq<BlockMeta>, q: Window.State)
    requires Inv(p, t) && Linked(t) && Shares(p, t, s) && c <= hi < |MainPath(t)|
    requires |metas| == hi - c && forall i | 0 <= i < hi - c :: metas[i].hash == MainPath(t)[c + 1 + i]
    requires q.parents.items == [] && q.invs.items == [] && q.inflight == map[]
    requires forall h :: h in q.syncs.from <==> S.Wanted(metas, h, p.crypto.zero, s.blocks.Keys)
    ensures Underway(p, t, c, hi, s, s, [], q)
  {
    hide Inv, Link, Linked, Shares;
    SharesParts(p, t, s);
    forall i {:trigger MainPath(t)[i]} | c + 1 <= i <= hi
      ensures MainPath(t)[i] in Todo(q) || MainPath(t)[i] in s.blocks
    {
      MainBlock(p, t, i);
      assert metas[i - c - 1].hash == MainPath(t)[i];
    }
    forall h | h in Todo(q) ensures h in MainPath(t)[c + 1..hi + 1] {
      var i :| 0 <= i < |metas| && metas[i].hash == h;
      assert MainPath(t)[c + 1..hi + 1][i] == h;
    }
  }

  ghost function Empty(): Window.State {
    Window.State(Window.Queue([], map[]), Window.Queue([], map[]), Window.Queue([], map[]), map[])
  }

  /** The syncer has nothing pending and would start on, or keep syncing from, `peerId`. */
  ghost predicate Ready(sy: S.Syncer, peerId: string)
    reads sy
  {
    && sy.Snapshot() == Empty() && !sy.headerReqInFlight
    && (sy.state == S.Idle || (sy.state == S.SyncingHeaders && (sy.syncPeer == "" || sy.syncPeer == peerId)))
  }

  /** What probing an honest peer reports: its tip's height and work. */
  method TipOf(peer: Blockchain, peerId: string) returns (best: Option<(string, nat, nat)>)
    requires peer.Valid()
    ensures var t := peer.Snapshot();
            t.tip in t.height && t.tip in t.cumWork && best == Some((peerId, t.height[t.tip], t.cumWork[t.tip]))
  {
    HeldTip(peer.p, peer.Snapshot());
    best := Some((peerId, peer.height[peer.tip], peer.cumWork[peer.tip]));
  }

  lemma HeldTip(p: Params, s: Tree)
    requires Inv(p, s)
    ensures s.tip in s.blocks && s.tip in s.height && s.tip in s.cumWork
  {}

  /** Against the peer's advertised tip, a node is behind exactly when its own tip is lower. */
  lemma BehindIsLower(p: Params, t: Tree, s: Tree)
    requires Inv(p, t) && Inv(p, s)
    ensures s.tip in s.height && s.tip in s.cumWork && t.tip in t.height && t.tip in t.cumWork
    ensures s.cumWork[s.tip] < t.cumWork[t.tip] || s.height[s.tip] < t.height[t.tip] <==> IsBehind(s, t)
  {
    hide Inv;
    HeldTip(p, s);
    HeldTip(p, t);
    WorkIsHeightTimesUnit(p, s, s.tip);
    WorkIsHeightTimesUnit(p, t, t.tip);
    MulCompare(t.height[t.tip], s.height[s.tip], Pow.WorkForDifficulty(p.difficulty));
  }

  /** One round against an honest peer that answers everything: the syncer asks for headers, takes the reply, keeps
      the window full while the requested bodies arrive in arbitrary bursts and order, and goes back to
      headers, or idle once level. Whatever branch the node is on and whatever waits, it gains the peer's blocks up to
      `limit` above the height the reply is anchored at, and the waiting blocks that stand on them. */
  method AnsweredRound(bc: Blockchain, sy: S.Syncer, peer: Blockchain, peerId: string, maxHeaders: int, now: int)
    returns (ghost c: nat)
    requires bc != peer && bc.Valid() && peer.Valid() && bc.p == peer.p && sy.Valid() && sy.zero == bc.p.crypto.zero
    requires Linked(peer.Snapshot()) && Linked(bc.Snapshot())
    requires Shares(bc.p, peer.Snapshot(), bc.Snapshot()) && IsBehind(bc.Snapshot(), peer.Snapshot())
    requires Window.UsablePeer(sy.cfg, peerId) && Ready(sy, peerId)
    modifies bc, sy
    ensures AnchoredAt(old(bc.Snapshot()), peer.Snapshot(), c)
    ensures RoundOver(bc, sy, peer, peerId, c, Locator.Limit(maxHeaders, 2000), old(bc.Snapshot()))
  {
    hide Inv, Underway, Quiescent, Window.WindowOk, Linked, Shares, RoundLeaves, RoundEffect, AnchoredAt, S.Wanted;
    ghost var s, t := bc.Snapshot(), peer.Snapshot();
    var metas;
    metas, c := AskForHeaders(bc, sy, peer, peerId, maxHeaders, now);
    var wanted := TakeHeaders(bc, sy, peer, peerId, metas, maxHeaders, now, c);
    if wanted {
      DownloadAll(bc, sy, peer, peerId, now, c, Locator.Limit(maxHeaders, 2000), s);
    }
  }

  /** The reply names the peer's main-chain blocks from just above height `c`, where the node holds a block, to at
      most `limit` higher. */
  ghost predicate Replied(t: Tree, s: Tree, c: nat, limit: nat, metas: seq<BlockMeta>)
    requires Linked(t)
  {
    && c < |MainPath(t)| && MainPath(t)[c] in s.blocks
    && var hi := Locator.Min(c + limit, |MainPath(t)| - 1);
       |metas| == hi - c && forall i | 0 <= i < hi - c :: metas[i].hash == MainPath(t)[c + 1 + i]
  }

  /** The syncer asks, and the peer answers with the segment above the anchor. */
  method AskForHeaders(bc: Blockchain, sy: S.Syncer, peer: Blockchain, peerId: string, maxHeaders: int, now: int)
    returns (metas: seq<BlockMeta>, ghost c: nat)
    requires bc.Valid() && peer.Valid() && bc.p == peer.p && sy.Valid() && Linked(peer.Snapshot())
             && Linked(bc.Snapshot())
    requires Shares(bc.p, peer.Snapshot(), bc.Snapshot()) && IsBehind(bc.Snapshot(), peer.Snapshot())
    requires Window.UsablePeer(sy.cfg, peerId) && Ready(sy, peerId)
    modifies sy
    ensures sy.Valid() && sy.Snapshot() == Empty() && sy.state == S.SyncingHeaders && sy.syncPeer == peerId
    ensures AnchoredAt(bc.Snapshot(), peer.Snapshot(), c)
    ensures Replied(peer.Snapshot(), bc.Snapshot(), c, Locator.Limit(maxHeaders, 2000), metas)
  {
    hide Inv, Quiescent, Window.WindowOk, Locator.IsLocator, Locator.IsAnchor, Linked, S.Behind, Shares;
    ghost var p, t, s := bc.p, peer.Snapshot(), bc.Snapshot();
    BehindIsLower(p, t, s);
    var best := TipOf(peer, peerId);
    var request := sy.Advance(now, best, bc.cumWork[bc.tip], bc.height[bc.tip]);
    assert request == Some(peerId);
    var locator := Locator.BuildLocator(bc, 32);
    metas, c := Locator.MainChainMetasFromLocator(peer, locator, maxHeaders);
    AnchorShared(p, s, t, c);
    ReplyHashes(p, t, c, Locator.Limit(maxHeaders, 2000), metas);
  }

  /** The reply is queued. If it names anything the node lacks, the download begins; if not, the round is over
      and nothing has changed. */
  method TakeHeaders(bc: Blockchain, sy: S.Syncer, peer: Blockchain, peerId: string, metas: seq<BlockMeta>,
                     maxHeaders: int, now: int, ghost c: nat)
    returns (wanted: bool)
    requires bc != peer && bc.Valid() && peer.Valid() && bc.p == peer.p && sy.Valid() && sy.zero == bc.p.crypto.zero
    requires Linked(peer.Snapshot())
    requires Replied(peer.Snapshot(), bc.Snapshot(), c, Locator.Limit(maxHeaders, 2000), metas)
    requires Shares(bc.p, peer.Snapshot(), bc.Snapshot()) && IsBehind(bc.Snapshot(), peer.Snapshot())
    requires sy.Snapshot() == Empty() && sy.state == S.SyncingHeaders && sy.syncPeer == peerId
             && Window.UsablePeer(sy.cfg, peerId)
    modifies sy
    ensures wanted ==> Downloading(bc, sy, peer, c, Locator.Limit(maxHeaders, 2000), bc.Snapshot(), [])
    ensures wanted ==> sy.Controls() == S.Control(S.SyncingBlocks, peerId, 0, false)
    ensures !wanted ==> RoundOver(bc, sy, peer, peerId, c, Locator.Limit(maxHeaders, 2000), bc.Snapshot())
  {
    hide Inv, Underway, Quiescent, Window.WindowOk, Window.Dispatched, S.WindowFilled, Shares, RoundLeaves, RoundEffect;
    hide Linked, S.Wanted, S.HeadersQueued, S.Carries;
    ghost var p, t, s := bc.p, peer.Snapshot(), bc.Snapshot();
    ghost var limit := Locator.Limit(maxHeaders, 2000);
    ghost var hi := Locator.Min(c + limit, |MainPath(t)| - 1);
    var _, _, queued, sent := sy.OnHeadersResult(S.HeadersResult(peerId, true, metas), now, peerId, bc.blocks.Keys);
    wanted := sy.state == S.SyncingBlocks;
    if wanted {
      OnlyWantedQueued(queued, metas, peerId, sy.zero, bc.blocks.Keys);
      RoundStarts(p, t, c, hi, s, metas, queued);
      ghost var ctx := Window.Context(sy.cfg, peerId, peerId, bc.blocks.Keys, now);
      DispatchKeepsUnderway(p, t, c, hi, s, s, [], ctx, sy.zero, queued, sy.Snapshot(), sent);
    } else {
      NothingNew(p, t, c, limit, s, metas);
      EffectLeaves(p, t, c, limit, s, s);
    }
  }

  /** A reply that names only held blocks is a round without effect. */
  lemma NothingNew(p: Params, t: Tree, c: nat, limit: nat, s: Tree, metas: seq<BlockMeta>)
    requires Inv(p, t) && Linked(t) && Shares(p, t, s) && c < |MainPath(t)| && MainPath(t)[c] in s.blocks
    requires var hi := Locator.Min(c + limit, |MainPath(t)| - 1);
             |metas| == hi - c && forall i | 0 <= i < hi - c :: metas[i].hash == MainPath(t)[c + 1 + i]
    requires forall h :: !S.Wanted(metas, h, p.crypto.zero, s.blocks.Keys)
    ensures RoundEffect(p, t, c, limit, s, s)
  {
    hide Inv, Link, Linked, RoundEffect, Shares, Quiescent;
    var hi := Locator.Min(c + limit, |MainPath(t)| - 1);
    SharesParts(p, t, s);
    RunNothing(p, s);
    forall i {:trigger MainPath(t)[i]} | c + 1 <= i <= hi ensures MainPath(t)[i] in s.blocks {
      MainBlock(p, t, i);
      assert metas[i - c - 1].hash == MainPath(t)[i];
      assert !S.Wanted(metas, MainPath(t)[i], p.crypto.zero, s.blocks.Keys);
    }
    SegmentExtends(p, t, c, limit, s, [], s);
  }

  /** From an empty state, exactly the wanted blocks are queued. */
  lemma OnlyWantedQueued(queued: Window.State, metas: seq<BlockMeta>, peer: string, zero: Hash, have: set<Hash>)
    requires S.HeadersQueued(Empty(), queued, metas, peer, zero, have)
    ensures queued.parents.items == [] && queued.invs.items == [] && queued.inflight == map[]
    ensures forall h :: h in queued.syncs.from <==> S.Wanted(metas, h, zero, have)
  {}

  /** Between two events of a download: the deliveries `bs` so far, and the work pending, cover the segment. */
  ghost predicate Downloading(bc: Blockchain, sy: S.Syncer, peer: Blockchain, c: nat, limit: nat, s: Tree,
                              bs: seq<Block>)
    reads bc, sy, peer
  {
    && bc != peer && bc.Valid() && peer.Valid() && bc.p == peer.p && sy.Valid()
    && var t := peer.Snapshot();
       && Linked(t) && c < |MainPath(t)| && MainPath(t)[c] in s.blocks && Shares(bc.p, t, s) && IsBehind(s, t)
       && Underway(bc.p, t, c, Locator.Min(c + limit, |MainPath(t)| - 1), s, bc.Snapshot(), bs, sy.Snapshot())
  }

  /** What a round leaves: its effect, unless blocks of other branches that waited make the node level with the peer
      before the segment is complete, which ends the download. */
  ghost predicate RoundLeaves(p: Params, t: Tree, c: nat, limit: nat, s: Tree, u: Tree)
    requires Linked(t)
  {
    && Shares(p, t, u) && Extends(s, u)
    && (IsBehind(u, t) || OnlyPeers(p, t, s) ==> RoundEffect(p, t, c, limit, s, u))
  }

  lemma EffectLeaves(p: Params, t: Tree, c: nat, limit: nat, s: Tree, u: Tree)
    requires Linked(t) && RoundEffect(p, t, c, limit, s, u)
    ensures RoundLeaves(p, t, c, limit, s, u)
  {}

  /** The round is over: the chain has changed as a round changes it, nothing is pending, and the syncer is idle if
      level with the peer, else about to ask it for more headers. */
  ghost predicate RoundOver(bc: Blockchain, sy: S.Syncer, peer: Blockchain, peerId: string, c: nat, limit: nat, s: Tree)
    reads bc, sy, peer
  {
    && bc.Valid() && peer.Valid() && sy.Valid() && Linked(peer.Snapshot()) && Ready(sy, peerId)
    && RoundLeaves(bc.p, peer.Snapshot(), c, limit, s, bc.Snapshot())
    && (sy.state == S.Idle <==> !IsBehind(bc.Snapshot(), peer.Snapshot()))
  }

  /** Receive, dispatch and decide until the download is over. */
  method DownloadAll(bc: Blockchain, sy: S.Syncer, peer: Blockchain, peerId: string, now: int,
                     ghost c: nat, ghost limit: nat, ghost s: Tree)
    requires Downloading(bc, sy, peer, c, limit, s, [])
    requires Window.UsablePeer(sy.cfg, peerId) && sy.Controls() == S.Control(S.SyncingBlocks, peerId, 0, false)
    modifies bc, sy
    ensures RoundOver(bc, sy, peer, peerId, c, limit, s)
  {
    hide Inv, Underway, Quiescent, Linked, Window.WindowOk, Shares, RoundLeaves, RoundEffect;
    ghost var bs: seq<Block> := [];
    var best := TipOf(peer, peerId);
    ghost var first := true;
    while sy.state == S.SyncingBlocks
      invariant sy.state == S.SyncingBlocks ==>
                  && sy.Controls() == S.Control(S.SyncingBlocks, peerId, 0, false)
                  && Downloading(bc, sy, peer, c, limit, s, bs) && (first || sy.inflightBlocks != map[])
      invariant sy.state != S.SyncingBlocks ==> RoundOver(bc, sy, peer, peerId, c, limit, s)
      decreases Todo(sy.Snapshot()), first, sy.state == S.SyncingBlocks
    {
      if sy.inflightBlocks != map[] {
        bs := Burst(bc, sy, peer, c, limit, s, bs);
      }
      DispatchAndDecide(bc, sy, peer, peerId, now, best, c, limit, s, bs);
      first := false;
    }
  }

  /** Fill the window and decide: go on while sync work remains, or end the download. */
  method DispatchAndDecide(bc: Blockchain, sy: S.Syncer, peer: Blockchain, peerId: string, now: int,
                           best: Option<(string, nat, nat)>, ghost c: nat, ghost limit: nat, ghost s: Tree,
                           ghost bs: seq<Block>)
    requires Downloading(bc, sy, peer, c, limit, s, bs)
    requires Window.UsablePeer(sy.cfg, peerId) && sy.Controls() == S.Control(S.SyncingBlocks, peerId, 0, false)
    requires var t := peer.Snapshot();
             t.tip in t.height && t.tip in t.cumWork && best == Some((peerId, t.height[t.tip], t.cumWork[t.tip]))
    modifies sy
    ensures Todo(sy.Snapshot()) <= old(Todo(sy.Snapshot()))
    ensures sy.state == S.SyncingBlocks ==>
              && sy.Controls() == S.Control(S.SyncingBlocks, peerId, 0, false) && sy.inflightBlocks != map[]
              && Downloading(bc, sy, peer, c, limit, s, bs)
    ensures sy.state != S.SyncingBlocks ==> RoundOver(bc, sy, peer, peerId, c, limit, s)
  {
    hide Inv, Underway, Quiescent, Window.WindowOk, Window.Dispatched, S.Carries, S.NoSyncWork, S.WindowFilled,
         S.Behind;
    hide Linked, Shares, RoundLeaves, RoundEffect;
    ghost var p, t, q := bc.p, peer.Snapshot(), sy.Snapshot();
    ghost var hi := Locator.Min(c + limit, |MainPath(t)| - 1);
    var _, _, sent := sy.DispatchQueuedBlocks(now, peerId, bc.blocks.Keys);
    ghost var ctx := Window.Context(sy.cfg, peerId, peerId, bc.blocks.Keys, now);
    DispatchKeepsUnderway(p, t, c, hi, s, bc.Snapshot(), bs, ctx, sy.zero, q, sy.Snapshot(), sent);
    Decide(bc, sy, peer, peerId, now, best, ctx, c, limit, s, bs);
  }

  /** The decision once the window is filled. */
  method Decide(bc: Blockchain, sy: S.Syncer, peer: Blockchain, peerId: string, now: int,
                best: Option<(string, nat, nat)>, ghost ctx: Window.Context, ghost c: nat, ghost limit: nat,
                ghost s: Tree, ghost bs: seq<Block>)
    requires Downloading(bc, sy, peer, c, limit, s, bs) && S.WindowFilled(ctx, sy.Snapshot())
    requires Window.UsablePeer(sy.cfg, peerId) && sy.Controls() == S.Control(S.SyncingBlocks, peerId, 0, false)
    requires ctx.cfg == sy.cfg && ctx.syncFrom == peerId
    requires var t := peer.Snapshot();
             t.tip in t.height && t.tip in t.cumWork && best == Some((peerId, t.height[t.tip], t.cumWork[t.tip]))
    modifies sy
    ensures Todo(sy.Snapshot()) <= old(Todo(sy.Snapshot()))
    ensures sy.state == S.SyncingBlocks ==>
              && sy.Controls() == S.Control(S.SyncingBlocks, peerId, 0, false) && sy.inflightBlocks != map[]
              && Downloading(bc, sy, peer, c, limit, s, bs)
    ensures sy.state != S.SyncingBlocks ==> RoundOver(bc, sy, peer, peerId, c, limit, s)
  {
    hide Inv, Underway, Quiescent, Window.WindowOk, S.NoSyncWork, S.WindowFilled, S.Behind;
    hide Linked, Shares, RoundLeaves, RoundEffect;
    ghost var p, t, r := bc.p, peer.Snapshot(), sy.Snapshot();
    BehindIsLower(p, t, bc.Snapshot());
    NoSyncWorkMeans(r);
    var _ := sy.Advance(now, best, bc.cumWork[bc.tip], bc.height[bc.tip]);
    if sy.state == S.SyncingBlocks {
      NotYetDone(ctx, r);
    } else {
      RoundEnds(p, t, c, limit, s, bc.Snapshot(), bs, r, sy.cfg, sy.zero);
      NothingToDo();
    }
  }

  lemma NoSyncWorkMeans(r: Window.State)
    ensures S.NoSyncWork(r) <==> r.syncs.items == [] && forall h | h in r.inflight :: r.inflight[h].kind != Window.Sync
  {}

  lemma NothingToDo()
    ensures Todo(Empty()) == {}
  {}

  /** While sync work remains after a dispatch, something is in flight. */
  lemma NotYetDone(c: Window.Context, r: Window.State)
    requires S.WindowFilled(c, r) && !S.NoSyncWork(r) && c.cfg.maxInflight > 0 && Window.UsablePeer(c.cfg, c.syncFrom)
    ensures r.inflight != map[]
  {}

  /** The decision that ends a download, either way: everything was received, and nothing is pending. */
  lemma RoundEnds(p: Params, t: Tree, c: nat, limit: nat, s: Tree, u: Tree, bs: seq<Block>, r: Window.State,
                  cfg: Window.Config, zero: Hash)
    requires Inv(p, t) && Linked(t) && Shares(p, t, s) && IsBehind(s, t)
    requires c < |MainPath(t)| && MainPath(t)[c] in s.blocks
    requires Underway(p, t, c, Locator.Min(c + limit, |MainPath(t)| - 1), s, u, bs, r) && Window.WindowOk(cfg, zero, r)
    requires S.NoSyncWork(r) || !IsBehind(u, t)
    ensures RoundLeaves(p, t, c, limit, s, u) && (S.NoSyncWork(r) ==> RoundEffect(p, t, c, limit, s, u))
    ensures S.WithoutSync(r) == Empty() && (S.NoSyncWork(r) ==> r == Empty())
  {
    hide Inv, Run, Quiescent, Window.WindowOk, Linked, Shares, RoundLeaves, RoundEffect, IsBehind, OnlyPeers, Fed;
    var hi := Locator.Min(c + limit, |MainPath(t)| - 1);
    OnlySyncEmpties(cfg, zero, r);
    if S.NoSyncWork(r) {
      IdleAtEnd(p, t, c, hi, s, u, bs, r, cfg, zero);
      NothingLeft(p, t, c, limit, s, u, bs, r);
      EffectLeaves(p, t, c, limit, s, u);
    } else {
      CutShort(p, t, c, limit, s, u, bs);
    }
  }

  /** The node is level before the segment is complete. */
  lemma CutShort(p: Params, t: Tree, c: nat, limit: nat, s: Tree, u: Tree, bs: seq<Block>)
    requires Inv(p, t) && Linked(t) && Shares(p, t, s) && IsBehind(s, t)
    requires c < |MainPath(t)| && MainPath(t)[c] in s.blocks && Run(p, s, bs, u) && !IsBehind(u, t)
    requires forall b | b in bs :: b in Segment(t, c + 1, Locator.Min(c + limit, |MainPath(t)| - 1))
    ensures RoundLeaves(p, t, c, limit, s, u)
  {
    hide Inv, Run, Quiescent, Linked, Shares, RoundEffect, IsBehind, OnlyPeers, Fed, Segment, Extends;
    var hi := Locator.Min(c + limit, |MainPath(t)| - 1);
    SegmentFed(p, t, c, hi, s, bs, u);
    FedParts(p, t, c, hi, s, bs, u);
    FedShares(p, t, c, hi, s, bs, u);
    if OnlyPeers(p, t, s) {
      LevelHoldsAll(p, t, c, hi, s, u, bs);
      SegmentExtends(p, t, c, limit, s, bs, u);
    }
  }

  lemma OnlySyncEmpties(cfg: Window.Config, zero: Hash, r: Window.State)
    requires OnlySync(r) && Window.WindowOk(cfg, zero, r)
    ensures S.WithoutSync(r) == Empty() && (S.NoSyncWork(r) ==> r.inflight == map[])
  {
    hide Window.WindowOk;
    EmptyQueues(cfg, zero, r);
    assert S.WithoutSync(r).inflight == map[];
    if S.NoSyncWork(r) {
      assert forall h :: h !in r.inflight;
    }
  }

  /** A node that was behind and is level, having received only blocks of the segment with only the peer's blocks
      waiting, holds all of it. */
  lemma LevelHoldsAll(p: Params, t: Tree, c: nat, hi: nat, s: Tree, u: Tree, bs: seq<Block>)
    requires Inv(p, t) && Linked(t) && Shares(p, t, s) && IsBehind(s, t) && c <= hi < |MainPath(t)|
    requires Fed(p, t, c, hi, s, bs, u) && !IsBehind(u, t) && OnlyPeers(p, t, s)
    ensures forall i | 0 <= i < |MainPath(t)| :: MainPath(t)[i] in u.blocks
  {
    hide Inv, Link, Linked, Quiescent, Shares, Fed, Extends;
    FedParts(p, t, c, hi, s, bs, u);
    FedShares(p, t, c, hi, s, bs, u);
    HeldTip(p, u);
    TipIsTop(p, t);
    NotInOld(p, t, s, u);
    HeldFrom(p, t, c, hi, s, bs, u, u.tip);
    EndHashRight(p, t, u, u.tip);
    assert u.tip in MainPath(t);
    var i: nat :| i < |MainPath(t)| && MainPath(t)[i] == u.tip;
    AtOwnHeight(p, t, u, i);
    forall j | 0 <= j < |MainPath(t)| ensures MainPath(t)[j] in u.blocks {
      BelowHeld(p, t, u, i, j);
    }
  }

  /** A tip level with the peer is not one a lower tree holds. */
  lemma NotInOld(p: Params, t: Tree, s: Tree, u: Tree)
    requires Shares(p, t, s) && IsBehind(s, t) && !IsBehind(u, t) && Extends(s, u) && u.tip in u.height
    ensures u.tip !in s.blocks
  {
    hide Inv, Linked, Quiescent;
    if u.tip in s.blocks {
      TipIsHighest(p, s, u.tip);
      InHeight(p, s, u.tip);
    }
  }

  lemma InHeight(p: Params, s: Tree, h: Hash)
    requires Inv(p, s) && h in s.blocks
    ensures h in s.height
  {}

  lemma ReplyHashes(p: Params, t: Tree, c: nat, limit: nat, metas: seq<BlockMeta>)
    requires Inv(p, t) && Linked(t) && c < |MainPath(t)|
    requires var above := Locator.BlocksAbove(t, c, limit);
             |metas| == |above| && forall i | 0 <= i < |above| :: metas[i] == Locator.MetaOf(above[i])
    ensures var hi := Locator.Min(c + limit, |MainPath(t)| - 1);
            c <= hi && |metas| == hi - c && forall i | 0 <= i < hi - c :: metas[i].hash == MainPath(t)[c + 1 + i]
  {
    hide Inv, Link, Linked;
    var hi := Locator.Min(c + limit, |MainPath(t)| - 1);
    forall i | 0 <= i < hi - c ensures metas[i].hash == MainPath(t)[c + 1 + i] {
      assert Locator.BlocksAbove(t, c, limit)[i] == MainChain(t)[c + 1 + i];
      MainBlock(p, t, c + 1 + i);
    }
  }

  lemma IdleAtEnd(p: Params, t: Tree, n: nat, hi: nat, s: Tree, u: Tree, bs: seq<Block>, q: Window.State,
                  cfg: Window.Config, zero: Hash)
    requires Linked(t) && n <= hi < |MainPath(t)| && Underway(p, t, n, hi, s, u, bs, q) && Window.WindowOk(cfg, zero, q)
    requires q.syncs.items == [] && q.inflight == map[]
    ensures q == Empty() && Todo(q) == {}
  {
    hide Inv, Run, Quiescent;
    EmptyQueues(cfg, zero, q);
    S.QueueEmptyIff(q.syncs, zero);
  }

  /** A non-empty burst of arrivals: any blocks in flight, in any order. */
  method Burst(bc: Blockchain, sy: S.Syncer, peer: Blockchain, ghost c: nat, ghost limit: nat, ghost s: Tree,
               ghost bs: seq<Block>)
    returns (ghost delivered: seq<Block>)
    requires Downloading(bc, sy, peer, c, limit, s, bs) && sy.inflightBlocks != map[]
    modifies bc, sy`inflightBlocks
    ensures Downloading(bc, sy, peer, c, limit, s, delivered)
    ensures Todo(sy.Snapshot()) < old(Todo(sy.Snapshot()))
  {
    hide Inv, Underway, Quiescent, Linked, Shares, IsBehind, Window.WindowOk;
    ghost var hi := Locator.Min(c + limit, |MainPath(peer.Snapshot())| - 1);
    delivered := bs;
    var more := true;
    while more && sy.inflightBlocks != map[]
      invariant Downloading(bc, sy, peer, c, limit, s, delivered)
      invariant if more then Todo(sy.Snapshot()) <= old(Todo(sy.Snapshot()))
                else Todo(sy.Snapshot()) < old(Todo(sy.Snapshot()))
      invariant sy.inflightBlocks == map[] ==> Todo(sy.Snapshot()) < old(Todo(sy.Snapshot()))
      decreases sy.inflightBlocks.Keys
    {
      var h :| h in sy.inflightBlocks;
      ghost var q, u := sy.Snapshot(), bc.Snapshot();
      OnPeersChain(bc.p, peer.Snapshot(), c, hi, s, u, delivered, q, h);
      var b := peer.blocks[h];
      sy.OnBlockArrived(h);
      var _, _ := bc.AddBlock(b);
      ArrivalKeepsUnderway(bc.p, peer.Snapshot(), c, hi, s, u, delivered, q, h, bc.Snapshot());
      delivered := delivered + [b];
      more := *;
    }
  }

  lemma OnPeersChain(p: Params, t: Tree, n: nat, hi: nat, s: Tree, u: Tree, bs: seq<Block>, q: Window.State, h: Hash)
    requires Inv(p, t) && Linked(t) && n <= hi < |MainPath(t)| && Underway(p, t, n, hi, s, u, bs, q) && h in q.inflight
    ensures h in t.blocks && h in Todo(q)
  {
    hide Inv, Run, Quiescent;
    assert h in Todo(q);
    var i := InSegment(p, t, n, hi, h);
  }

  /** The node is behind the peer and shares with it, only the peer's blocks wait, and what a reply to its locator
      names above height `c` of the peer's main chain, or waiting blocks on top of that, rises above its tip. */
  ghost predicate ReplyRises(bc: Blockchain, peer: Blockchain, maxHeaders: int, c: nat)
    reads bc, peer
  {
    var s, t := bc.Snapshot(), peer.Snapshot();
    && Linked(s) && Linked(t) && Shares(bc.p, t, s) && IsBehind(s, t) && OnlyPeers(bc.p, t, s)
    && AnchoredAt(s, t, c) && c < |MainPath(t)| && Rises(bc.p, t, c, Locator.Limit(maxHeaders, 2000), s)
  }

  /** One round up to where the first reply ends, then as many as the rest needs. */
  function RoundsNeeded(top: nat, c: nat, limit: nat): nat
    requires limit > 0
  {
    1 + Rounds(top - Locator.Min(c + limit, top), limit)
  }

  /** Every block of the peer that the node holds or parks is the same to the last transaction. */
  ghost predicate NoTwins(p: Params, t: Tree, s: Tree) {
    forall h | h in t.blocks ::
      && (h in s.blocks ==> s.blocks[h] == t.blocks[h])
      && (h in s.orphans && HashRight(p, Filed(p, s.orphans[h])) ==> Filed(p, s.orphans[h]) == t.blocks[h])
  }

  lemma HeldStays(s: Tree, u: Tree)
    requires Extends(s, u)
    ensures forall h | h in s.blocks :: h in u.blocks && u.blocks[h] == s.blocks[h]
  {}

  lemma NoTwinsStays(p: Params, t: Tree, c: nat, limit: nat, s: Tree, u: Tree)
    requires Inv(p, t) && Linked(t) && NoTwins(p, t, s) && RoundEffect(p, t, c, limit, s, u)
    ensures NoTwins(p, t, u)
  {
    hide Inv, Linked, Shares, TipEffect, Extends, Gained;
    RoundShares(p, t, c, limit, s, u);
    SharesParts(p, t, u);
    HeldStays(s, u);
    forall h | h in t.blocks && h in u.blocks ensures u.blocks[h] == t.blocks[h] {
      if h !in s.blocks {
        GainedSame(p, t, Locator.Min(c + limit, |MainPath(t)| - 1), s, u, h);
      }
    }
  }

  lemma GainedSame(p: Params, t: Tree, hi: nat, s: Tree, u: Tree, h: Hash)
    requires Inv(p, t) && Linked(t) && NoTwins(p, t, s) && Inv(p, u) && h in u.blocks && h in t.blocks
    requires Gained(p, t, hi, s, u, h)
    ensures u.blocks[h] == t.blocks[h]
  {
    hide Inv, Link, Linked;
    EndHashRight(p, t, u, h);
    if i: nat :| i <= hi && i < |MainPath(t)| && MainPath(t)[i] == h && u.blocks[h] == MainChain(t)[i] {
      MainBlock(p, t, i);
    }
  }

  /** What a round that raises the tip establishes for the next, where only the peer's blocks wait. */
  lemma Climbed(p: Params, t: Tree, c: nat, limit: nat, s: Tree, u: Tree) returns (at: nat)
    requires Inv(p, t) && Linked(t) && RoundLeaves(p, t, c, limit, s, u) && OnlyPeers(p, t, s)
    requires s.tip in s.height && c < |MainPath(t)| && Rises(p, t, c, limit, s)
    ensures Shares(p, t, u) && Linked(u) && OnlyPeers(p, t, u) && (NoTwins(p, t, s) ==> NoTwins(p, t, u))
    ensures at < |MainPath(t)| && u.tip == MainPath(t)[at] && Locator.Min(c + limit, |MainPath(t)| - 1) <= at
    ensures s.orphans == map[] ==> u.orphans == map[] && at == Locator.Min(c + limit, |MainPath(t)| - 1)
  {
    hide Inv, Link, Linked, Shares, Extends, RoundEffect, OnlyPeers, Rises, NoTwins;
    SharesParts(p, t, u);
    OnlyPeersStays(p, t, c, limit, s, u);
    at := RaisedOntoChain(p, t, c, limit, s, u);
    if NoTwins(p, t, s) {
      NoTwinsStays(p, t, c, limit, s, u);
    }
  }

  /** Catching up from any branch. A node that shares genesis with an honest peer and is behind it, at which only the
      peer's blocks wait, and whose first reply rises above its tip, reaches the peer's tip in at most
      1 + ceil(rest / limit) answered rounds, whatever the arrival order within each, where `rest` is what the first
      reply leaves open; in exactly that many if nothing waits. */
  method CatchUpWith(bc: Blockchain, sy: S.Syncer, peer: Blockchain, peerId: string, maxHeaders: int, now: int,
                     ghost start: nat)
    returns (rounds: nat)
    requires bc != peer && bc.Valid() && peer.Valid() && bc.p == peer.p && sy.Valid() && sy.zero == bc.p.crypto.zero
    requires ReplyRises(bc, peer, maxHeaders, start)
    requires Window.UsablePeer(sy.cfg, peerId) && Ready(sy, peerId)
    modifies bc, sy
    ensures bc.Valid() && sy.Valid() && bc.tip == peer.tip && Ready(sy, peerId) && sy.state == S.Idle
    ensures Linked(bc.Snapshot()) && MainPath(bc.Snapshot()) == MainPath(peer.Snapshot())
    ensures old(NoTwins(bc.p, peer.Snapshot(), bc.Snapshot())) ==>
              MainChain(bc.Snapshot()) == MainChain(peer.Snapshot())
    ensures rounds <= RoundsNeeded(|MainPath(peer.Snapshot())| - 1, start, Locator.Limit(maxHeaders, 2000))
    ensures old(bc.orphans) == map[] ==>
              rounds == RoundsNeeded(|MainPath(peer.Snapshot())| - 1, start, Locator.Limit(maxHeaders, 2000))
  {
    hide Inv, Quiescent, Window.WindowOk, Linked, Shares, RoundLeaves, AnchoredAt, IsBehind, Rounds, OnlyPeers, Rises,
         NoTwins;
    ghost var p, t, s := bc.p, peer.Snapshot(), bc.Snapshot();
    ghost var limit := Locator.Limit(maxHeaders, 2000);
    ghost var top: nat := |MainPath(t)| - 1;
    AnchorShared(p, s, t, start);
    ghost var c := AnsweredRound(bc, sy, peer, peerId, maxHeaders, now);
    AnchorIsOne(p, s, t, c, start);
    rounds := 1;
    ghost var n := Climbed(p, t, c, limit, s, bc.Snapshot());
    RoundsMonotone(top - n, top - Locator.Min(start + limit, top), limit);
    LevelIsTip(p, t, bc.Snapshot(), n);
    while bc.tip != peer.tip
      invariant bc.Valid() && sy.Valid() && bc.p == p && Ready(sy, peerId)
                && (sy.state == S.Idle <==> bc.tip == peer.tip)
      invariant Shares(p, t, bc.Snapshot()) && Linked(bc.Snapshot()) && n <= top && bc.tip == MainPath(t)[n]
      invariant OnlyPeers(p, t, bc.Snapshot()) && (NoTwins(p, t, s) ==> NoTwins(p, t, bc.Snapshot()))
      invariant (bc.tip == peer.tip <==> n == top) && (IsBehind(bc.Snapshot(), t) <==> n < top)
      invariant rounds + Rounds(top - n, limit) <= RoundsNeeded(top, start, limit)
      invariant s.orphans == map[] ==>
                  bc.orphans == map[] && rounds + Rounds(top - n, limit) == RoundsNeeded(top, start, limit)
      decreases top - n
    {
      ghost var u, was := bc.Snapshot(), n;
      c := AnsweredRound(bc, sy, peer, peerId, maxHeaders, now);
      ClimbsOn(p, t, u, n, c, limit);
      n := Climbed(p, t, c, limit, u, bc.Snapshot());
      RoundsUnfold(top - was, limit);
      RoundsMonotone(top - n, top - Locator.Min(was + limit, top), limit);
      LevelIsTip(p, t, bc.Snapshot(), n);
      rounds := rounds + 1;
    }
    RoundsUnfold(0, limit);
    WholeChain(p, t, bc.Snapshot());
  }

  lemma RoundsUnfold(gap: nat, limit: nat)
    requires limit > 0
    ensures Rounds(gap, limit) == if gap == 0 then 0 else 1 + Rounds(if gap < limit then 0 else gap - limit, limit)
  {}

  /** From a tip on the peer's main chain the reply rises. */
  lemma ClimbsOn(p: Params, t: Tree, u: Tree, n: nat, c: nat, limit: nat)
    requires Inv(p, t) && Linked(t) && Shares(p, t, u) && Linked(u) && AnchoredAt(u, t, c) && limit > 0
    requires n < |MainPath(t)| - 1 && u.tip == MainPath(t)[n]
    ensures c == n && u.tip in u.height && u.height[u.tip] == n && Rises(p, t, c, limit, u)
  {
    hide Inv, Linked, Shares, AnchoredAt, OnTop;
    TipAnchored(p, u, t, n, c);
    OnChainHeight(p, t, u, n);
  }

  lemma LevelIsTip(p: Params, t: Tree, u: Tree, n: nat)
    requires Inv(p, t) && Linked(t) && Shares(p, t, u) && n < |MainPath(t)| && u.tip == MainPath(t)[n]
    ensures u.tip == t.tip <==> n == |MainPath(t)| - 1
    ensures IsBehind(u, t) <==> n < |MainPath(t)| - 1
  {
    hide Inv, Linked, Shares;
    OnChainHeight(p, t, u, n);
  }

  /** A node at the peer's tip has the peer's main chain. */
  lemma WholeChain(p: Params, t: Tree, u: Tree)
    requires Inv(p, t) && Linked(t) && Shares(p, t, u) && Linked(u) && u.tip == t.tip
    ensures MainPath(u) == MainPath(t)
    ensures NoTwins(p, t, u) ==> MainChain(u) == MainChain(t)
  {
    hide Inv, Link;
    SharesParts(p, t, u);
    SharedHistory(u, t, t.tip);
    if NoTwins(p, t, u) {
      SameBlocksOnPath(u, t, MainPath(t));
    }
  }

  lemma SameBlocksOnPath(u: Tree, t: Tree, hs: seq<Hash>)
    requires forall h | h in hs :: h in u.blocks && h in t.blocks && u.blocks[h] == t.blocks[h]
    ensures BlocksAt(u, hs) == BlocksAt(t, hs)
  {}

  /** For a node whose tip is on the peer's main chain, as a fresh node's is, that number is the gap divided by the
      limit, rounded up, and the first reply always rises above its tip. */
  lemma PrefixNeedsCeiling(p: Params, t: Tree, s: Tree, n: nat, c: nat, limit: nat)
    requires Inv(p, t) && Linked(t) && Linked(s) && Shares(p, t, s) && AnchoredAt(s, t, c) && limit > 0
    requires n < |MainPath(t)| - 1 && s.tip == MainPath(t)[n]
    ensures var top := |MainPath(t)| - 1;
            && c == n && s.tip in s.height && Rises(p, t, c, limit, s)
            && RoundsNeeded(top, c, limit) == Rounds(top - n, limit)
  {
    hide Inv, Linked, Shares, AnchoredAt, Rises;
    ClimbsOn(p, t, s, n, c, limit);
  }
}
