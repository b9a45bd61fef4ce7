/** The node: one accepted block drives the chain, then the mempool, then the store. */
module Node {
  import opened Types
  import opened Tree
  import opened ForkChoice
  import opened Orphans
  import opened Chain
  import opened Pool
  import opened Conservation
  import opened Disk
  import opened Recovery
  import History
  import Mempool
  import Restart
  import Store

  class Node {
    const chain: Blockchain
    const mempool: Mempool.Mempool
    const store: Store.Store

    ghost predicate Valid()
      reads this, chain, mempool, mempool.buf, store
    {
      chain.Valid() && mempool.Valid() && store.p == chain.p
    }

    constructor (c: Blockchain, m: Mempool.Mempool, s: Store.Store)
      requires c.Valid() && m.Valid() && s.p == c.p
      ensures Valid() && chain == c && mempool == m && store == s
    {
      chain, mempool, store := c, m, s;
    }

    /** Accept a block from the network. The clock is read once for each transaction returned to the pool. */
    method OnNewBlock(b: Block, clock: nat -> int)
      requires Valid()
      modifies chain, mempool, mempool.buf, store
      ensures Valid()
      ensures AddStep(chain.p, old(chain.Snapshot()), b, chain.Snapshot())
      ensures var r := Connect(chain.p, old(chain.Snapshot()), b);
              mempool.Contents() == PoolAfter(mempool.cfg, old(mempool.Contents()), r.res, b, clock)
      // what joins the main chain by the block's own step leaves the pool; on an extension nothing else changes, and
      // when that step leaves the tip nothing changes at all
      ensures var s := old(chain.Snapshot()); var t := Connect(chain.p, s, b).tree;
              && Linked(s) && Linked(t)
              && (t.tip != s.tip ==> forall x, tx, e ::
                    x in MainChain(t) && x !in MainChain(s) && tx in x.txs && e in mempool.Contents() ==>
                      e.tx.id != tx.id)
              && (t.tip != s.tip && MainChain(s) <= MainChain(t) ==>
                    OnlyDrops(old(mempool.Contents()), TxIds(b.txs), mempool.Contents()))
              && (t.tip == s.tip ==> mempool.Contents() == old(mempool.Contents()))
      ensures var r := Connect(chain.p, old(chain.Snapshot()), b);
              var c := Persisted(chain.p, old(store.manifest), old(store.Directory()), r.res, chain.blocks, chain.tip);
              && store.manifest == c.manifest && store.log == old(store.log) + c.ops
              && store.Directory() == ApplyAll(old(store.Directory()), c.ops)
      // the directory is written only when the block's own step moves the tip
      ensures Connect(chain.p, old(chain.Snapshot()), b).tree.tip == old(chain.tip) ==>
                store.log == old(store.log) && store.manifest == old(store.manifest)
                && store.Directory() == old(store.Directory())
    {
      hide Inv, Linked, Connect, AddStep, TipChange, Agree, PoolAfterReorg, Without, TxIds, OnlyDrops, MainChain;
      hide Quiescent;
      ghost var s := chain.Snapshot();
      ghost var p := chain.p;
      ConnectReports(p, s, b);
      ConfirmedLeavePool(p, s, b, mempool.cfg, mempool.Contents(), clock);
      var res, err := chain.AddBlock(b);
      if err.Some? || !res.added {
        assert store.log == old(store.log) + [];
        return;
      }
      if res.reorg.Some? {
        ApplyReorg(res.reorg.value, clock);
      } else if res.isNewTip {
        RemoveTxsFromBlock(b);
      }
      if res.isNewTip {
        var _ := store.ApplyTipChange(chain, chain.tip, res.reorg);
      } else {
        assert store.log == old(store.log) + [];
      }
    }

    /** Return the removed blocks' transactions to the pool, then drop those the added blocks confirm. */
    method ApplyReorg(r: Reorg, clock: nat -> int)
      requires mempool.Valid()
      modifies mempool, mempool.buf
      ensures mempool.Valid() && (mempool.buf == old(mempool.buf) || fresh(mempool.buf))
      ensures mempool.Contents() == PoolAfterReorg(mempool.cfg, old(mempool.Contents()), r, clock)
    {
      hide Agree, TxsOf, ReturnAll, Keep, OnlyDrops;
      ghost var es, cfg := mempool.Contents(), mempool.cfg;
      NoTxs();
      ReturnNothing(cfg, es, clock);
      assert r.removed[..0] == [];
      var returned := 0;
      for i := 0 to |r.removed|
        invariant mempool.Valid() && (mempool.buf == old(mempool.buf) || fresh(mempool.buf))
        invariant mempool.Contents() == ReturnAll(cfg, es, TxsOf(r.removed[..i]), clock)
                  && returned == |TxsOf(r.removed[..i])|
      {
        mempool.Return(r.removed[i].txs, From(clock, returned));
        returned := returned + |r.removed[i].txs|;
        assert r.removed[..i + 1] == r.removed[..i] + [r.removed[i]];
        TxsOfSnoc(r.removed[..i], r.removed[i]);
        ReturnAllConcat(cfg, es, TxsOf(r.removed[..i]), r.removed[i].txs, clock);
      }
      assert r.removed[..|r.removed|] == r.removed;
      var ids := CollectIds(r.added);
      mempool.RemoveByID(ids);
    }

    /** The IDs of every transaction in a run of blocks. */
    method CollectIds(bs: seq<Block>) returns (ids: set<string>)
      ensures ids == set t | t in TxsOf(bs) :: t.id
    {
      hide TxsOf, TxIds;
      ids := {};
      NoTxs();
      NoTxIds();
      assert bs[..0] == [];
      for i := 0 to |bs|
        invariant ids == TxIds(TxsOf(bs[..i]))
      {
        assert bs[..i + 1] == bs[..i] + [bs[i]];
        TxsOfSnoc(bs[..i], bs[i]);
        ids := AddIds(ids, bs[i].txs);
        TxIdsConcat(TxsOf(bs[..i]), bs[i].txs);
      }
      assert bs[..|bs|] == bs;
      TxIdsMeans(TxsOf(bs));
    }

    method AddIds(before: set<string>, txs: seq<Tx>) returns (ids: set<string>)
      ensures ids == before + TxIds(txs)
    {
      hide TxIds;
      ids := before;
      NoTxIds();
      assert txs[..0] == [];
      for j := 0 to |txs|
        invariant ids == before + TxIds(txs[..j])
      {
        assert txs[..j + 1] == txs[..j] + [txs[j]];
        TxIdsConcat(txs[..j], [txs[j]]);
        OneTxId(txs[j]);
        ids := ids + {txs[j].id};
      }
      assert txs[..|txs|] == txs;
    }

    method RemoveTxsFromBlock(b: Block)
      requires mempool.Valid()
      modifies mempool, mempool.buf
      ensures mempool.Valid() && mempool.buf == old(mempool.buf)
      ensures mempool.Contents() == Without(old(mempool.Contents()), TxIds(b.txs))
    {
      hide Agree, OnlyDrops, Keep;
      if b.txs == [] {
        Mempool.KeepAll(mempool.Contents(), NotIn({}));
        assert TxIds(b.txs) == {};
        return;
      }
      var ids := CollectIds([b]);
      assert TxsOf([b]) == b.txs by {
        assert [b][..0] == [] && TxsOf([]) == [];
      }
      mempool.RemoveByID(ids);
    }
  }

  lemma NoTxIds()
    ensures TxIds([]) == {}
  {}

  lemma OneTxId(t: Tx)
    ensures TxIds([t]) == {t.id}
  {
    assert forall u :: u in [t] <==> u == t;
  }

  lemma TxIdsMeans(txs: seq<Tx>)
    ensures TxIds(txs) == set t | t in txs :: t.id
  {}

  lemma ReturnNothing(cfg: Config, es: seq<Entry>, clock: nat -> int)
    ensures ReturnAll(cfg, es, [], clock) == es
  {}

  lemma ConnectReports(p: Params, s: Tree, b: Block)
    requires Inv(p, s)
    ensures var r := Connect(p, s, b);
            && (r.err.Some? ==> !r.res.added)
            && (!r.res.added ==> !r.res.isNewTip && r.res.reorg.None?)
            && (r.res.reorg.Some? ==> r.res.isNewTip)
            && (r.res.isNewTip <==> r.tree.tip != s.tip)
  {
    TipRisesByOne(p, s, b);
  }

  // ---------- starting up ----------

  /** Rebuild a chain from loaded blocks: genesis first, then each block in turn; any refusal is fatal. */
  method Restore(p: Params, bs: seq<Block>) returns (chain: Blockchain?, ghost at: nat, ghost m: Tree)
    requires p.crypto.Valid() && bs != [] && bs[0].header.height == 0
    ensures chain != null ==>
              fresh(chain) && chain.Valid() && chain.p == p
                  && Restart.Replay(p, Fresh(p, bs[0]), bs[1..], chain.Snapshot())
    ensures chain == null ==>
              0 < at < |bs| && Restart.Replay(p, Fresh(p, bs[0]), bs[1..at], m) && Inv(p, m)
                  && Connect(p, m, bs[at]).err.Some?
  {
    hide Inv, Connect, AddStep, Fresh, Restart.Replay, Quiescent;
    var c := new Blockchain(bs[0], p);
    ghost var s := c.Snapshot();
    at := 0;
    m := s;
    assert bs[1..1] == [];
    Restart.NothingReplayed(p, s);
    for i := 1 to |bs|
      invariant fresh(c) && c.Valid() && c.p == p && Restart.Replay(p, s, bs[1..i], c.Snapshot())
      invariant s == Fresh(p, bs[0])
    {
      m := c.Snapshot();
      var res, err := c.AddBlock(bs[i]);
      if err.Some? {
        at := i;
        return null, at, m;
      }
      Restart.ReplaySnoc(p, s, bs[1..i], m, bs[i], c.Snapshot());
      assert bs[1..i + 1] == bs[1..i] + [bs[i]];
    }
    assert bs[1..|bs|] == bs[1..];
    chain := c;
  }

  /** Restoring any initial part of a main chain succeeds. */
  lemma RestoreAccepts(p: Params, s: Tree, bs: seq<Block>, at: nat, m: Tree)
    requires Inv(p, s) && bs != [] && bs <= MainChain(s) && 0 < at < |bs|
    requires Run(p, Fresh(p, bs[0]), bs[1..at], m) && Inv(p, m)
    ensures Connect(p, m, bs[at]).err.None?
  {
    hide Connect, Fresh, Run, Inv, Linked, Restart.Built;
    InvLinked(p, s);
    assert bs[1..at] == MainChain(s)[1..at] && bs[0] == MainChain(s)[0];
    Restart.ReplayRebuilds(p, s, at, m);
    Restart.BuiltConnect(p, s, at - 1, m);
  }

  /** A data directory as opened: a new one gets the genesis file and a manifest. */
  ghost function Opened(p: Params, dir: Disk, genesis: Block): Disk {
    if dir.manifest.Some? then dir
    else
      var s := Fresh(p, genesis);
      ApplyAll(dir, [PutBlock(Filed(p, s.blocks[s.genesis])), PutManifest(Manifest(p.difficulty, 0, s.genesis))])
  }

  /** Start a node on a directory: open the store, load the main chain, rebuild the tree from it. It fails exactly
      on another difficulty, on a missing genesis file, or at a loaded block that is refused. */
  method Start(p: Params, dir: Disk, genesis: Block)
    returns (chain: Blockchain?, st: Store.Store?, ghost at: nat, ghost m: Tree)
    requires p.crypto.Valid() && genesis.header.height == 0
    requires 0 in dir.files ==> dir.files[0].header.height == 0
    ensures chain != null ==>
              && st != null && fresh(chain) && fresh(st) && chain.Valid() && chain.p == p && st.p == p
              && var y := History.Node(chain.Snapshot(), st.manifest, st.Directory());
                 History.Restarted(p, Opened(p, dir, genesis), y)
    ensures chain == null ==>
              var d := Opened(p, dir, genesis); var loaded := Load(d);
              || d.manifest.value.difficulty != p.difficulty
              || loaded == []
              || (0 < at < |loaded| && Restart.Replay(p, Fresh(p, loaded[0]), loaded[1..at], m)
                  && Inv(p, m) && Connect(p, m, loaded[at]).err.Some?)
  {
    hide Inv, Connect, AddStep, Fresh, Restart.Replay, Quiescent;
    chain, at := null, 0;
    m := Fresh(p, genesis);
    OpenedIs(p, dir, genesis);
    var openErr;
    st, openErr := Store.Store.Open(p, dir, genesis);
    if openErr.Some? {
      return;
    }
    ghost var d := st.Directory();
    assert d == Opened(p, dir, genesis);
    var blocks, loadErr := st.LoadMainChain();
    if loadErr.Some? {
      NothingLoads(d);
      return;
    }
    FirstLoaded(d);
    chain, at, m := Restore(p, blocks);
  }

  lemma OpenedIs(p: Params, dir: Disk, genesis: Block)
    requires genesis.header.height == 0
    ensures var d := Opened(p, dir, genesis);
            && d.manifest.Some?
            && (dir.manifest.None? ==>
                  && d.manifest.value == Manifest(p.difficulty, 0, Fresh(p, genesis).genesis)
                  && 0 in d.files && d.files[0].header.height == 0)
            && (dir.manifest.Some? ==> d == ApplyAll(dir, []))
  {
    var s := Fresh(p, genesis);
    ApplyTwo(dir, PutBlock(Filed(p, s.blocks[s.genesis])), PutManifest(Manifest(p.difficulty, 0, s.genesis)));
  }

  lemma NothingLoads(d: Disk)
    requires 0 !in d.files
    ensures Load(d) == []
  {}

  lemma FirstLoaded(d: Disk)
    requires 0 in d.files && d.manifest.Some?
    ensures Load(d) != [] && Load(d)[0] == d.files[0]
  {}
}
