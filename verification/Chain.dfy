/** The node's chain: cross-linked maps updated in place. Every method is proved against the
    tree functions; `Snapshot` is the tree the fields hold. */
module Chain {
  import opened Types
  import opened Tree
  import opened Orphans
  import opened Validity
  import Pow

  /** Reverse a slice in place. */
  method ReverseInPlace<T>(bs: seq<T>) returns (out: seq<T>)
    ensures |out| == |bs| && forall k | 0 <= k < |bs| :: out[k] == bs[|bs| - 1 - k]
  {
    out := bs;
    var i, j := 0, |bs| - 1;
    while i < j
      invariant i + j == |bs| - 1 && 0 <= i <= j + 1 && |out| == |bs|
      invariant forall k | i <= k <= j :: out[k] == bs[k]
      invariant forall k | 0 <= k < i || j < k < |bs| :: out[k] == bs[|bs| - 1 - k]
    {
      var first, last := out[i], out[j];
      out := out[i := last][j := first];
      i, j := i + 1, j - 1;
    }
  }

  class Blockchain {
    const p: Params
    var blocks: map<Hash, Block>
    var parent: map<Hash, Hash>
    var cumWork: map<Hash, nat>
    var height: map<Hash, nat>
    var tip: Hash
    var genesis: Hash
    var orphans: map<Hash, Block>

    ghost function Snapshot(): Tree
      reads this
    {
      Tree(blocks, parent, cumWork, height, tip, genesis, orphans)
    }

    ghost predicate Valid()
      reads this
    {
      Inv(p, Snapshot()) && Quiescent(Snapshot())
    }

    /** The genesis block's root and hash are recomputed, whatever the argument carries. */
    constructor (g: Block, params: Params)
      requires params.crypto.Valid() && g.header.height == 0
      ensures Valid() && p == params && Snapshot() == Fresh(params, g)
      ensures blocks.Keys == {genesis} && tip == genesis && orphans == map[]
      ensures var b := blocks[genesis];
              && b == Block(g.header.(txRoot := p.crypto.sha256(Pow.JoinIds(g.txs))), g.nonce, genesis, g.txs)
              && genesis == p.crypto.hashHeader(b.header, g.nonce)
    {
      var root := g.header.(txRoot := Pow.HashTransactions(params.crypto, g.txs));
      var h := params.crypto.hashHeader(root, g.nonce);
      p := params;
      blocks := map[h := Block(root, g.nonce, h, g.txs)];
      parent := map[h := params.crypto.zero];
      height := map[h := 0];
      cumWork := map[h := 0];
      tip := h;
      genesis := h;
      orphans := map[];
      FreshInv(params, g);
    }

    /** Submit a block; on success adopt every orphan that has become adoptable. The result
        describes the block's own step only. */
    method AddBlock(b: Block) returns (res: AddResult, err: Option<AddError>)
      requires Valid()
      modifies this
      ensures Valid()
      ensures var r := Connect(p, old(Snapshot()), b); res == r.res && err == r.err
      ensures AddStep(p, old(Snapshot()), b, Snapshot())
      // in terms of the blocks: filed if and only if new, with a held parent, and genuine; without one it waits; only
      // an unknown genesis block and a child that is not genuine are refused, without effect
      ensures var h := if b.hash == p.crypto.zero then p.crypto.hashHeader(b.header, b.nonce) else b.hash;
              var q, was := b.header.prevHash, old(Snapshot());
              var stranger, known := b.header.height == 0 && h != was.genesis, h in was.blocks;
              && (res.added <==>
                    !known && b.header.height > 0 && q in was.blocks && Genuine(p, b, was.blocks[q], h))
              && (res.added ==> h in blocks && blocks[h] == b.(hash := h))
              && (err.Some? <==> stranger || (!known && q in was.blocks && !Genuine(p, b, was.blocks[q], h)))
              && (err.Some? || known ==> Snapshot() == was)
              && (!stranger && !known && q !in was.blocks ==> Snapshot() == was.(orphans := was.orphans[h := b]))
    {
      hide Inv, Connect, Extends, Genuine, Validate;
      ghost var before := Snapshot();
      SubmissionOutcome(p, before, b);
      res, err := AddBlockUnlocked(b);
      if err.Some? {
        ConnectErrorIsIdle(p, before, b);
        return;
      }
      ghost var n := TryConnectOrphans();
      assert Adopts(p, Connect(p, before, b).tree, Snapshot(), n);
      FiledStays(p, before, b, Snapshot());
    }

    method AddBlockUnlocked(b: Block) returns (res: AddResult, err: Option<AddError>)
      requires Inv(p, Snapshot())
      modifies this
      ensures Outcome(Snapshot(), res, err) == Connect(p, old(Snapshot()), b)
    {
      hide Inv, Linked, Validate, Insert, Extends, Difference, Path;
      ghost var s := Snapshot();
      HeldByTree(p, s);
      res := AddResult(false, false, tip, tip, None);
      err := None;
      var h := BlockHash(p.crypto, b);
      if b.header.height == 0 && h != genesis {
        err := Some(UnexpectedGenesis);
        return;
      }
      if h in blocks {
        return;
      }
      var parentHash := b.header.prevHash;
      if parentHash !in blocks {
        orphans := orphans[h := b];
        return;
      }
      err := Validate(p, b, blocks[parentHash], h);
      if err.Some? {
        return;
      }
      ghost var t := Insert(p, s, b, h);
      InsertFields(p, s, b, h);
      blocks := blocks[h := b.(hash := h)];
      parent := parent[h := parentHash];
      height := height[h := b.header.height];
      cumWork := cumWork[h := cumWork[parentHash] + Pow.WorkForDifficulty(b.header.difficulty)];
      if cumWork[h] > cumWork[tip] {
        var oldTip := tip;
        tip := h;
        assert Snapshot() == t;
        var diff := ComputeReorg(oldTip, h);
        res := AddResult(true, true, oldTip, h,
                         if diff.Some? && diff.value.removed == [] then None else diff);
        return;
      }
      assert Snapshot() == t;
      res := AddResult(true, false, tip, tip, None);
    }

    /** Passes over the orphan pool until a whole pass adds nothing. Each pass visits the orphans
        it started with in an arbitrary order. */
    method TryConnectOrphans() returns (ghost adopted: nat)
      requires Inv(p, Snapshot())
      modifies this
      ensures Inv(p, Snapshot()) && Quiescent(Snapshot())
      ensures Adopts(p, old(Snapshot()), Snapshot(), adopted)
    {
      hide Inv, Connect, AdoptStep;
      adopted := 0;
      var progressed := true;
      while progressed
        invariant Inv(p, Snapshot()) && Adopts(p, old(Snapshot()), Snapshot(), adopted)
        invariant !progressed ==> Quiescent(Snapshot())
        decreases |orphans|, if progressed then 1 else 0
      {
        progressed := false;
        var pending := orphans.Keys;
        ghost var pool := |orphans|;
        while pending != {}
          invariant Inv(p, Snapshot()) && Adopts(p, old(Snapshot()), Snapshot(), adopted)
          invariant |orphans| <= pool && (progressed ==> |orphans| < pool)
          invariant !progressed ==> forall oh | oh in orphans && oh !in pending :: !Adoptable(Snapshot(), oh)
          decreases pending
        {
          var oh :| oh in pending;
          pending := pending - {oh};
          if oh in orphans && orphans[oh].header.prevHash in blocks {
            var added := AdoptOne(oh);
            adopted := adopted + 1;
            progressed := progressed || added;
          }
        }
      }
    }

    /** Take one orphan out of the pool and submit it. */
    method AdoptOne(oh: Hash) returns (ok: bool)
      requires Inv(p, Snapshot()) && Adoptable(Snapshot(), oh)
      modifies this
      ensures Inv(p, Snapshot()) && AdoptStep(p, old(Snapshot()), Snapshot())
      ensures orphans == old(orphans) - {oh} && |orphans| + 1 == old(|orphans|)
      ensures !ok ==> blocks == old(blocks)
    {
      hide Inv, Connect, Adopt;
      var ob := orphans[oh];
      ghost var s := Snapshot();
      orphans := orphans - {oh};
      assert Snapshot() == Drop(p, s, oh);
      var res, err := AddBlockUnlocked(ob);
      AdoptIs(p, s, oh);
      AdoptTakesOne(p, s, oh);
      ok := err.None?;
      if !ok {
        AdoptErrorKeepsBlocks(p, s, oh);
      }
    }

    /** The tip-to-tip difference by walks down the parent map. */
    method ComputeReorg(oldTip: Hash, newTip: Hash) returns (r: Option<Reorg>)
      requires Inv(p, Snapshot()) && oldTip in blocks && newTip in blocks
      ensures r == if oldTip == newTip then None else Some(Difference(Snapshot(), oldTip, newTip))
    {
      hide Inv, Linked;
      if oldTip == newTip {
        return None;
      }
      HeldByTree(p, Snapshot());
      var common, k := LowestCommonAncestor(oldTip, newTip);
      var removed := SegmentAbove(oldTip, common, k);
      var added := SegmentAbove(newTip, common, k);
      r := Some(Reorg(common, removed, added));
    }

    /** Level the two walkers, then step both until they meet. */
    method LowestCommonAncestor(oldTip: Hash, newTip: Hash) returns (o: Hash, ghost k: nat)
      requires Inv(p, Snapshot()) && oldTip in blocks && newTip in blocks
      ensures var s := Snapshot(); var po, pn := Path(s, oldTip), Path(s, newTip);
              k < |po| && k < |pn| && o == po[k] == pn[k] && CommonLength(po, pn) == k + 1
    {
      hide Inv, Linked;
      ghost var s := Snapshot();
      HeldByTree(p, s);
      ghost var po, pn := Path(s, oldTip), Path(s, newTip);
      var oh, nh := height[oldTip], height[newTip];
      o := oldTip;
      var n := newTip;
      while oh > nh
        invariant 0 <= oh <= s.height[oldTip] && o == po[oh]
        invariant oh == s.height[oldTip] || oh >= nh
      {
        PathStep(s, oldTip, oh);
        o := parent[o];
        oh := oh - 1;
      }
      while nh > oh
        invariant oh <= nh <= s.height[newTip] && n == pn[nh]
      {
        PathStep(s, newTip, nh);
        n := parent[n];
        nh := nh - 1;
      }
      k := oh;
      ghost var top := oh;
      while o != n
        invariant k <= top && o == po[k] && n == pn[k]
        invariant k < top ==> po[k + 1] != pn[k + 1]
        decreases k
      {
        assert po[0] == pn[0];
        PathStep(s, oldTip, k);
        PathStep(s, newTip, k);
        o := parent[o];
        n := parent[n];
        k := k - 1;
      }
      PathsMeet(s, oldTip, newTip, k);
      CommonLengthIs(po, pn, k + 1);
    }

    method SegmentAbove(from: Hash, stop: Hash, ghost k: nat) returns (out: seq<Block>)
      requires Inv(p, Snapshot()) && from in blocks && k <= height[from] && stop == Path(Snapshot(), from)[k]
      ensures out == BlocksAt(Snapshot(), Path(Snapshot(), from)[k + 1..])
    {
      hide Inv, Linked;
      HeldByTree(p, Snapshot());
      var newestFirst := CollectDownTo(from, stop, k);
      out := ReverseInPlace(newestFirst);
    }

    /** The blocks met walking from `from` down to, but not including, `stop`. */
    method CollectDownTo(from: Hash, stop: Hash, ghost k: nat) returns (out: seq<Block>)
      requires Inv(p, Snapshot()) && from in blocks && k <= height[from] && stop == Path(Snapshot(), from)[k]
      ensures var path := Path(Snapshot(), from);
              && |out| == |path| - 1 - k
              && forall i | 0 <= i < |out| :: out[i] == Snapshot().blocks[path[|path| - 1 - i]]
    {
      ghost var s := Snapshot();
      ghost var path := Path(s, from);
      ghost var i := height[from];
      var h := from;
      out := [];
      while h != stop
        invariant k <= i <= s.height[from] && h == path[i]
        invariant |out| == |path| - 1 - i
        invariant forall j | 0 <= j < |out| :: out[j] == s.blocks[path[|path| - 1 - j]]
        decreases i
      {
        PathStep(s, from, i);
        out := out + [blocks[h]];
        h := parent[h];
        i := i - 1;
      }
      if i > k {
        PathDistinct(s, from, i, k);
      }
    }

    /** The main chain's hashes: walk from the tip to genesis, then reverse. */
    method MainChainHashes() returns (out: seq<Hash>)
      requires Inv(p, Snapshot())
      ensures out == MainPath(Snapshot())
    {
      ghost var s := Snapshot();
      HeaderHeight(p, s, tip);
      if tip == p.crypto.zero {
        return [];
      }
      ghost var path := MainPath(s);
      ghost var i := s.height[tip];
      var h := tip;
      var reversed := [h];
      while h != genesis
        invariant 0 <= i <= s.height[tip] && h == path[i]
        invariant |reversed| == |path| - i
        invariant forall j | 0 <= j < |reversed| :: reversed[j] == path[|path| - 1 - j]
        decreases i
      {
        assert path[0] == s.genesis;
        PathStep(s, tip, i);
        h := parent[h];
        i := i - 1;
        reversed := reversed + [h];
      }
      if i > 0 {
        PathDistinct(s, tip, i, 0);
      }
      out := ReverseInPlace(reversed);
    }
  }

  lemma HeldByTree(p: Params, s: Tree)
    requires Inv(p, s)
    ensures Linked(s) && s.genesis in s.blocks && s.tip in s.blocks
    ensures forall h | h in s.blocks :: h in s.parent && h in s.height && h in s.cumWork
  {}

  lemma InsertFields(p: Params, s: Tree, b: Block, h: Hash)
    requires Inv(p, s) && h !in s.blocks && b.header.height > 0 && b.header.prevHash in s.blocks
    requires Validate(p, b, s.blocks[b.header.prevHash], h).None?
    ensures var q := b.header.prevHash; var t := Insert(p, s, b, h);
            && q in s.cumWork && s.tip in s.cumWork && s.tip in s.blocks && b.header.difficulty == p.difficulty
            && h != s.tip && t.tip in t.blocks && s.tip in t.blocks && Linked(t)
            && var w := s.cumWork[q] + Pow.WorkForDifficulty(p.difficulty);
               t == s.(blocks := s.blocks[h := b.(hash := h)],
                       parent := s.parent[h := q],
                       height := s.height[h := b.header.height],
                       cumWork := s.cumWork[h := w],
                       tip := if w > s.cumWork[s.tip] then h else s.tip)
  {}

  /** What a call files stays filed, and one that files nothing changes nothing beyond its own step. */
  lemma FiledStays(p: Params, s: Tree, b: Block, t: Tree)
    requires Inv(p, s) && Quiescent(s) && AddStep(p, s, b, t)
    ensures !Connect(p, s, b).res.added ==> t == Connect(p, s, b).tree
    ensures var u := Connect(p, s, b).tree; forall h | h in u.blocks :: h in t.blocks && t.blocks[h] == u.blocks[h]
  {
    hide Inv, Connect;
    AdoptionStaysAboveSubmittedBlock(p, s, b, t);
    var r := Connect(p, s, b);
    if r.err.None? {
      var n: nat :| Adopts(p, r.tree, t, n);
      AdoptsKeepsInv(p, r.tree, t, n);
    } else {
      ConnectErrorIsIdle(p, s, b);
    }
  }

  lemma ConnectErrorIsIdle(p: Params, s: Tree, b: Block)
    requires Inv(p, s) && Connect(p, s, b).err.Some?
    ensures Connect(p, s, b).tree == s
  {}

  lemma AdoptIs(p: Params, s: Tree, oh: Hash)
    requires Inv(p, s) && Adoptable(s, oh)
    ensures Adopt(p, s, oh) == Connect(p, Drop(p, s, oh), s.orphans[oh])
  {}

  lemma AdoptErrorKeepsBlocks(p: Params, s: Tree, oh: Hash)
    requires Inv(p, s) && Adoptable(s, oh) && Adopt(p, s, oh).err.Some?
    ensures Adopt(p, s, oh).tree.blocks == s.blocks
  {}
}
