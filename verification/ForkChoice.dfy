/** Fork choice and reorganisations: how the main chain moves when one block is submitted. */
module ForkChoice {
  import opened Types
  import opened Tree
  import Pow

  /** Every block but the first passes validation against its predecessor. */
  ghost predicate ValidSegment(p: Params, bs: seq<Block>) {
    forall i {:trigger bs[i]} | 0 < i < |bs| :: Validate(p, bs[i], bs[i - 1], bs[i].hash).None?
  }

  lemma OneIsValid(p: Params, bs: seq<Block>)
    requires |bs| == 1
    ensures ValidSegment(p, bs)
  {}

  lemma ValidSnoc(p: Params, bs: seq<Block>, b: Block)
    requires bs != []
    ensures ValidSegment(p, bs + [b]) <==> ValidSegment(p, bs) && Validate(p, b, bs[|bs| - 1], b.hash).None?
  {
    hide Validate;
    var all := bs + [b];
    assert all[|bs|] == b && all[|bs| - 1] == bs[|bs| - 1];
    forall i {:trigger bs[i]} | 0 < i < |bs| ensures all[i] == bs[i] && all[i - 1] == bs[i - 1] {}
  }

  lemma PathIsValid(p: Params, s: Tree, h: Hash)
    requires Inv(p, s) && h in s.blocks
    ensures ValidSegment(p, BlocksAt(s, Path(s, h)))
    ensures forall i | 0 <= i <= s.height[h] :: BlocksAt(s, Path(s, h))[i].header.height == i
  {
    var hs := Path(s, h);
    forall i | 0 <= i <= s.height[h]
      ensures BlocksAt(s, hs)[i].header.height == i
      ensures i > 0 ==> Validate(p, s.blocks[hs[i]], s.blocks[hs[i - 1]], s.blocks[hs[i]].hash).None?
    {
      PathPrefix(s, h, i);
      HeaderHeight(p, s, hs[i]);
      if i > 0 {
        PathStep(s, h, i);
        assert Earned(p, s, hs[i]);
      }
    }
  }

  /** A hash on both paths sits on both at its own height, over one shared history. */
  lemma OnBothPaths(s: Tree, a: Hash, b: Hash, x: Hash)
    requires Linked(s) && a in s.blocks && b in s.blocks && x in Path(s, a) && x in Path(s, b)
    ensures var n := s.height[x]; n <= s.height[a] && n <= s.height[b] && Path(s, a)[..n + 1] == Path(s, b)[..n + 1]
  {
    var i :| 0 <= i < |Path(s, a)| && Path(s, a)[i] == x;
    var j :| 0 <= j < |Path(s, b)| && Path(s, b)[j] == x;
    PathPrefix(s, a, i);
    PathPrefix(s, b, j);
  }

  lemma ForkIsOnPath(s: Tree, a: Hash, b: Hash)
    requires Linked(s) && a in s.blocks && b in s.blocks
    ensures var k := CommonLength(Path(s, a), Path(s, b));
            k > 0 && Path(s, a)[k - 1] == Path(s, b)[k - 1]
            && Path(s, a)[k - 1] in s.blocks && s.height[Path(s, a)[k - 1]] == k - 1
            && Path(s, a)[..k] == Path(s, Path(s, a)[k - 1])
  {
    var pa, pb := Path(s, a), Path(s, b);
    var k := CommonLength(pa, pb);
    assert pa[0] == pb[0];
    assert pa[..k][k - 1] == pb[..k][k - 1];
    PathPrefix(s, a, k - 1);
  }

  lemma SharedLiesBelowFork(s: Tree, a: Hash, b: Hash, x: Hash)
    requires Linked(s) && a in s.blocks && b in s.blocks && x in Path(s, a) && x in Path(s, b)
    ensures s.height[x] < CommonLength(Path(s, a), Path(s, b))
  {
    OnBothPaths(s, a, b, x);
    var pa, pb, n := Path(s, a), Path(s, b), s.height[x];
    var k := CommonLength(pa, pb);
    assert forall i | 0 <= i <= n :: pa[i] == pa[..n + 1][i] == pb[..n + 1][i] == pb[i];
  }

  lemma BlocksAtSlice(s: Tree, hs: seq<Hash>, i: nat, j: nat)
    requires i <= j <= |hs| && forall x | x in hs :: x in s.blocks
    ensures BlocksAt(s, hs)[i..j] == BlocksAt(s, hs[i..j])
  {}

  lemma SegmentOfPathValid(p: Params, s: Tree, h: Hash, k: nat)
    requires Inv(p, s) && h in s.blocks && 0 < k <= |Path(s, h)|
    ensures ValidSegment(p, [s.blocks[Path(s, h)[k - 1]]] + BlocksAt(s, Path(s, h)[k..]))
  {
    var hs := Path(s, h);
    PathIsValid(p, s, h);
    BlocksAtSlice(s, hs, k, |hs|);
    assert hs[k..|hs|] == hs[k..];
    assert [s.blocks[hs[k - 1]]] + BlocksAt(s, hs[k..]) == BlocksAt(s, hs)[k - 1..];
  }

  lemma SidesShareNoBlock(p: Params, s: Tree, a: Hash, b: Hash)
    requires Inv(p, s) && a in s.blocks && b in s.blocks
    ensures var pa, pb := Path(s, a), Path(s, b); var k := CommonLength(pa, pb);
            forall x | x in BlocksAt(s, pa[k..]) :: x !in BlocksAt(s, pb[k..])
  {
    var pa, pb := Path(s, a), Path(s, b);
    var k := CommonLength(pa, pb);
    forall i, j | k <= i < |pa| && k <= j < |pb| ensures s.blocks[pa[i]] != s.blocks[pb[j]] {
      HeaderHeight(p, s, pa[i]);
      HeaderHeight(p, s, pb[j]);
      if pa[i] == pb[j] {
        SharedLiesBelowFork(s, a, b, pa[i]);
        PathPrefix(s, a, i);
        assert false;
      }
    }
  }

  /** A reported reorganisation names the deepest common ancestor: both chains are one shared
      segment up to it, followed by the removed blocks on one side and the added blocks on the
      other, each validly linked oldest to newest, with no block in both. */
  lemma ReorgSplitsAtDeepestAncestor(p: Params, s: Tree, a: Hash, b: Hash)
    requires Inv(p, s) && a in s.blocks && b in s.blocks && ReorgOf(s, a, b).Some?
    ensures var r := ReorgOf(s, a, b).value; var pa, pb := Path(s, a), Path(s, b);
            && r.commonAncestor in pa && r.commonAncestor in pb
            && (forall x | x in pa && x in pb :: s.height[x] <= s.height[r.commonAncestor])
            && var k := s.height[r.commonAncestor] + 1;
               && k < |pa| && k <= |pb|
               && BlocksAt(s, pa) == BlocksAt(s, pa)[..k] + r.removed
               && BlocksAt(s, pb) == BlocksAt(s, pa)[..k] + r.added
               && ValidSegment(p, [s.blocks[r.commonAncestor]] + r.removed)
               && ValidSegment(p, [s.blocks[r.commonAncestor]] + r.added)
               && (forall x | x in r.removed :: x !in r.added)
  {
    var r := ReorgOf(s, a, b).value;
    var pa, pb := Path(s, a), Path(s, b);
    var k := CommonLength(pa, pb);
    ForkIsOnPath(s, a, b);
    forall x | x in pa && x in pb ensures s.height[x] <= k - 1 {
      SharedLiesBelowFork(s, a, b, x);
    }
    SegmentOfPathValid(p, s, a, k);
    SegmentOfPathValid(p, s, b, k);
    SidesShareNoBlock(p, s, a, b);
    SplitBlocks(s, pa, pb, k);
  }

  lemma SplitBlocks(s: Tree, pa: seq<Hash>, pb: seq<Hash>, k: nat)
    requires (forall x | x in pa :: x in s.blocks) && (forall x | x in pb :: x in s.blocks)
    requires k <= |pa| && k <= |pb| && pa[..k] == pb[..k]
    ensures BlocksAt(s, pa) == BlocksAt(s, pa)[..k] + BlocksAt(s, pa[k..])
    ensures BlocksAt(s, pb) == BlocksAt(s, pa)[..k] + BlocksAt(s, pb[k..])
  {
    forall i | 0 <= i < k ensures BlocksAt(s, pa)[i] == BlocksAt(s, pb)[i] {
      assert pa[i] == pa[..k][i] == pb[..k][i] == pb[i];
    }
  }

  /** One submission raises the main chain's height by nothing or by one, and moves the tip
      exactly when it raises it. Without a reorganisation the new tip is a child of the old one;
      a reorganisation adds exactly one block more than it removes. */
  lemma TipRisesByOne(p: Params, s: Tree, b: Block)
    requires Inv(p, s)
    ensures var r := Connect(p, s, b); var t := r.tree;
            && (r.res.isNewTip <==> t.tip != s.tip)
            && t.tip == r.res.newTip && r.res.oldTip == s.tip
            && t.height[t.tip] == s.height[s.tip] + (if r.res.isNewTip then 1 else 0)
            && (r.res.isNewTip && r.res.reorg.None? ==> t.parent[t.tip] == s.tip)
            && (r.res.reorg.Some? ==>
                  r.res.isNewTip && |r.res.reorg.value.added| == |r.res.reorg.value.removed| + 1)
  {
    var r := Connect(p, s, b);
    var t := r.tree;
    if r.res.isNewTip {
      var h := r.res.newTip;
      assert Earned(p, t, h);
      WorkIsHeightTimesUnit(p, t, h);
      WorkIsHeightTimesUnit(p, t, s.tip);
      TipIsHighest(p, s, t.parent[h]);
      MulCompare(t.height[h], t.height[s.tip], Pow.WorkForDifficulty(p.difficulty));
      if r.res.reorg.None? {
        var pa, pb := Path(t, s.tip), Path(t, h);
        assert pb[..|pa|] == pa[..|pa|] == pa;
        assert pb == Path(t, t.parent[h]) + [h];
        assert pa[|pa| - 1] == pb[|pa| - 1] == Path(t, t.parent[h])[|pa| - 1];
      }
    }
  }

  /** The main chain after one submission, in terms of the main chain before it and the report. */
  lemma MainChainAfterConnect(p: Params, s: Tree, b: Block)
    requires Inv(p, s)
    ensures var r := Connect(p, s, b); var was, now := MainChain(s), MainChain(r.tree);
            if !r.res.isNewTip then now == was
            else if r.res.reorg.None? then now == was + [r.tree.blocks[r.tree.tip]]
            else
              var g := r.res.reorg.value;
              && g.commonAncestor in s.height
              && var k := s.height[g.commonAncestor] + 1;
                 k < |was| && was == was[..k] + g.removed && now == was[..k] + g.added
  {
    hide Inv, Path, CommonLength, Link, ValidSegment;
    var r := Connect(p, s, b);
    var t := r.tree;
    BothLinked(p, s, b);
    PathFrame(s, t, s.tip);
    TipRisesByOne(p, s, b);
    if r.res.isNewTip {
      if r.res.reorg.None? {
        ChildPath(t, t.tip);
        ExtendByOne(t, Path(t, s.tip), t.tip);
      } else {
        ReorgSplitsAtDeepestAncestor(p, t, s.tip, t.tip);
        var c := r.res.reorg.value.commonAncestor;
        assert c in Path(s, s.tip);
        assert t.height[c] == s.height[c];
      }
    }
  }

  lemma ReorgIsReported(p: Params, s: Tree, b: Block)
    requires Inv(p, s) && Connect(p, s, b).res.reorg.Some?
    ensures var t := Connect(p, s, b).tree;
            Inv(p, t) && Extends(s, t) && s.tip in t.blocks && t.tip in t.blocks && Linked(t)
            && ReorgOf(t, s.tip, t.tip) == Connect(p, s, b).res.reorg
  {}

  lemma BothLinked(p: Params, s: Tree, b: Block)
    requires Inv(p, s)
    ensures Linked(s) && Linked(Connect(p, s, b).tree)
    ensures Connect(p, s, b).res.isNewTip ==> Connect(p, s, b).tree.tip != s.genesis
  {
    TipRisesByOne(p, s, b);
  }

  lemma ChildPath(t: Tree, h: Hash)
    requires Linked(t) && h in t.blocks && h != t.genesis
    ensures h in t.parent && t.parent[h] in t.blocks && Path(t, h) == Path(t, t.parent[h]) + [h]
  {
    assert Link(t, h);
  }

  lemma ExtendByOne(t: Tree, hs: seq<Hash>, h: Hash)
    requires h in t.blocks && forall x | x in hs :: x in t.blocks
    ensures BlocksAt(t, hs + [h]) == BlocksAt(t, hs) + [t.blocks[h]]
  {}

  // ---------- two trees ----------

  /** In the two trees a hash identifies a header, and they share genesis. */
  ghost predicate Consistent(s: Tree, t: Tree) {
    && s.genesis == t.genesis
    && forall h | h in s.blocks && h in t.blocks :: s.blocks[h].header == t.blocks[h].header
  }

  lemma {:induction false} SharedHistory(s: Tree, t: Tree, h: Hash)
    requires Linked(s) && Linked(t) && Consistent(s, t) && h in s.blocks && h in t.blocks
    ensures Path(s, h) == Path(t, h)
    decreases s.height[h]
  {
    if h != s.genesis {
      assert Link(s, h) && Link(t, h);
      SharedHistory(s, t, s.parent[h]);
    }
  }
}
