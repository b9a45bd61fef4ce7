/** Restarting a node: replaying the loaded blocks rebuilds the chain they came from. */
module Restart {
  import opened Types
  import opened Tree
  import opened Orphans
  import opened ForkChoice

  // ---------- replay ----------

  /** Submitting `bs` in order can lead from `s` to `t`, with none refused; a refusal ends the node. */
  ghost predicate Replay(p: Params, s: Tree, bs: seq<Block>, t: Tree)
    decreases |bs|
  {
    if bs == [] then s == t
    else
      var before, last := bs[..|bs| - 1], bs[|bs| - 1];
      exists m: Tree :: Replay(p, s, before, m) && AddStep(p, m, last, t) && Connect(p, m, last).err.None?
  }

  lemma ReplaySnoc(p: Params, s: Tree, bs: seq<Block>, m: Tree, b: Block, t: Tree)
    requires Replay(p, s, bs, m) && AddStep(p, m, b, t) && Connect(p, m, b).err.None?
    ensures Replay(p, s, bs + [b], t)
  {
    hide AddStep, Connect;
    var all := bs + [b];
    assert all[..|all| - 1] == bs && all[|all| - 1] == b;
  }

  /** A replay is a run. */
  lemma {:induction false} ReplayIsRun(p: Params, s: Tree, bs: seq<Block>, t: Tree)
    requires Replay(p, s, bs, t)
    ensures Run(p, s, bs, t)
    decreases |bs|
  {
    hide Inv, Connect;
    if bs != [] {
      var before, last := bs[..|bs| - 1], bs[|bs| - 1];
      var m: Tree :| Replay(p, s, before, m) && AddStep(p, m, last, t) && Connect(p, m, last).err.None?;
      ReplayIsRun(p, s, before, m);
      assert Run(p, s, before, m) && AddStep(p, m, last, t);
    }
  }

  /** `t` is what replaying the first `i + 1` main-chain blocks of `s` builds. */
  ghost predicate Built(p: Params, s: Tree, i: nat, t: Tree)
    requires Linked(s)
  {
    && Inv(p, t) && i < |MainPath(s)|
    && t.genesis == s.genesis && t.orphans == map[] && t.tip == MainPath(s)[i]
    && (var built := MainPath(s)[..i + 1]; forall h :: h in t.blocks <==> h in built)
    && (forall h | h in t.blocks :: t.blocks[h] == s.blocks[h])
  }

  lemma BuiltChain(p: Params, s: Tree, i: nat, t: Tree)
    requires Inv(p, s) && Built(p, s, i, t)
    ensures MainPath(t) == MainPath(s)[..i + 1] && MainChain(t) == MainChain(s)[..i + 1]
    ensures t.cumWork[t.tip] == s.cumWork[t.tip] && Quiescent(t)
  {
    hide Link, Earned, OrphanOk;
    assert Consistent(s, t);
    SharedHistory(s, t, t.tip);
    PathPrefix(s, s.tip, i);
    SameBlocksAt(s, t, MainPath(s), i + 1);
    WorkIsHeightTimesUnit(p, t, t.tip);
    WorkIsHeightTimesUnit(p, s, t.tip);
    assert |MainPath(t)| == |Path(s, t.tip)|;
  }

  lemma SameBlocksAt(s: Tree, t: Tree, hs: seq<Hash>, n: nat)
    requires n <= |hs| && forall h | h in hs :: h in s.blocks
    requires forall h | h in hs[..n] :: h in t.blocks && t.blocks[h] == s.blocks[h]
    ensures BlocksAt(t, hs[..n]) == BlocksAt(s, hs)[..n]
  {
    forall i | 0 <= i < n ensures t.blocks[hs[..n][i]] == s.blocks[hs[i]] {
      assert hs[..n][i] in hs[..n];
    }
  }

  /** Replaying the next block files it, without error, as the new tip, and adopts nothing. */
  lemma ReplayStep(p: Params, s: Tree, i: nat, m: Tree, t: Tree)
    requires Inv(p, s) && Built(p, s, i, m) && i + 1 < |MainPath(s)|
    requires AddStep(p, m, MainChain(s)[i + 1], t)
    ensures var r := Connect(p, m, MainChain(s)[i + 1]); r.err.None? && r.res.isNewTip && r.res.reorg.None?
    ensures Built(p, s, i + 1, t)
  {
    hide AddStep, Linked, Earned, OrphanOk;
    var h := MainPath(s)[i + 1];
    var b := MainChain(s)[i + 1];
    NextOnMain(p, s, i);
    NotYetBuilt(p, s, i, m);
    NextValid(p, s, i, m);
    BuiltConnect(p, s, i, m);
    var r := Connect(p, m, b);
    AddIsConnect(p, m, b, t);
  }

  lemma AddIsConnect(p: Params, m: Tree, b: Block, t: Tree)
    requires Inv(p, m) && m.orphans == map[] && AddStep(p, m, b, t)
    requires Connect(p, m, b).err.None? && Connect(p, m, b).tree.orphans == map[]
    ensures t == Connect(p, m, b).tree
  {
    hide Connect, Inv;
    var r := Connect(p, m, b);
    var n: nat :| Adopts(p, r.tree, t, n);
    NothingToAdopt(p, r.tree, t, n);
  }

  lemma NextOnMain(p: Params, s: Tree, i: nat)
    requires Inv(p, s) && i + 1 < |MainPath(s)|
    ensures var h := MainPath(s)[i + 1]; var q := MainPath(s)[i];
            && h in s.blocks && q in s.blocks && Earned(p, s, h) && s.parent[h] == q
            && s.blocks[h].header.height == i + 1 && s.blocks[h].hash == h && h != p.crypto.zero
            && s.height[q] == i && s.height[h] == i + 1
  {
    PathStep(s, s.tip, i + 1);
    PathPrefix(s, s.tip, i);
    PathPrefix(s, s.tip, i + 1);
    HeaderHeight(p, s, MainPath(s)[i + 1]);
    assert Earned(p, s, MainPath(s)[i + 1]);
  }

  lemma NotYetBuilt(p: Params, s: Tree, i: nat, m: Tree)
    requires Inv(p, s) && Built(p, s, i, m) && i + 1 < |MainPath(s)|
    ensures MainPath(s)[i + 1] !in m.blocks && MainPath(s)[i] in m.blocks
  {
    hide Inv, Link, Earned, OrphanOk;
    InvLinked(p, s);
    var hs := MainPath(s);
    assert hs[..i + 1][i] == hs[i];
    if hs[i + 1] in hs[..i + 1] {
      var j :| 0 <= j < i + 1 && hs[..i + 1][j] == hs[i + 1];
      PathDistinct(s, s.tip, j, i + 1);
    }
  }

  lemma NextValid(p: Params, s: Tree, i: nat, m: Tree)
    requires Inv(p, s) && Built(p, s, i, m) && i + 1 < |MainPath(s)|
    ensures var b := MainChain(s)[i + 1]; var h := MainPath(s)[i + 1]; var q := MainPath(s)[i];
            && b == s.blocks[h] && BlockHash(p.crypto, b) == h && b.header.prevHash == q
            && b.header.height == i + 1
            && q in m.blocks && Validate(p, b, m.blocks[q], h).None?
  {
    hide Inv, OrphanOk, Linked;
    InvLinked(p, s);
    NextOnMain(p, s, i);
    NotYetBuilt(p, s, i, m);
  }

  lemma BuiltConnect(p: Params, s: Tree, i: nat, m: Tree)
    requires Inv(p, s) && Built(p, s, i, m) && i + 1 < |MainPath(s)|
    ensures var r := Connect(p, m, MainChain(s)[i + 1]);
            && r.err.None? && r.res.isNewTip && r.res.reorg.None? && r.tree.orphans == map[]
            && Built(p, s, i + 1, r.tree)
  {
    hide Linked, Earned, OrphanOk, Link, Inv, Validate, ReorgOf;
    InvLinked(p, s);
    NotYetBuilt(p, s, i, m);
    NextValid(p, s, i, m);
    var hs, b := MainPath(s), MainChain(s)[i + 1];
    ChildOfTip(p, m, b, hs[i + 1]);
    assert hs[..i + 2] == hs[..i + 1] + [hs[i + 1]];
    assert b.(hash := hs[i + 1]) == b by { NextOnMain(p, s, i); }
  }

  /** Filing a valid child of the tip moves the tip to it without a reorganisation. */
  lemma ChildOfTip(p: Params, m: Tree, b: Block, h: Hash)
    requires Inv(p, m) && BlockHash(p.crypto, b) == h && h !in m.blocks && b.header.height > 0
    requires b.header.prevHash == m.tip && m.tip in m.blocks && Validate(p, b, m.blocks[m.tip], h).None?
    ensures var r := Connect(p, m, b);
            && r.err.None? && r.res.isNewTip && r.res.reorg.None?
            && r.tree.tip == h && r.tree.blocks == m.blocks[h := b.(hash := h)]
            && r.tree.orphans == m.orphans && r.tree.genesis == m.genesis
  {
    var t := Insert(p, m, b, h);
    assert Link(t, h);
    var pa, pb := Path(t, m.tip), Path(t, h);
    assert pb == pa + [h];
    CommonLengthIs(pa, pb, |pa|);
    assert BlocksAt(t, pa[|pa|..]) == [];
  }

  lemma ReplayStart(p: Params, s: Tree)
    requires Inv(p, s)
    ensures MainChain(s)[0].header.height == 0
    ensures Built(p, s, 0, Fresh(p, MainChain(s)[0]))
  {
    var g := s.blocks[s.genesis];
    FreshInv(p, g);
    assert MainPath(s)[..1] == [s.genesis];
  }

  /** Replaying any initial part of a main chain rebuilds exactly that part: the same chain, tip and
      cumulative work, nothing refused and nothing orphaned. */
  lemma {:induction false} ReplayRebuilds(p: Params, s: Tree, n: nat, t: Tree)
    requires Inv(p, s) && 0 < n <= |MainChain(s)|
    requires Run(p, Fresh(p, MainChain(s)[0]), MainChain(s)[1..n], t)
    ensures Built(p, s, n - 1, t)
    ensures MainChain(t) == MainChain(s)[..n] && t.cumWork[t.tip] == s.cumWork[t.tip] && Quiescent(t)
    decreases n
  {
    hide Inv, Connect, AddStep, Fresh, Built, Linked, Quiescent;
    InvLinked(p, s);
    ReplayStart(p, s);
    if n > 1 {
      var bs := MainChain(s)[1..n];
      assert bs[..|bs| - 1] == MainChain(s)[1..n - 1] && bs[|bs| - 1] == MainChain(s)[n - 1];
      var m: Tree :| Run(p, Fresh(p, MainChain(s)[0]), MainChain(s)[1..n - 1], m)
          && AddStep(p, m, MainChain(s)[n - 1], t);
      ReplayRebuilds(p, s, n - 1, m);
      ReplayStep(p, s, n - 2, m, t);
    } else {
      assert MainChain(s)[1..n] == [];
    }
    BuiltChain(p, s, n - 1, t);
  }

  /** Such a replay exists: no block is refused. */
  lemma {:induction false} ReplayExists(p: Params, s: Tree, n: nat) returns (t: Tree)
    requires Inv(p, s) && 0 < n <= |MainChain(s)|
    ensures Replay(p, Fresh(p, MainChain(s)[0]), MainChain(s)[1..n], t) && Built(p, s, n - 1, t)
    decreases n
  {
    hide Inv, Fresh, AddStep, Linked, Replay, Built, Connect;
    InvLinked(p, s);
    ReplayStart(p, s);
    var bs := MainChain(s)[1..n];
    if n == 1 {
      t := Fresh(p, MainChain(s)[0]);
      assert bs == [];
      NothingReplayed(p, t);
    } else {
      var m := ReplayExists(p, s, n - 1);
      assert bs[..|bs| - 1] == MainChain(s)[1..n - 1] && bs[|bs| - 1] == MainChain(s)[n - 1];
      t := ConnectBuilt(p, s, n - 2, m);
      ReplaySnoc(p, Fresh(p, MainChain(s)[0]), bs[..|bs| - 1], m, bs[|bs| - 1], t);
      assert bs[..|bs| - 1] + [bs[|bs| - 1]] == bs;
    }
  }

  lemma NothingReplayed(p: Params, s: Tree)
    ensures Replay(p, s, [], s)
  {}

  lemma ConnectBuilt(p: Params, s: Tree, i: nat, m: Tree) returns (t: Tree)
    requires Inv(p, s) && Built(p, s, i, m) && i + 1 < |MainPath(s)|
    ensures AddStep(p, m, MainChain(s)[i + 1], t) && Connect(p, m, MainChain(s)[i + 1]).err.None?
            && Built(p, s, i + 1, t)
  {
    hide Connect, Linked, Earned, OrphanOk, Link;
    BuiltConnect(p, s, i, m);
    t := Connect(p, m, MainChain(s)[i + 1]).tree;
    assert Adopts(p, t, t, 0);
  }
}
