/** Orphan adoption and whole submissions. Adoption may take waiting orphans in any order,
    so a submission is a relation between trees. */
module Orphans {
  import opened Types
  import opened Tree
  import opened ForkChoice

  // ---------- adoption ----------

  ghost function Drop(p: Params, s: Tree, oh: Hash): (t: Tree)
    requires Inv(p, s)
    ensures Inv(p, t) && Extends(s, t) && Submap(t.orphans, s.orphans)
  {
    var t := s.(orphans := s.orphans - {oh});
    DropKeepsInv(p, s, oh, t);
    t
  }

  lemma DropKeepsInv(p: Params, s: Tree, oh: Hash, t: Tree)
    requires Inv(p, s) && t == s.(orphans := s.orphans - {oh})
    ensures Inv(p, t)
  {
    forall k | k in t.blocks && k != t.genesis ensures Link(t, k) && Earned(p, t, k) {
      assert Link(s, k) && Earned(p, s, k);
    }
    forall k ensures OrphanOk(p, t, k) {
      assert OrphanOk(p, s, k);
    }
  }

  ghost predicate Adoptable(s: Tree, oh: Hash) {
    oh in s.orphans && s.orphans[oh].header.prevHash in s.blocks
  }

  /** Remove one orphan whose parent is known and submit it. */
  ghost function Adopt(p: Params, s: Tree, oh: Hash): (r: Outcome)
    requires Inv(p, s) && Adoptable(s, oh)
    ensures Inv(p, r.tree) && Extends(s, r.tree)
  {
    ExtendsTransitive(s, Drop(p, s, oh), Connect(p, Drop(p, s, oh), s.orphans[oh]).tree);
    Connect(p, Drop(p, s, oh), s.orphans[oh])
  }

  lemma ExtendsTransitive(s: Tree, t: Tree, u: Tree)
    requires Extends(s, t) && Extends(t, u)
    ensures Extends(s, u)
  {}

  ghost predicate AdoptStep(p: Params, s: Tree, t: Tree) {
    Inv(p, s) && exists oh :: Adoptable(s, oh) && t == Adopt(p, s, oh).tree
  }

  /** `n` adoptions lead from `s` to `t`. */
  ghost predicate Adopts(p: Params, s: Tree, t: Tree, n: nat)
    decreases n
  {
    if n == 0 then s == t
    else exists m: Tree :: Adopts(p, s, m, n - 1) && AdoptStep(p, m, t)
  }

  lemma {:induction false} AdoptsKeepsInv(p: Params, s: Tree, t: Tree, n: nat)
    requires Inv(p, s) && Adopts(p, s, t, n)
    ensures Inv(p, t) && Extends(s, t) && Submap(t.orphans, s.orphans)
    ensures |t.orphans| + n == |s.orphans|
    decreases n
  {
    hide Inv, Adopt, Extends, Submap;
    if n > 0 {
      var m: Tree :| Adopts(p, s, m, n - 1) && AdoptStep(p, m, t);
      AdoptsKeepsInv(p, s, m, n - 1);
      var oh :| Adoptable(m, oh) && t == Adopt(p, m, oh).tree;
      AdoptTakesOne(p, m, oh);
      ExtendsTransitive(s, m, t);
      FewerOrphans(m.orphans, s.orphans, oh);
    } else {
      ExtendsItself(s);
    }
  }

  lemma FewerOrphans(m: map<Hash, Block>, n: map<Hash, Block>, oh: Hash)
    requires Submap(m, n)
    ensures Submap(m - {oh}, n)
  {}

  lemma ExtendsItself(s: Tree)
    ensures Extends(s, s) && Submap(s.orphans, s.orphans)
  {}

  /** An adopted orphan leaves the pool for good: the submission never puts it back. */
  lemma AdoptTakesOne(p: Params, s: Tree, oh: Hash)
    requires Inv(p, s) && Adoptable(s, oh)
    ensures var t := Adopt(p, s, oh).tree;
            t.orphans == s.orphans - {oh} && |t.orphans| + 1 == |s.orphans|
  {
    var t := Adopt(p, s, oh).tree;
    assert OrphanOk(p, s, oh);
    assert t.orphans == s.orphans - {oh};
    assert s.orphans.Keys == (s.orphans - {oh}).Keys + {oh};
  }

  // ---------- submissions ----------

  /** One call of AddBlock: the block's own step, then adoption until no orphan is adoptable. */
  ghost predicate AddStep(p: Params, s: Tree, b: Block, t: Tree) {
    && Inv(p, s)
    && var r := Connect(p, s, b);
       if r.err.Some? then t == s
       else Quiescent(t) && exists n: nat :: Adopts(p, r.tree, t, n)
  }

  /** Submitting the blocks `bs` in order can lead from `s` to `t`. */
  ghost predicate Run(p: Params, s: Tree, bs: seq<Block>, t: Tree)
    decreases |bs|
  {
    if bs == [] then s == t
    else
      var before, last := bs[..|bs| - 1], bs[|bs| - 1];
      exists m: Tree :: Run(p, s, before, m) && AddStep(p, m, last, t)
  }

  lemma RunSnoc(p: Params, s: Tree, bs: seq<Block>, m: Tree, b: Block, t: Tree)
    requires Run(p, s, bs, m) && AddStep(p, m, b, t)
    ensures Run(p, s, bs + [b], t)
  {
    hide AddStep;
    var all := bs + [b];
    var before, last := all[..|all| - 1], all[|all| - 1];
    assert before == bs && last == b;
    assert Run(p, s, before, m) && AddStep(p, m, last, t);
  }

  lemma RunNothing(p: Params, s: Tree)
    ensures Run(p, s, [], s)
  {}

  lemma AddStepKeepsInv(p: Params, s: Tree, b: Block, t: Tree)
    requires Inv(p, s) && Quiescent(s) && AddStep(p, s, b, t)
    ensures Inv(p, t) && Quiescent(t) && Extends(s, t)
  {
    var r := Connect(p, s, b);
    if r.err.None? {
      var n: nat :| Adopts(p, r.tree, t, n);
      AdoptsKeepsInv(p, r.tree, t, n);
      ExtendsTransitive(s, r.tree, t);
    }
  }

  /** In every run every reached tree is well formed, adoption-complete, and keeps all earlier blocks. */
  lemma {:induction false} RunKeepsInv(p: Params, s: Tree, bs: seq<Block>, t: Tree)
    requires Inv(p, s) && Quiescent(s) && Run(p, s, bs, t)
    ensures Inv(p, t) && Quiescent(t) && Extends(s, t)
    decreases |bs|
  {
    if bs != [] {
      var m: Tree :| Run(p, s, bs[..|bs| - 1], m) && AddStep(p, m, bs[|bs| - 1], t);
      RunKeepsInv(p, s, bs[..|bs| - 1], m);
      AddStepKeepsInv(p, m, bs[|bs| - 1], t);
      ExtendsTransitive(s, m, t);
    }
  }

  // ---------- submissions always complete ----------

  /** From any tree, adopting while something is adoptable ends, with nothing left adoptable. */
  lemma AdoptionCompletes(p: Params, s: Tree) returns (t: Tree, n: nat)
    requires Inv(p, s)
    ensures Adopts(p, s, t, n) && Inv(p, t) && Quiescent(t)
  {
    hide Inv, Adopt;
    t, n := s, 0;
    while exists oh :: Adoptable(t, oh)
      invariant Inv(p, t) && Adopts(p, s, t, n)
      decreases |t.orphans|
    {
      var oh :| Adoptable(t, oh);
      AdoptTakesOne(p, t, oh);
      var m := Adopt(p, t, oh).tree;
      assert AdoptStep(p, t, m);
      t, n := m, n + 1;
    }
    assert Quiescent(t) by {
      forall h | h in t.orphans ensures t.orphans[h].header.prevHash !in t.blocks {
        assert !Adoptable(t, h);
      }
    }
  }

  /** Every block can be submitted to every reachable tree. */
  lemma SubmissionCompletes(p: Params, s: Tree, b: Block) returns (t: Tree)
    requires Inv(p, s) && Quiescent(s)
    ensures AddStep(p, s, b, t) && Inv(p, t) && Quiescent(t)
  {
    hide Inv, Connect, Quiescent;
    var r := Connect(p, s, b);
    if r.err.Some? {
      t := s;
    } else {
      var n;
      t, n := AdoptionCompletes(p, r.tree);
    }
  }

  /** So every sequence of deliveries has a run. */
  lemma {:induction false} RunCompletes(p: Params, s: Tree, bs: seq<Block>) returns (t: Tree)
    requires Inv(p, s) && Quiescent(s)
    ensures Run(p, s, bs, t) && Inv(p, t) && Quiescent(t)
    decreases |bs|
  {
    hide Inv, Quiescent, Run, AddStep;
    if bs == [] {
      t := s;
      RunNothing(p, s);
    } else {
      var before, last := bs[..|bs| - 1], bs[|bs| - 1];
      var m := RunCompletes(p, s, before);
      t := SubmissionCompletes(p, m, last);
      RunSnoc(p, s, before, m, last, t);
      assert before + [last] == bs;
    }
  }

  // ---------- what adoption can reach ----------

  lemma {:induction false} NothingToAdopt(p: Params, s: Tree, t: Tree, n: nat)
    requires Quiescent(s) && Adopts(p, s, t, n)
    ensures t == s
    decreases n
  {
    hide Inv, Adopt;
    if n > 0 {
      var m: Tree :| Adopts(p, s, m, n - 1) && AdoptStep(p, m, t);
      NothingToAdopt(p, s, m, n - 1);
    }
  }

  /** Relative to the tree `s` before the call, everything new stands on `h`. */
  ghost predicate AllNewOn(s: Tree, h: Hash, t: Tree)
    requires Linked(t)
  {
    forall k | k in t.blocks && k !in s.blocks :: h in Path(t, k)
  }

  lemma AdoptEffect(p: Params, m: Tree, oh: Hash)
    requires Inv(p, m) && Adoptable(m, oh)
    ensures var t := Adopt(p, m, oh).tree; var q := m.orphans[oh].header.prevHash;
            && t.blocks.Keys <= m.blocks.Keys + {oh}
            && (oh in t.blocks && oh !in m.blocks ==> oh in t.parent && t.parent[oh] == q && oh != t.genesis)
            && (t.tip == m.tip || (t.tip == oh && oh !in m.blocks))
  {
    assert OrphanOk(p, m, oh);
    var t := Adopt(p, m, oh).tree;
    assert oh in t.blocks && oh !in m.blocks ==> Link(t, oh);
  }

  lemma AdoptOneStandsOn(p: Params, s: Tree, h: Hash, m: Tree, oh: Hash)
    requires Inv(p, m) && Quiescent(s) && Submap(m.orphans, s.orphans) && Adoptable(m, oh)
    requires s.blocks.Keys <= m.blocks.Keys && AllNewOn(s, h, m)
    ensures var t := Adopt(p, m, oh).tree;
            && AllNewOn(s, h, t) && (t.tip == m.tip || t.tip !in s.blocks)
            && Submap(t.orphans, s.orphans) && s.blocks.Keys <= t.blocks.Keys
  {
    hide Adopt, Earned, OrphanOk, Linked, Link, Path;
    AdoptTakesOne(p, m, oh);
    var t := Adopt(p, m, oh).tree;
    AdoptEffect(p, m, oh);
    var q := m.orphans[oh].header.prevHash;
    assert q !in s.blocks && h in Path(m, q);
    forall k | k in t.blocks && k !in s.blocks ensures h in Path(t, k) {
      if k in m.blocks {
        PathFrame(m, t, k);
      } else {
        PathFrame(m, t, q);
        ChildPath(t, k);
      }
    }
  }

  lemma {:induction false} AdoptedStandOn(p: Params, s: Tree, h: Hash, s1: Tree, t: Tree, n: nat)
    requires Inv(p, s1) && Quiescent(s) && Submap(s1.orphans, s.orphans) && s.blocks.Keys <= s1.blocks.Keys
    requires AllNewOn(s, h, s1) && Adopts(p, s1, t, n)
    ensures Inv(p, t) && AllNewOn(s, h, t)
    ensures t.tip == s1.tip || t.tip !in s.blocks
    ensures Submap(t.orphans, s.orphans) && s.blocks.Keys <= t.blocks.Keys
    decreases n
  {
    hide Adopt, AllNewOn, Inv, Linked, Submap, Quiescent, OrphanOk, Extends;
    InvLinked(p, s1);
    if n > 0 {
      var m: Tree :| Adopts(p, s1, m, n - 1) && AdoptStep(p, m, t);
      AdoptedStandOn(p, s, h, s1, m, n - 1);
      InvLinked(p, m);
      var oh :| Adoptable(m, oh) && t == Adopt(p, m, oh).tree;
      AdoptOneStandsOn(p, s, h, m, oh);
    }
  }

  lemma ConnectEffect(p: Params, s: Tree, b: Block)
    requires Inv(p, s)
    ensures var r := Connect(p, s, b); var h := BlockHash(p.crypto, b);
            && r.res.newTip == r.tree.tip
            && (r.err.Some? ==> r.tree == s && !r.res.added)
            && (r.res.added ==> r.tree.blocks.Keys == s.blocks.Keys + {h} && r.tree.orphans == s.orphans
                                && h !in s.blocks)
            && (!r.res.added ==> r.tree.blocks == s.blocks)
            && (!r.res.added && Quiescent(s) ==> Quiescent(r.tree))
            && (r.res.isNewTip ==> r.res.added && r.res.newTip == h)
  {
    hide Inv, Validate, Linked, Extends, ReorgOf;
    InvLinked(p, s);
  }

  /** A call that files a block adopts only descendants of that block, so the final tip is the
      tip right after the block's own step or a descendant of the block; any other call adopts nothing. */
  lemma AdoptionStaysAboveSubmittedBlock(p: Params, s: Tree, b: Block, t: Tree)
    requires Inv(p, s) && Quiescent(s) && AddStep(p, s, b, t)
    ensures var r := Connect(p, s, b); var h := BlockHash(p.crypto, b);
            && Inv(p, t)
            && (!r.res.added ==> t == r.tree)
            && (forall k | k in t.blocks && k !in s.blocks :: r.res.added && h in Path(t, k))
            && (t.tip == r.res.newTip || (r.res.added && h in Path(t, t.tip)))
            && (r.res.isNewTip ==> h in Path(t, t.tip))
  {
    hide Connect, Earned, OrphanOk;
    var r := Connect(p, s, b);
    var h := BlockHash(p.crypto, b);
    ConnectEffect(p, s, b);
    if r.err.None? {
      var n: nat :| Adopts(p, r.tree, t, n);
      if r.res.added {
        AdoptedStandOn(p, s, h, r.tree, t, n);
      } else {
        NothingToAdopt(p, r.tree, t, n);
      }
    }
  }
}
