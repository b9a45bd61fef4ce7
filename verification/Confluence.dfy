/** Delivery order does not matter: the accepted blocks and the tip's work depend only on which blocks were
    delivered, provided no acceptable block can be displaced by another with its hash. */
module Confluence {
  import opened Types
  import opened Tree
  import opened Orphans
  import opened ForkChoice

  /** The non-genesis blocks among a delivery sequence. */
  ghost function Delivered(p: Params, bs: seq<Block>): set<Block> {
    set b | b in bs && b.header.height > 0 :: Filed(p, b)
  }

  /** Among `d` a hash identifies a block, and none has the genesis block's hash. */
  ghost predicate Identified(d: set<Block>, genesis: Hash) {
    && (forall a, b | a in d && b in d && a.hash == b.hash :: a == b)
    && (forall a | a in d :: a.hash != genesis)
  }

  /** `path` runs from the genesis block over delivered blocks, valid link by link, no two under one hash. */
  ghost predicate Supported(p: Params, g: Block, d: set<Block>, path: seq<Block>) {
    && path != [] && path[0] == g
    && (forall i | 0 < i < |path| :: path[i] in d)
    && ValidSegment(p, path)
    && (forall i, j | 0 <= i < j < |path| :: path[i].hash != path[j].hash)
  }

  /** The reference meaning of acceptance: the block ends a supported path. */
  ghost predicate Acceptable(p: Params, g: Block, d: set<Block>, b: Block) {
    exists path :: Supported(p, g, d, path) && path[|path| - 1] == b
  }

  ghost predicate Holds(t: Tree, b: Block) {
    b.hash in t.blocks && t.blocks[b.hash] == b
  }

  // ---------- the invariant over deliveries ----------

  /** A delivered block is in the tree, waits as an orphan, or failed validation against its parent. */
  ghost predicate Settled(p: Params, s: Tree, b: Block) {
    || b.hash in s.blocks
    || b.hash in s.orphans
    || (b.header.prevHash in s.blocks && Validate(p, b, s.blocks[b.header.prevHash], b.hash).Some?)
  }

  /** Everything in the tree, genesis aside, was delivered. */
  ghost predicate Sourced(p: Params, d: set<Block>, s: Tree) {
    && (forall h | h in s.blocks && h != s.genesis :: s.blocks[h] in d)
    && (forall h | h in s.orphans :: Filed(p, s.orphans[h]) in d)
  }

  /** Of the blocks of `d` under one hash, which may replace each other while they wait, some one is settled. */
  ghost predicate HashSettled(p: Params, d: set<Block>, s: Tree, h: Hash) {
    exists b :: b in d && b.hash == h && Settled(p, s, b)
  }

  ghost predicate Explained(p: Params, d: set<Block>, s: Tree) {
    Sourced(p, d, s) && forall b | b in d :: HashSettled(p, d, s, b.hash)
  }

  /** Where a hash identifies a block, each of them is. */
  lemma EachSettled(p: Params, d: set<Block>, s: Tree, b: Block)
    requires Explained(p, d, s) && Identified(d, s.genesis) && b in d
    ensures Settled(p, s, b)
  {
    assert HashSettled(p, d, s, b.hash);
  }

  lemma ConnectExplained(p: Params, d: set<Block>, s: Tree, b: Block)
    requires Inv(p, s) && Explained(p, d, s)
    ensures Explained(p, d + Delivered(p, [b]), Connect(p, s, b).tree)
  {
    hide Inv, Insert;
    HeldTreeGenesis(p, s);
    var r := Connect(p, s, b);
    var e := d + Delivered(p, [b]);
    ConnectMaps(p, s, b);
    if b.header.height > 0 {
      assert b in [b];
      assert Filed(p, b) in Delivered(p, [b]);
    }
    forall c | c in e ensures HashSettled(p, e, r.tree, c.hash) {
      if c in d {
        assert HashSettled(p, d, s, c.hash);
        var x :| x in d && x.hash == c.hash && Settled(p, s, x);
        assert Settled(p, r.tree, x);
      } else {
        assert c == Filed(p, b) && Settled(p, r.tree, c);
      }
    }
  }

  lemma HeldTreeGenesis(p: Params, s: Tree)
    requires Inv(p, s)
    ensures s.genesis in s.blocks
  {}

  /** How one submission changes the block and orphan maps, by outcome. */
  lemma ConnectMaps(p: Params, s: Tree, b: Block)
    requires Inv(p, s)
    ensures var r := Connect(p, s, b); var h := BlockHash(p.crypto, b); var q := b.header.prevHash;
            && r.tree.genesis == s.genesis
            && (if r.res.added then
                  r.tree.blocks == s.blocks[h := Filed(p, b)] && r.tree.orphans == s.orphans
                  && h !in s.blocks && b.header.height > 0
                else if r.tree.orphans != s.orphans then
                  r.tree.blocks == s.blocks && r.tree.orphans == s.orphans[h := b] && b.header.height > 0
                else
                  r.tree.blocks == s.blocks
                  && (b.header.height > 0 ==> Settled(p, s, Filed(p, b))))
  {
    hide Inv, Linked, Validate, ReorgOf, Extends;
    InvLinked(p, s);
    var r := Connect(p, s, b);
    var h := BlockHash(p.crypto, b);
    if b.header.prevHash in s.blocks {
      ValidateIgnoresHashField(p, b, h, s.blocks[b.header.prevHash], h);
    }
    if r.tree.orphans == s.orphans && h !in s.blocks && b.header.height > 0 && b.header.prevHash !in s.blocks {
      assert s.orphans[h := b] == s.orphans;
    }
  }

  lemma AdoptExplained(p: Params, d: set<Block>, s: Tree, oh: Hash)
    requires Inv(p, s) && Explained(p, d, s) && Adoptable(s, oh)
    ensures Explained(p, d, Adopt(p, s, oh).tree)
  {
    hide Inv, Connect, Insert;
    var ob := s.orphans[oh];
    var m := Drop(p, s, oh);
    var r := Connect(p, m, ob);
    OrphanIsFiled(p, s, oh);
    ConnectMaps(p, m, ob);
    ConnectNeverParksKnownChild(p, m, ob);
    forall c | c in d ensures HashSettled(p, d, r.tree, c.hash) {
      assert HashSettled(p, d, s, c.hash);
      var x :| x in d && x.hash == c.hash && Settled(p, s, x);
      assert Settled(p, r.tree, if x.hash == oh then Filed(p, ob) else x);
    }
  }

  lemma OrphanIsFiled(p: Params, s: Tree, oh: Hash)
    requires Inv(p, s) && oh in s.orphans
    ensures Filed(p, s.orphans[oh]).hash == oh && s.orphans[oh].header.height > 0
  {
    assert OrphanOk(p, s, oh);
  }

  lemma ConnectNeverParksKnownChild(p: Params, s: Tree, b: Block)
    requires Inv(p, s) && b.header.prevHash in s.blocks
    ensures Connect(p, s, b).tree.orphans == s.orphans
  {}

  lemma {:induction false} AdoptsExplained(p: Params, d: set<Block>, s: Tree, t: Tree, n: nat)
    requires Inv(p, s) && Explained(p, d, s) && Adopts(p, s, t, n)
    ensures Inv(p, t) && Explained(p, d, t) && t.genesis == s.genesis
    decreases n
  {
    hide Inv, Adopt, Explained;
    if n > 0 {
      var m: Tree :| Adopts(p, s, m, n - 1) && AdoptStep(p, m, t);
      AdoptsExplained(p, d, s, m, n - 1);
      var oh :| Adoptable(m, oh) && t == Adopt(p, m, oh).tree;
      AdoptExplained(p, d, m, oh);
    }
  }

  lemma AddStepExplained(p: Params, d: set<Block>, s: Tree, b: Block, t: Tree)
    requires Inv(p, s) && Explained(p, d, s) && AddStep(p, s, b, t)
    ensures Explained(p, d + Delivered(p, [b]), t)
  {
    hide Inv, Connect, Explained;
    var r := Connect(p, s, b);
    ConnectExplained(p, d, s, b);
    if r.err.None? {
      var n: nat :| Adopts(p, r.tree, t, n);
      AdoptsExplained(p, d + Delivered(p, [b]), r.tree, t, n);
    } else {
      ConnectErrorKeepsTree(p, s, b);
    }
  }

  lemma ConnectErrorKeepsTree(p: Params, s: Tree, b: Block)
    requires Inv(p, s) && Connect(p, s, b).err.Some?
    ensures Connect(p, s, b).tree == s
  {}

  /** In every run. No assumption on hashes: a waiting block may have been replaced by another with its hash. */
  lemma {:induction false} RunExplained(p: Params, d: set<Block>, s: Tree, bs: seq<Block>, t: Tree)
    requires Inv(p, s) && Quiescent(s) && Explained(p, d, s) && Run(p, s, bs, t)
    ensures Inv(p, t) && Quiescent(t) && t.genesis == s.genesis && Explained(p, d + Delivered(p, bs), t)
    ensures Extends(s, t)
    decreases |bs|
  {
    hide Inv, Quiescent, Explained, AddStep, Connect;
    if bs == [] {
      assert d + Delivered(p, bs) == d;
    } else {
      var before, last := bs[..|bs| - 1], bs[|bs| - 1];
      var m: Tree :| Run(p, s, before, m) && AddStep(p, m, last, t);
      DeliveredSplits(p, bs);
      assert d + Delivered(p, bs) == d + Delivered(p, before) + Delivered(p, [last]);
      RunExplained(p, d, s, before, m);
      AddStepExplained(p, d + Delivered(p, before), m, last, t);
      AddStepKeepsInv(p, m, last, t);
      ExtendsTransitive(s, m, t);
    }
  }

  lemma DeliveredSplits(p: Params, bs: seq<Block>)
    requires bs != []
    ensures Delivered(p, bs) == Delivered(p, bs[..|bs| - 1]) + Delivered(p, [bs[|bs| - 1]])
  {
    var before, last := bs[..|bs| - 1], bs[|bs| - 1];
    assert forall b :: b in bs <==> b in before || b == last;
    assert forall b :: b in [last] <==> b == last;
  }

  // ---------- what an explained tree holds ----------

  /** Held blocks are acceptable. */
  lemma HeldIsAcceptable(p: Params, d: set<Block>, s: Tree, h: Hash)
    requires Inv(p, s) && Sourced(p, d, s) && h in s.blocks
    ensures Acceptable(p, s.blocks[s.genesis], d, s.blocks[h])
  {
    hide Inv, Link;
    InvLinked(p, s);
    var hs := Path(s, h);
    var path := BlocksAt(s, hs);
    PathIsValid(p, s, h);
    forall i | 0 < i < |path| ensures path[i] in d {
      PathStep(s, h, i);
      assert path[i] == s.blocks[hs[i]];
    }
    forall i, j | 0 <= i < j < |path| ensures path[i].hash != path[j].hash {
      HeaderHeight(p, s, hs[i]);
      HeaderHeight(p, s, hs[j]);
      if hs[i] == hs[j] {
        PathDistinct(s, h, i, j);
      }
    }
    assert Supported(p, s.blocks[s.genesis], d, path) && path[|path| - 1] == s.blocks[h];
  }

  lemma RootHash(p: Params, s: Tree)
    requires Inv(p, s)
    ensures s.genesis in s.blocks && s.blocks[s.genesis].hash == s.genesis
  {}

  lemma FiledUnderHash(p: Params, s: Tree, h: Hash)
    requires Inv(p, s)
    ensures h in s.blocks ==> s.blocks[h].hash == h
  {
    if h in s.blocks {
      HeaderHeight(p, s, h);
    }
  }

  // ---------- exactly when acceptable blocks are kept ----------

  /** Deliverable blocks: not genesis, hash filled in. */
  ghost predicate Deliverable(p: Params, d: set<Block>) {
    forall b | b in d :: b.header.height > 0 && Filed(p, b) == b
  }

  /** A block sharing its hash with an acceptable one is not acceptable itself, and the two can never both
      wait as orphans: one of them is a child of genesis. */
  ghost predicate OrderSafe(p: Params, g: Block, d: set<Block>) {
    forall b, c | b in d && c in d && b != c && b.hash == c.hash && Acceptable(p, g, d, b) ::
      !Acceptable(p, g, d, c) && (b.header.prevHash == g.hash || c.header.prevHash == g.hash)
  }

  ghost predicate Kept(p: Params, s: Tree, b: Block) {
    b.hash in s.blocks || (b.hash in s.orphans && Filed(p, s.orphans[b.hash]) == b)
  }

  /** A tree over genesis `g` in which everything held or waiting comes from `d`. */
  ghost predicate Over(p: Params, g: Block, d: set<Block>, s: Tree) {
    Inv(p, s) && Sourced(p, d, s) && s.genesis in s.blocks && s.blocks[s.genesis] == g
  }

  /** The block is valid in every such tree that holds its parent. */
  ghost predicate Fitting(p: Params, g: Block, d: set<Block>, b: Block) {
    forall s | Over(p, g, d, s) && b.header.prevHash in s.blocks ::
      Validate(p, b, s.blocks[b.header.prevHash], b.hash).None?
  }

  /** The blocks of `k` are valid wherever their parents are held, and none can be replaced while it waits by another
      block of `e`: of two under one hash, one is a child of genesis. */
  ghost predicate Lasting(p: Params, g: Block, d: set<Block>, e: set<Block>, k: set<Block>) {
    && (forall b | b in k :: Fitting(p, g, d, b))
    && (forall b, c | b in k && c in e && b != c && b.hash == c.hash ::
          b.header.prevHash == g.hash || c.header.prevHash == g.hash)
  }

  /** The blocks of `k` among those delivered so far, `f`, are held or waiting as themselves. */
  ghost predicate AllKept(p: Params, k: set<Block>, f: set<Block>, s: Tree) {
    forall b | b in k && b in f :: Kept(p, s, b)
  }

  lemma AcceptableGrows(p: Params, g: Block, e: set<Block>, d: set<Block>, b: Block)
    requires e <= d && Acceptable(p, g, e, b)
    ensures Acceptable(p, g, d, b)
  {
    var path :| Supported(p, g, e, path) && path[|path| - 1] == b;
    assert Supported(p, g, d, path);
  }

  /** What a supported path longer than genesis consists of: a shorter one, and a valid child of its end. */
  lemma SupportedPrefix(p: Params, g: Block, d: set<Block>, path: seq<Block>)
    requires Supported(p, g, d, path) && |path| > 1
    ensures var before, b := path[..|path| - 1], path[|path| - 1];
            && Supported(p, g, d, before) && path == before + [b]
            && b in d && b.hash != g.hash && (forall i | 0 <= i < |before| :: before[i].hash != b.hash)
            && Validate(p, b, before[|before| - 1], b.hash).None?
  {
    hide Validate;
    var before := path[..|path| - 1];
    assert forall i | 0 <= i < |before| :: before[i] == path[i];
    assert path[|path| - 2] == before[|before| - 1];
  }

  lemma SupportedEnd(p: Params, g: Block, d: set<Block>, path: seq<Block>)
    requires Supported(p, g, d, path)
    ensures path != [] && path[0] == g && (|path| == 1 ==> path == [g])
    ensures |path| > 1 ==> path[|path| - 1] in d && path[|path| - 1].hash != g.hash
    ensures forall b | b in path[1..] :: b in d
  {
    forall b | b in path[1..] ensures b in d {
      var i :| 0 <= i < |path[1..]| && path[1..][i] == b;
      assert path[i + 1] == b;
    }
  }

  lemma PathTo(p: Params, g: Block, d: set<Block>, b: Block) returns (path: seq<Block>)
    requires Acceptable(p, g, d, b)
    ensures Supported(p, g, d, path) && path != [] && path[|path| - 1] == b
  {
    path :| Supported(p, g, d, path) && path[|path| - 1] == b;
  }

  /** The predecessor on an acceptable block's path. */
  lemma AcceptableParent(p: Params, g: Block, d: set<Block>, b: Block) returns (q: Block)
    requires Acceptable(p, g, d, b) && b.header.height > 0 && g.header.height == 0
    ensures Acceptable(p, g, d, q) && Validate(p, b, q, b.hash).None? && b.header.prevHash == q.hash
    ensures q == g || (q in d && q.hash != g.hash)
    ensures b in d && b.hash != g.hash
  {
    hide Validate, Supported;
    var path := PathTo(p, g, d, b);
    SupportedEnd(p, g, d, path);
    SupportedPrefix(p, g, d, path);
    var before := path[..|path| - 1];
    q := before[|before| - 1];
    SupportedEnd(p, g, d, before);
    ValidatedHeader(p, b, q, b.hash);
  }

  /** When the parent hash of an acceptable block is held, it is held by the block it validates against. */
  lemma AcceptableFits(p: Params, d: set<Block>, s: Tree, b: Block)
    requires Inv(p, s) && s.genesis in s.blocks && Sourced(p, d, s)
    requires OrderSafe(p, s.blocks[s.genesis], d) && Acceptable(p, s.blocks[s.genesis], d, b)
    requires b.header.height > 0 && b.header.prevHash in s.blocks
    ensures Validate(p, b, s.blocks[b.header.prevHash], b.hash).None?
  {
    hide Inv, Validate, Acceptable;
    var g, held := s.blocks[s.genesis], s.blocks[b.header.prevHash];
    RootHash(p, s);
    RootHeight(p, s);
    FiledUnderHash(p, s, b.header.prevHash);
    var q := AcceptableParent(p, g, d, b);
    HeldIsAcceptable(p, d, s, held.hash);
  }

  lemma RootHeight(p: Params, s: Tree)
    requires Inv(p, s)
    ensures s.genesis in s.blocks && s.blocks[s.genesis].header.height == 0
  {}

  lemma ConnectSourced(p: Params, e: set<Block>, s: Tree, b: Block)
    requires Inv(p, s) && Sourced(p, e, s)
    ensures Sourced(p, e + Delivered(p, [b]), Connect(p, s, b).tree)
  {
    hide Inv, Connect;
    ConnectMaps(p, s, b);
    if b.header.height > 0 {
      assert b in [b];
      assert Filed(p, b) in Delivered(p, [b]);
    }
  }

  lemma AdoptSourced(p: Params, d: set<Block>, s: Tree, oh: Hash)
    requires Inv(p, s) && Sourced(p, d, s) && Adoptable(s, oh)
    ensures var t := Adopt(p, s, oh).tree; Sourced(p, d, t) && t.genesis == s.genesis
  {
    hide Inv, Connect;
    ConnectSourced(p, d, Drop(p, s, oh), s.orphans[oh]);
    assert d + Delivered(p, [s.orphans[oh]]) == d;
    ConnectMaps(p, Drop(p, s, oh), s.orphans[oh]);
  }

  lemma ConnectKept(p: Params, g: Block, d: set<Block>, e: set<Block>, k: set<Block>, f: set<Block>, s: Tree, b: Block)
    requires Over(p, g, d, s) && Quiescent(s) && AllKept(p, k, f, s) && Lasting(p, g, d, e, k)
    requires Delivered(p, [b]) <= e <= d
    ensures var t := Connect(p, s, b).tree; Over(p, g, d, t) && AllKept(p, k, f + Delivered(p, [b]), t)
  {
    hide Inv, Connect, Validate, Fitting;
    var t, now := Connect(p, s, b).tree, f + Delivered(p, [b]);
    ConnectSourced(p, d, s, b);
    assert d + Delivered(p, [b]) == d;
    ConnectMaps(p, s, b);
    RootHash(p, s);
    forall c | c in k && c in now ensures Kept(p, t, c) {
      if c in f {
        assert Kept(p, s, c);
        if c.hash !in t.blocks && t.orphans != s.orphans && BlockHash(p.crypto, b) == c.hash {
          assert b in [b] && Filed(p, b) in Delivered(p, [b]);
          ParkedParentUnknown(p, s, b);
        }
      } else {
        assert c == Filed(p, b);
        FitsHere(p, g, d, s, c);
        AcceptedOrKnown(p, s, b);
      }
    }
  }

  lemma FitsHere(p: Params, g: Block, d: set<Block>, s: Tree, b: Block)
    requires Over(p, g, d, s) && Fitting(p, g, d, b)
    ensures b.header.prevHash in s.blocks ==> Validate(p, b, s.blocks[b.header.prevHash], b.hash).None?
  {}

  lemma ParkedParentUnknown(p: Params, s: Tree, b: Block)
    requires Inv(p, s) && Connect(p, s, b).tree.orphans != s.orphans
    ensures b.header.prevHash !in s.blocks
  {}

  lemma AcceptedOrKnown(p: Params, s: Tree, b: Block)
    requires Inv(p, s) && b.header.height > 0
    requires b.header.prevHash in s.blocks ==>
               Validate(p, Filed(p, b), s.blocks[b.header.prevHash], BlockHash(p.crypto, b)).None?
    ensures Kept(p, Connect(p, s, b).tree, Filed(p, b))
  {
    hide Validate, Inv, ReorgOf;
    if b.header.prevHash in s.blocks {
      ValidateIgnoresHashField(p, b, BlockHash(p.crypto, b), s.blocks[b.header.prevHash], BlockHash(p.crypto, b));
    }
  }

  lemma AdoptKept(p: Params, g: Block, d: set<Block>, k: set<Block>, f: set<Block>, s: Tree, oh: Hash)
    requires Over(p, g, d, s) && AllKept(p, k, f, s) && Adoptable(s, oh) && forall b | b in k :: Fitting(p, g, d, b)
    ensures var t := Adopt(p, s, oh).tree; Over(p, g, d, t) && AllKept(p, k, f, t)
  {
    hide Inv, Connect, Validate, Fitting, Sourced;
    var t, ob, m := Adopt(p, s, oh).tree, s.orphans[oh], Drop(p, s, oh);
    OrphanIsFiled(p, s, oh);
    AdoptTakesOne(p, s, oh);
    AdoptSourced(p, d, s, oh);
    forall c | c in k && c in f ensures Kept(p, t, c) {
      assert Kept(p, s, c);
      if c.hash == oh && oh !in s.blocks {
        FitsHere(p, g, d, s, c);
        AcceptedOrKnown(p, m, ob);
      }
    }
  }

  lemma {:induction false} AdoptsKept(p: Params, g: Block, d: set<Block>, k: set<Block>, f: set<Block>,
                                      s: Tree, t: Tree, n: nat)
    requires Over(p, g, d, s) && AllKept(p, k, f, s) && Adopts(p, s, t, n) && forall b | b in k :: Fitting(p, g, d, b)
    ensures Over(p, g, d, t) && AllKept(p, k, f, t)
    decreases n
  {
    hide Inv, Adopt, AllKept, Over, Fitting;
    if n > 0 {
      var m: Tree :| Adopts(p, s, m, n - 1) && AdoptStep(p, m, t);
      AdoptsKept(p, g, d, k, f, s, m, n - 1);
      var oh :| Adoptable(m, oh) && t == Adopt(p, m, oh).tree;
      AdoptKept(p, g, d, k, f, m, oh);
    }
  }

  /** Lasting blocks that are delivered are kept through any run. */
  lemma {:induction false} RunKept(p: Params, g: Block, d: set<Block>, e: set<Block>, k: set<Block>, f: set<Block>,
                                   s: Tree, bs: seq<Block>, t: Tree)
    requires Over(p, g, d, s) && Quiescent(s) && AllKept(p, k, f, s) && Run(p, s, bs, t)
    requires Lasting(p, g, d, e, k) && Delivered(p, bs) <= e <= d
    ensures Over(p, g, d, t) && Quiescent(t) && AllKept(p, k, f + Delivered(p, bs), t)
    decreases |bs|
  {
    hide Over, Quiescent, AllKept, Lasting, Connect, AddStep;
    if bs == [] {
      assert f + Delivered(p, bs) == f;
    } else {
      var before, last := bs[..|bs| - 1], bs[|bs| - 1];
      var m: Tree :| Run(p, s, before, m) && AddStep(p, m, last, t);
      DeliveredSplits(p, bs);
      RunKept(p, g, d, e, k, f, s, before, m);
      AddStepKept(p, g, d, e, k, f + Delivered(p, before), m, last, t);
      assert f + Delivered(p, bs) == f + Delivered(p, before) + Delivered(p, [last]);
    }
  }

  lemma AddStepKept(p: Params, g: Block, d: set<Block>, e: set<Block>, k: set<Block>, f: set<Block>,
                    s: Tree, b: Block, t: Tree)
    requires Over(p, g, d, s) && Quiescent(s) && AllKept(p, k, f, s) && AddStep(p, s, b, t)
    requires Lasting(p, g, d, e, k) && Delivered(p, [b]) <= e <= d
    ensures Over(p, g, d, t) && Quiescent(t) && AllKept(p, k, f + Delivered(p, [b]), t)
  {
    hide Inv, Sourced, Quiescent, AllKept, Fitting, Connect;
    var r := Connect(p, s, b);
    ConnectKept(p, g, d, e, k, f, s, b);
    AddStepKeepsInv(p, s, b, t);
    if r.err.None? {
      var n: nat :| Adopts(p, r.tree, t, n);
      AdoptsKept(p, g, d, k, f + Delivered(p, [b]), r.tree, t, n);
    } else {
      ConnectErrorKeepsTree(p, s, b);
    }
  }

  ghost function AcceptableOf(p: Params, g: Block, d: set<Block>): set<Block> {
    set b | b in d && Acceptable(p, g, d, b)
  }

  /** In an order-safe set the acceptable blocks last. */
  lemma AcceptableLast(p: Params, g: Block, d: set<Block>)
    requires OrderSafe(p, g, d) && Deliverable(p, d)
    ensures Lasting(p, g, d, d, AcceptableOf(p, g, d))
  {
    hide Inv, Acceptable, Validate, Sourced;
    forall b | b in AcceptableOf(p, g, d) ensures Fitting(p, g, d, b) {
      forall s | Over(p, g, d, s) && b.header.prevHash in s.blocks
        ensures Validate(p, b, s.blocks[b.header.prevHash], b.hash).None?
      {
        AcceptableFits(p, d, s, b);
      }
    }
  }

  /** Once everything has been delivered, acceptable blocks are held, under their hash. */
  lemma {:induction false} AcceptableIsHeld(p: Params, d: set<Block>, s: Tree, path: seq<Block>)
    requires Inv(p, s) && Quiescent(s) && s.genesis in s.blocks && Sourced(p, d, s)
    requires AllKept(p, AcceptableOf(p, s.blocks[s.genesis], d), d, s)
    requires OrderSafe(p, s.blocks[s.genesis], d) && Deliverable(p, d)
    requires Supported(p, s.blocks[s.genesis], d, path)
    ensures Holds(s, path[|path| - 1])
    decreases |path|
  {
    hide Inv, OrderSafe, Validate, Supported;
    RootHash(p, s);
    SupportedEnd(p, s.blocks[s.genesis], d, path);
    if |path| > 1 {
      var before, b := path[..|path| - 1], path[|path| - 1];
      var q := before[|before| - 1];
      SupportedPrefix(p, s.blocks[s.genesis], d, path);
      AcceptableIsHeld(p, d, s, before);
      assert Acceptable(p, s.blocks[s.genesis], d, b);
      assert Kept(p, s, b);
      ValidatedHeader(p, b, q, b.hash);
      OnlyHolder(p, d, s, b);
    }
  }

  /** Under an acceptable block's hash the tree holds no other block. */
  lemma OnlyHolder(p: Params, d: set<Block>, s: Tree, b: Block)
    requires Inv(p, s) && s.genesis in s.blocks && Sourced(p, d, s) && b.hash != s.genesis
    requires OrderSafe(p, s.blocks[s.genesis], d) && Acceptable(p, s.blocks[s.genesis], d, b) && b in d
    ensures b.hash in s.blocks ==> s.blocks[b.hash] == b
  {
    hide Inv, Acceptable;
    if b.hash in s.blocks {
      FiledUnderHash(p, s, b.hash);
      HeldIsAcceptable(p, d, s, b.hash);
    }
  }

  lemma FreshOver(p: Params, g: Block, d: set<Block>)
    requires p.crypto.Valid() && g.header.height == 0
    ensures Over(p, Root(p, g), d, Fresh(p, g))
  {
    FreshInv(p, g);
  }

  /** After any run from a fresh node over deliveries that are order-safe, the tree holds genesis and exactly
      the acceptable blocks. */
  lemma RunHoldsExactlyAcceptable(p: Params, g: Block, bs: seq<Block>, t: Tree)
    requires p.crypto.Valid() && g.header.height == 0 && Run(p, Fresh(p, g), bs, t)
    requires OrderSafe(p, Root(p, g), Delivered(p, bs))
    ensures forall b :: Acceptable(p, Root(p, g), Delivered(p, bs), b) <==> Holds(t, b)
    ensures forall h | h in t.blocks :: t.blocks[h].hash == h
  {
    hide Inv, Quiescent, Run, OrderSafe, ValidSegment;
    var s, d, root := Fresh(p, g), Delivered(p, bs), Root(p, g);
    FreshInv(p, g);
    FreshOver(p, g, d);
    assert {} + d == d;
    DeliveredDeliverable(p, bs);
    AcceptableLast(p, root, d);
    RunKept(p, root, d, d, AcceptableOf(p, root, d), {}, s, bs, t);
    forall h ensures h in t.blocks ==> t.blocks[h].hash == h {
      FiledUnderHash(p, t, h);
    }
    forall b ensures Acceptable(p, root, d, b) <==> Holds(t, b) {
      if Acceptable(p, root, d, b) {
        var path: seq<Block> :| Supported(p, root, d, path) && path[|path| - 1] == b;
        AcceptableIsHeld(p, d, t, path);
      }
      if Holds(t, b) {
        HeldIsAcceptable(p, d, t, b.hash);
      }
    }
  }

  /** The genesis block as filed. */
  ghost function Root(p: Params, g: Block): Block {
    Fresh(p, g).blocks[Fresh(p, g).genesis]
  }

  lemma DeliveredDeliverable(p: Params, bs: seq<Block>)
    requires p.crypto.Valid()
    ensures Deliverable(p, Delivered(p, bs))
  {}

  lemma IdentifiedIsSafe(p: Params, g: Block, d: set<Block>)
    requires Identified(d, g.hash)
    ensures OrderSafe(p, g, d)
  {}

  // ---------- the orphans left over ----------

  /** If a hash identifies a delivered block, the orphans after any run are exactly the delivered blocks whose
      parent is not held. */
  lemma RunLeavesExactlyWaiting(p: Params, g: Block, bs: seq<Block>, t: Tree)
    requires p.crypto.Valid() && g.header.height == 0 && Run(p, Fresh(p, g), bs, t)
    requires Identified(Delivered(p, bs), Root(p, g).hash)
    ensures WaitingExactly(p, Delivered(p, bs), t)
  {
    hide Inv, AddStep, Run;
    var s, d := Fresh(p, g), Delivered(p, bs);
    FreshInv(p, g);
    FreshExplained(p, g);
    assert {} + d == d;
    RunExplained(p, {}, s, bs, t);
    forall h ensures Waiting(d, t, h) <==> h in t.orphans {
      OrphanCharacterised(p, d, t, h);
    }
    forall h | h in t.orphans ensures Filed(p, t.orphans[h]) in d && Filed(p, t.orphans[h]).hash == h {
      OrphanIsFiled(p, t, h);
    }
  }

  /** Some delivered block with hash `h` has no held parent. */
  ghost predicate Waiting(d: set<Block>, t: Tree, h: Hash) {
    exists b :: b in d && b.hash == h && b.header.prevHash !in t.blocks
  }

  /** The orphan pool is the delivered blocks without a held parent, each under its hash. */
  ghost predicate WaitingExactly(p: Params, d: set<Block>, t: Tree) {
    && (forall h :: Waiting(d, t, h) <==> h in t.orphans)
    && (forall h | h in t.orphans :: Filed(p, t.orphans[h]) in d && Filed(p, t.orphans[h]).hash == h)
  }

  lemma FreshExplained(p: Params, g: Block)
    requires p.crypto.Valid() && g.header.height == 0
    ensures Explained(p, {}, Fresh(p, g))
  {}

  lemma OrphanCharacterised(p: Params, d: set<Block>, t: Tree, h: Hash)
    requires Inv(p, t) && Quiescent(t) && Explained(p, d, t) && Identified(d, t.genesis)
    ensures Waiting(d, t, h) <==> h in t.orphans
  {
    hide Inv;
    if h in t.orphans {
      OrphanIsFiled(p, t, h);
      assert Filed(p, t.orphans[h]) in d;
    }
    if b :| b in d && b.hash == h && b.header.prevHash !in t.blocks {
      EachSettled(p, d, t, b);
      if h in t.blocks {
        FiledUnderHash(p, t, h);
        HeldParentHeld(p, t, h);
      }
    }
  }

  lemma HeldParentHeld(p: Params, t: Tree, h: Hash)
    requires Inv(p, t) && h in t.blocks && h != t.genesis
    ensures t.blocks[h].header.prevHash in t.blocks
  {
    assert Link(t, h);
  }

  // ---------- confluence ----------

  /** Any two runs that deliver the same order-safe blocks, in any orders and with any repeats, end with the
      same blocks, parents, heights and works, and tips of equal work; with the same orphans too if a hash
      identifies a delivered block. */
  lemma DeliveryOrderIrrelevant(p: Params, g: Block, bs1: seq<Block>, bs2: seq<Block>, t1: Tree, t2: Tree)
    requires p.crypto.Valid() && g.header.height == 0
    requires Run(p, Fresh(p, g), bs1, t1) && Run(p, Fresh(p, g), bs2, t2)
    requires Delivered(p, bs1) == Delivered(p, bs2)
    requires OrderSafe(p, Root(p, g), Delivered(p, bs1))
    ensures Linked(t1) && Linked(t2)
    ensures t1.blocks == t2.blocks && t1.parent == t2.parent && t1.height == t2.height && t1.cumWork == t2.cumWork
    ensures t1.cumWork[t1.tip] == t2.cumWork[t2.tip]
    ensures Identified(Delivered(p, bs1), Root(p, g).hash) ==>
              && t1.orphans.Keys == t2.orphans.Keys
              && forall h | h in t1.orphans :: Filed(p, t1.orphans[h]) == Filed(p, t2.orphans[h])
  {
    hide Inv, Run, Acceptable, Holds, Fresh, WaitingExactly, Identified, Delivered, Linked, Quiescent, Extends;
    hide Waiting, ValidSegment, OrderSafe;
    FreshInv(p, g);
    RunHoldsExactlyAcceptable(p, g, bs1, t1);
    RunHoldsExactlyAcceptable(p, g, bs2, t2);
    SameHeldSameBlocks(t1, t2);
    RunKeepsInv(p, Fresh(p, g), bs1, t1);
    RunKeepsInv(p, Fresh(p, g), bs2, t2);
    SameRoot(p, g, bs1, t1);
    SameRoot(p, g, bs2, t2);
    SameBlocksSameMaps(p, t1, t2);
    if Identified(Delivered(p, bs1), Root(p, g).hash) {
      RunLeavesExactlyWaiting(p, g, bs1, t1);
      RunLeavesExactlyWaiting(p, g, bs2, t2);
      SameBlocksSameOrphans(p, Delivered(p, bs1), t1, t2);
    }
  }

  lemma SameBlocksSameOrphans(p: Params, d: set<Block>, t1: Tree, t2: Tree)
    requires t1.blocks == t2.blocks && Identified(d, t1.genesis)
    requires WaitingExactly(p, d, t1) && WaitingExactly(p, d, t2)
    ensures t1.orphans.Keys == t2.orphans.Keys
    ensures forall h | h in t1.orphans :: Filed(p, t1.orphans[h]) == Filed(p, t2.orphans[h])
  {
    forall h ensures h in t1.orphans <==> h in t2.orphans {
      assert Waiting(d, t1, h) <==> Waiting(d, t2, h);
    }
  }

  lemma SameHeldSameBlocks(t1: Tree, t2: Tree)
    requires forall b :: Holds(t1, b) <==> Holds(t2, b)
    requires forall h | h in t1.blocks :: t1.blocks[h].hash == h
    requires forall h | h in t2.blocks :: t2.blocks[h].hash == h
    ensures t1.blocks == t2.blocks
  {
    forall h | h in t1.blocks ensures h in t2.blocks && t2.blocks[h] == t1.blocks[h] {
      assert Holds(t1, t1.blocks[h]);
    }
    forall h | h in t2.blocks ensures h in t1.blocks {
      assert Holds(t2, t2.blocks[h]);
    }
  }

  lemma SameRoot(p: Params, g: Block, bs: seq<Block>, t: Tree)
    requires p.crypto.Valid() && g.header.height == 0 && Run(p, Fresh(p, g), bs, t)
    ensures var h := Fresh(p, g).genesis;
            Root(p, g).hash == h && t.genesis == h && h in t.parent && t.parent[h] == p.crypto.zero
  {
    FreshInv(p, g);
    RunKeepsInv(p, Fresh(p, g), bs, t);
  }

  lemma SameBlocksSameMaps(p: Params, s: Tree, t: Tree)
    requires Inv(p, s) && Inv(p, t) && s.blocks == t.blocks && s.genesis == t.genesis
    requires s.parent[s.genesis] == t.parent[t.genesis]
    ensures s.parent == t.parent && s.height == t.height && s.cumWork == t.cumWork
    ensures Linked(s) && Linked(t) && s.cumWork[s.tip] == t.cumWork[t.tip]
  {
    forall h | h in s.blocks
      ensures s.height[h] == t.height[h] && s.cumWork[h] == t.cumWork[h] && s.parent[h] == t.parent[h]
    {
      HeaderHeight(p, s, h);
      HeaderHeight(p, t, h);
      WorkIsHeightTimesUnit(p, s, h);
      WorkIsHeightTimesUnit(p, t, h);
      if h != s.genesis {
        assert Link(s, h) && Link(t, h);
      }
    }
    assert s.cumWork[t.tip] <= s.cumWork[s.tip];
    assert t.cumWork[s.tip] <= t.cumWork[t.tip];
  }
}
