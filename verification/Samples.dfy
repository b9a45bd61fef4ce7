/** Small trees, built step by step, on which the instances of other modules rest. */
module Samples {
  import opened Types
  import opened Tree
  import opened Orphans
  import opened ForkChoice
  import opened Unreported
  import Confluence
  import Order

  /** Filing a valid child of a held block: the tip moves to it exactly if it is higher than the tip. */
  lemma FileChild(p: Params, s: Tree, b: Block) returns (t: Tree)
    requires Inv(p, s) && s.tip in s.height && WillFile(p, s, b) && Filed(p, b) == b
    ensures t == Connect(p, s, b).tree && Inv(p, t) && t.tip in t.height && t.genesis == s.genesis
    ensures t.blocks == s.blocks[b.hash := b] && t.orphans == s.orphans
    ensures b.header.height > s.height[s.tip] ==> t.tip == b.hash && t.height[t.tip] == b.header.height
    ensures b.header.height <= s.height[s.tip] ==> t.tip == s.tip && t.height[t.tip] == s.height[s.tip]
  {
    hide Inv, Connect, Validate, Extends;
    t := Connect(p, s, b).tree;
    OwnFiling(p, s, b);
    KnownParentConnect(p, s, b);
    TipRisesByOne(p, s, b);
    SameGenesis(p, s, b);
  }

  lemma SameGenesis(p: Params, s: Tree, b: Block)
    requires Inv(p, s)
    ensures Connect(p, s, b).tree.genesis == s.genesis
  {}

  /** A chain of three blocks, read off the tree. */
  lemma ThreeBlockChain(p: Params, t: Tree, x: Hash, y: Hash)
    requires Inv(p, t) && Linked(t) && t.tip == y && y in t.blocks && x in t.blocks
    requires t.blocks[y].header.prevHash == x && t.blocks[x].header.prevHash == t.genesis
    requires y != t.genesis && x != t.genesis
    ensures MainChain(t) == [t.blocks[t.genesis], t.blocks[x], t.blocks[y]] && t.parent[y] == x
  {
    hide Inv;
    assert Link(t, x) && Link(t, y);
    ChildPath(t, y);
    ChildPath(t, x);
    assert MainPath(t) == [t.genesis, x, y];
  }

  lemma TwoBranches(p: Params, g: Block, left: Block, right: Block) returns (s: Tree)
    requires p.crypto.Valid() && g.header.height == 0 && Filed(p, left) == left && Filed(p, right) == right
    requires var root := Confluence.Root(p, g);
             && Validate(p, left, root, left.hash).None? && Validate(p, right, root, right.hash).None?
             && left.hash != root.hash && right.hash != root.hash && left.hash != right.hash
    ensures Inv(p, s) && s.tip == left.hash && s.tip in s.height && s.height[s.tip] == 1
    ensures s.genesis == Confluence.Root(p, g).hash
    ensures s.blocks == map[s.genesis := Confluence.Root(p, g)][left.hash := left][right.hash := right]
  {
    hide Inv, Validate, Connect;
    var s0 := Fresh(p, g);
    FreshInv(p, g);
    Order.FreshIsRoot(p, g);
    ValidatedHeader(p, left, Confluence.Root(p, g), left.hash);
    ValidatedHeader(p, right, Confluence.Root(p, g), right.hash);
    var s1 := FileChild(p, s0, left);
    s := FileChild(p, s1, right);
  }

  lemma AboveBranch(p: Params, s: Tree, left: Block, right: Block, b: Block) returns (t: Tree)
    requires Inv(p, s) && s.tip == left.hash && s.tip in s.height && s.height[s.tip] == 1 && Filed(p, b) == b
    requires s.genesis in s.blocks && left.hash in s.blocks && s.blocks[left.hash] == left
             && left.header.prevHash == s.genesis
    requires right.hash in s.blocks && s.blocks[right.hash] == right && right.header.prevHash == s.genesis
    requires left.hash != s.genesis && right.hash != s.genesis && left.hash != right.hash
    requires b.hash !in s.blocks && b.header.height == 2 && Validate(p, b, right, b.hash).None?
    ensures Connect(p, s, b).tree == t && Connect(p, s, b).res.reorg.Some? && Inv(p, t) && Linked(t) && Linked(s)
    ensures t.blocks == s.blocks[b.hash := b] && t.genesis == s.genesis
    ensures t.tip == b.hash && t.tip in t.height && t.height[t.tip] == 2
    ensures MainChain(s) == [s.blocks[s.genesis], left] && MainChain(t) == [s.blocks[s.genesis], right, b]
    ensures var r := Connect(p, s, b).res.reorg.value; r.removed == [left] && r.added == [right, b]
  {
    hide Inv, Validate, Connect, Linked;
    ValidatedHeader(p, b, right, b.hash);
    t := FileChild(p, s, b);
    InvLinked(p, s);
    InvLinked(p, t);
    ThreeBlockChain(p, t, right.hash, b.hash);
    TipRisesByOne(p, s, b);
    MainChainAfterConnect(p, s, b);
    ChildPath(s, left.hash);
    assert MainPath(s) == [s.genesis, left.hash];
    var r, was, now := Connect(p, s, b).res.reorg.value, MainChain(s), MainChain(t);
    assert was[1..] == [left] && now[1..] == [right, b];
  }

  /** Genesis and one child, with another block waiting for an unknown parent. */
  lemma OneAndWaiting(p: Params, g: Block, left: Block, x: Block) returns (s: Tree)
    requires p.crypto.Valid() && g.header.height == 0 && Filed(p, left) == left && Filed(p, x) == x
    requires var root := Confluence.Root(p, g);
             && Validate(p, left, root, left.hash).None? && left.hash != root.hash
             && x.header.height > 0 && x.hash != root.hash && x.hash != left.hash
             && x.header.prevHash != root.hash && x.header.prevHash != left.hash
    ensures Inv(p, s) && Quiescent(s) && s.tip == left.hash && s.tip in s.height && s.height[s.tip] == 1
    ensures s.genesis == Confluence.Root(p, g).hash && s.orphans == map[x.hash := x]
    ensures s.blocks == map[s.genesis := Confluence.Root(p, g)][left.hash := left]
    ensures Linked(s) && left in MainChain(s)
  {
    hide Inv, Validate, Connect;
    var s0 := Fresh(p, g);
    FreshInv(p, g);
    Order.FreshIsRoot(p, g);
    ValidatedHeader(p, left, Confluence.Root(p, g), left.hash);
    var s1 := FileChild(p, s0, left);
    Order.NothingWaits(s1);
    s := Order.ParkStep(p, s1, x);
    InvLinked(p, s);
    assert MainChain(s)[|MainChain(s)| - 1] == left;
  }

  /** The parent of the waiting block arrives at the tip's height, and the tip moves to the waiting block. */
  lemma OvertakenBy(p: Params, s: Tree, left: Block, b: Block, x: Block) returns (v: Tree)
    requires Inv(p, s) && Quiescent(s) && s.tip == left.hash && s.tip in s.height && s.height[s.tip] == 1
    requires s.genesis in s.blocks && s.blocks.Keys == {s.genesis, left.hash} && s.orphans == map[x.hash := x]
    requires Filed(p, b) == b && Filed(p, x) == x && b.header.height == 1 && b.header.prevHash == s.genesis
    requires b.hash !in s.blocks && x.hash !in s.blocks && x.hash != b.hash
    requires Validate(p, b, s.blocks[s.genesis], b.hash).None? && Validate(p, x, b, x.hash).None?
    ensures AddStep(p, s, b, v) && Overtakes(p, s, b) && Inv(p, v) && Linked(v) && v.orphans == map[]
    ensures v.tip == x.hash && v.tip in v.height && v.height[v.tip] == 2 && v.genesis == s.genesis
    ensures v.blocks == s.blocks[b.hash := b][x.hash := x]
    ensures var r := Connect(p, s, b).res; r.added && !r.isNewTip && r.reorg.None?
    ensures MainChain(v) == [s.blocks[s.genesis], b, x]
  {
    hide Inv, Validate, Connect, Linked, AdoptedFrom, Quiescent;
    ValidatedHeader(p, x, b, x.hash);
    var base := FileChild(p, s, b);
    OwnFiling(p, s, b);
    TipRisesByOne(p, s, b);
    assert Overtakes(p, s, b) by {
      var path := [b, x];
      assert path[1] == x;
      assert OrphanPath(p, s, b, path) && |path| > 1 && path[|path| - 1].header.height > s.height[s.tip];
    }
    v := SubmissionCompletes(p, s, b);
    var n: nat :| Adopts(p, base, v, n);
    AdoptionEffect(p, base, v, n);
    TipReportedIffNotOvertaken(p, s, b, v);
    OnlyOrphanAdopted(p, base, v, x);
    InvLinked(p, v);
    RootStaysFiled(p, s, base, v);
    ThreeBlockChain(p, v, b.hash, x.hash);
    HeaderHeight(p, v, x.hash);
    InTree(p, v, x.hash);
  }

  lemma OnlyOrphanAdopted(p: Params, base: Tree, v: Tree, x: Block)
    requires Inv(p, base) && Inv(p, v) && base.tip in base.height && v.tip in v.height && AdoptedFrom(p, base, v)
    requires base.orphans == map[x.hash := x] && Filed(p, x) == x && v.tip != base.tip
    ensures v.tip == x.hash && v.tip in v.blocks && v.blocks[v.tip] == x
    ensures forall h | h in base.blocks :: h in v.blocks && v.blocks[h] == base.blocks[h]
    ensures v.genesis == base.genesis && v.blocks == base.blocks[x.hash := x]
    ensures Quiescent(v) && x.header.prevHash in base.blocks ==> v.orphans == map[]
  {
    hide Inv;
    TipHeights(p, v);
    ExtendsKeeps(base, v);
  }

  lemma RootStaysFiled(p: Params, s: Tree, base: Tree, v: Tree)
    requires s.genesis in s.blocks && s.genesis in base.blocks && base.blocks[s.genesis] == s.blocks[s.genesis]
    requires forall h | h in base.blocks :: h in v.blocks && v.blocks[h] == base.blocks[h]
    ensures s.genesis in v.blocks && v.blocks[s.genesis] == s.blocks[s.genesis]
  {}

  /** A reported switch: `left` is the tip above genesis, and `b` on top of `right` replaces it. */
  lemma SwitchSample(zero: Hash, hs: seq<Hash>, lost: seq<Tx>, kept: seq<Tx>)
    returns (p: Params, s: Tree, left: Block, right: Block, b: Block, t: Tree)
    requires |hs| == 4 && Order.Apart(zero, hs)
    ensures p.difficulty == 0 && Inv(p, s) && Linked(s) && s.genesis in s.blocks && t == Connect(p, s, b).tree
            && Linked(t)
    ensures MainChain(s) == [s.blocks[s.genesis], left] && MainChain(t) == [s.blocks[s.genesis], right, b]
    ensures var r := Connect(p, s, b).res.reorg; r.Some? && r.value.removed == [left] && r.value.added == [right, b]
    ensures s.blocks[s.genesis].txs == [] && left.txs == lost && right.txs == [] && b.txs == kept
    ensures left.hash == s.tip && left.hash != right.hash
  {
    hide Inv, Connect, Linked;
    p := Params(Order.ToyCrypto(zero, hs), 0);
    Order.ToyCryptoValid(zero, hs);
    var g := Block(Header(0, zero, 0, 0, "genesis", zero), 0, zero, []);
    left := Block(Header(1, hs[0], 1, 0, "a", zero), 1, hs[1], lost);
    right := Block(Header(1, hs[0], 1, 0, "b", zero), 2, hs[2], []);
    b := Block(Header(2, hs[2], 2, 0, "b", zero), 3, hs[3], kept);
    s := TwoBranches(p, g, left, right);
    t := AboveBranch(p, s, left, right, b);
  }

  /** Filing a valid child where nothing waits is all a call does. */
  lemma FileAlone(p: Params, s: Tree, b: Block) returns (t: Tree)
    requires Inv(p, s) && s.tip in s.height && s.orphans == map[] && WillFile(p, s, b) && Filed(p, b) == b
    ensures AddStep(p, s, b, t) && t == Connect(p, s, b).tree && Inv(p, t) && t.tip in t.height
            && t.genesis == s.genesis
    ensures t.blocks == s.blocks[b.hash := b] && t.orphans == map[]
    ensures b.header.height > s.height[s.tip] ==> t.tip == b.hash && t.height[t.tip] == b.header.height
    ensures b.header.height <= s.height[s.tip] ==> t.tip == s.tip && t.height[t.tip] == s.height[s.tip]
  {
    hide Inv, Connect, Validate, Extends;
    t := FileChild(p, s, b);
    OwnFiling(p, s, b);
    Order.NothingWaits(t);
    assert Adopts(p, t, t, 0);
  }

  /** A chain of four blocks, read off the tree. */
  lemma FourBlockChain(p: Params, t: Tree, x: Hash, y: Hash, z: Hash)
    requires Inv(p, t) && Linked(t) && t.tip == z && z in t.blocks && y in t.blocks && x in t.blocks
    requires t.blocks[z].header.prevHash == y && t.blocks[y].header.prevHash == x
             && t.blocks[x].header.prevHash == t.genesis
    requires z != t.genesis && y != t.genesis && x != t.genesis
    ensures MainPath(t) == [t.genesis, x, y, z]
    ensures MainChain(t) == [t.blocks[t.genesis], t.blocks[x], t.blocks[y], t.blocks[z]] && t.parent[z] == y
  {
    hide Inv;
    assert Link(t, x) && Link(t, y) && Link(t, z);
    ChildPath(t, z);
    ChildPath(t, y);
    ChildPath(t, x);
    assert MainPath(t) == [t.genesis, x, y, z];
  }

  /** A node one block high, and a peer two blocks high on another branch. */
  lemma TwoNodes(zero: Hash, hs: seq<Hash>)
    returns (p: Params, s: Tree, t: Tree, g: Block, left: Block, right: Block, b: Block)
    requires |hs| == 4 && Order.Apart(zero, hs)
    ensures Inv(p, s) && Inv(p, t) && Linked(s) && Linked(t) && s.genesis == t.genesis == g.hash && s.orphans == map[]
    ensures s.blocks == map[g.hash := g][left.hash := left]
    ensures t.blocks == map[g.hash := g][left.hash := left][right.hash := right][b.hash := b]
    ensures s.tip in s.height && s.height[s.tip] == 1 && t.tip in t.height && t.height[t.tip] == 2
    ensures MainPath(s) == [g.hash, left.hash] && MainPath(t) == [g.hash, right.hash, b.hash]
    ensures left.hash != g.hash && left.hash != right.hash && left.hash != b.hash && right.hash != g.hash
            && b.hash != g.hash
  {
    hide Inv, Connect, Linked;
    p := Params(Order.ToyCrypto(zero, hs), 0);
    Order.ToyCryptoValid(zero, hs);
    var gen := Block(Header(0, zero, 0, 0, "genesis", zero), 0, zero, []);
    left := Block(Header(1, hs[0], 1, 0, "a", zero), 1, hs[1], []);
    right := Block(Header(1, hs[0], 1, 0, "b", zero), 2, hs[2], []);
    b := Block(Header(2, hs[2], 2, 0, "b", zero), 3, hs[3], []);
    g := Confluence.Root(p, gen);
    FreshInv(p, gen);
    Order.FreshIsRoot(p, gen);
    s := FileChild(p, Fresh(p, gen), left);
    var both := TwoBranches(p, gen, left, right);
    t := AboveBranch(p, both, left, right, b);
    InvLinked(p, s);
    ChildPath(s, left.hash);
    ThreeBlockPath(p, t, right.hash, b.hash);
  }

  /** A node one block high at which `x` waits for its parent `right`, and a peer three blocks high on top of `right`,
      but not of `x`. */
  ghost predicate Foreign(p: Params, s: Tree, t: Tree, g: Block, left: Block, right: Block, b2: Block, b3: Block,
                          x: Block) {
    && Inv(p, s) && Quiescent(s) && Inv(p, t) && Linked(s) && Linked(t) && s.genesis == t.genesis == g.hash
    && s.blocks == map[g.hash := g][left.hash := left] && s.orphans == map[x.hash := x] && Filed(p, x) == x
    && t.blocks == map[g.hash := g][right.hash := right][b2.hash := b2][b3.hash := b3]
    && s.tip in s.height && s.height[s.tip] == 1 && t.tip in t.height && t.height[t.tip] == 3
    && MainPath(s) == [g.hash, left.hash] && MainPath(t) == [g.hash, right.hash, b2.hash, b3.hash]
    && x.hash !in {g.hash, left.hash, right.hash, b2.hash, b3.hash}
    && left.hash !in {g.hash, right.hash, b2.hash, b3.hash}
    && right.hash !in {g.hash, b2.hash, b3.hash} && b2.hash !in {g.hash, b3.hash} && b3.hash != g.hash
    && x.header.prevHash == right.hash && x.header.height == 2 && Validate(p, x, right, x.hash).None?
  }

  lemma ForeignWaits(zero: Hash, hs: seq<Hash>)
    returns (p: Params, s: Tree, t: Tree, g: Block, left: Block, right: Block, b2: Block, b3: Block, x: Block)
    requires |hs| == 6 && Order.Apart(zero, hs)
    ensures Foreign(p, s, t, g, left, right, b2, b3, x)
  {
    hide Inv, Connect, Linked;
    p := Params(Order.ToyCrypto(zero, hs), 0);
    Order.ToyCryptoValid(zero, hs);
    var gen := Block(Header(0, zero, 0, 0, "genesis", zero), 0, zero, []);
    left := Block(Header(1, hs[0], 1, 0, "a", zero), 1, hs[1], []);
    right := Block(Header(1, hs[0], 1, 0, "b", zero), 2, hs[2], []);
    b2 := Block(Header(2, hs[2], 2, 0, "b", zero), 3, hs[3], []);
    b3 := Block(Header(3, hs[3], 3, 0, "b", zero), 4, hs[4], []);
    x := Block(Header(2, hs[2], 2, 0, "c", zero), 5, hs[5], []);
    g := Confluence.Root(p, gen);
    Order.FreshIsRoot(p, gen);
    FreshInv(p, gen);
    s := OneAndWaiting(p, gen, left, x);
    TwoBlockPath(p, s, left.hash);
    t := FourBlocks(p, gen, right, b2, b3);
  }

  lemma TwoBlockPath(p: Params, s: Tree, x: Hash)
    requires Inv(p, s) && Linked(s) && s.tip == x && x in s.blocks && x != s.genesis
    requires s.blocks[x].header.prevHash == s.genesis
    ensures MainPath(s) == [s.genesis, x]
  {
    hide Inv;
    assert Link(s, x);
    ChildPath(s, x);
  }

  /** A chain of three blocks above genesis, filed one by one. */
  lemma FourBlocks(p: Params, gen: Block, x: Block, y: Block, z: Block) returns (t: Tree)
    requires p.crypto.Valid() && gen.header.height == 0 && Filed(p, x) == x && Filed(p, y) == y && Filed(p, z) == z
    requires var g := Confluence.Root(p, gen);
             && Validate(p, x, g, x.hash).None? && Validate(p, y, x, y.hash).None? && Validate(p, z, y, z.hash).None?
             && x.hash != g.hash && y.hash !in {g.hash, x.hash} && z.hash !in {g.hash, x.hash, y.hash}
             && x.header.height == 1 && y.header.height == 2 && z.header.height == 3
    ensures var g := Confluence.Root(p, gen);
            && t.blocks == map[g.hash := g][x.hash := x][y.hash := y][z.hash := z] && t.genesis == g.hash
            && Inv(p, t) && Linked(t) && t.tip in t.height && t.height[t.tip] == 3
            && MainPath(t) == [g.hash, x.hash, y.hash, z.hash]
  {
    hide Inv, Connect, Linked, Validate;
    var g := Confluence.Root(p, gen);
    Order.FreshIsRoot(p, gen);
    FreshInv(p, gen);
    ValidatedHeader(p, x, g, x.hash);
    ValidatedHeader(p, y, x, y.hash);
    ValidatedHeader(p, z, y, z.hash);
    var t1 := FileChild(p, Fresh(p, gen), x);
    var t2 := FileChild(p, t1, y);
    t := FileChild(p, t2, z);
    InvLinked(p, t);
    FourBlockChain(p, t, x.hash, y.hash, z.hash);
  }

  lemma ThreeBlockPath(p: Params, t: Tree, x: Hash, y: Hash)
    requires Inv(p, t) && Linked(t) && t.tip == y && y in t.blocks && x in t.blocks
    requires t.blocks[y].header.prevHash == x && t.blocks[x].header.prevHash == t.genesis
    requires y != t.genesis && x != t.genesis
    ensures MainPath(t) == [t.genesis, x, y]
  {
    hide Inv;
    assert Link(t, x) && Link(t, y);
    ChildPath(t, y);
    ChildPath(t, x);
  }
}
