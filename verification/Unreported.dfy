/** When a submission moves the tip beyond what its result reports: exactly when the waiting orphans hold a
    valid path on top of the submitted block that rises above the tip. */
module Unreported {
  import opened Types
  import opened Tree
  import opened Orphans
  import opened ForkChoice

  /** The submission will be filed: new, parent known, valid. */
  predicate WillFile(p: Params, s: Tree, b: Block) {
    && b.header.height > 0 && BlockHash(p.crypto, b) !in s.blocks && b.header.prevHash in s.blocks
    && Validate(p, b, s.blocks[b.header.prevHash], BlockHash(p.crypto, b)).None?
  }

  /** `path` leads from the submitted block over waiting orphans that are not held yet, valid link by link. */
  ghost predicate OrphanPath(p: Params, s: Tree, b: Block, path: seq<Block>) {
    && path != [] && path[0] == Filed(p, b) && ValidSegment(p, path)
    && forall i {:trigger path[i]} | 0 < i < |path| ::
         && path[i].hash in s.orphans && Filed(p, s.orphans[path[i].hash]) == path[i]
         && path[i].hash !in s.blocks && path[i].hash != path[0].hash
  }

  /** Some such path ends above the current tip. Known before the call. */
  ghost predicate Overtakes(p: Params, s: Tree, b: Block) {
    && WillFile(p, s, b) && s.tip in s.height
    && exists path: seq<Block> ::
         OrphanPath(p, s, b, path) && |path| > 1 && path[|path| - 1].header.height > s.height[s.tip]
  }

  /** What adoption from `base` has done by the time it reaches `m`. */
  ghost predicate AdoptedFrom(p: Params, base: Tree, m: Tree)
    requires base.tip in base.height && m.tip in m.height
  {
    && Extends(base, m)
    && (forall h | h in m.blocks && h !in base.blocks :: h in base.orphans && m.blocks[h] == Filed(p, base.orphans[h]))
    && (forall oh | oh in m.orphans :: oh in base.orphans && m.orphans[oh] == base.orphans[oh])
    && (forall oh {:trigger Disposed(p, base, m, oh)} | oh in base.orphans :: Disposed(p, base, m, oh))
    && (m.tip == base.tip || (m.tip !in base.blocks && m.height[m.tip] > base.height[base.tip]))
  }

  /** An orphan still waits, is held, or was refused by its parent. */
  ghost predicate Disposed(p: Params, base: Tree, m: Tree, oh: Hash)
    requires oh in base.orphans
  {
    var o := base.orphans[oh];
    || oh in m.orphans
    || oh in m.blocks
    || (o.header.prevHash in m.blocks && Validate(p, o, m.blocks[o.header.prevHash], oh).Some?)
  }

  lemma TipHeights(p: Params, s: Tree)
    requires Inv(p, s)
    ensures s.tip in s.height && s.tip in s.blocks
  {}

  lemma DropKeepsRest(p: Params, m: Tree, oh: Hash)
    requires Inv(p, m) && Adoptable(m, oh)
    ensures var d := Drop(p, m, oh); Inv(p, d) && d == m.(orphans := m.orphans - {oh})
    ensures BlockHash(p.crypto, m.orphans[oh]) == oh && m.orphans[oh].header.height > 0
    ensures Adopt(p, m, oh) == Connect(p, Drop(p, m, oh), m.orphans[oh])
  {
    assert OrphanOk(p, m, oh);
  }

  /** How filing a block whose parent is known comes out. */
  lemma KnownParentConnect(p: Params, s: Tree, b: Block)
    requires Inv(p, s) && b.header.height > 0 && b.header.prevHash in s.blocks
    ensures var t := Connect(p, s, b).tree; var h := BlockHash(p.crypto, b);
            && t.orphans == s.orphans
            && t.blocks == (if WillFile(p, s, b) then s.blocks[h := Filed(p, b)] else s.blocks)
            && (t.tip == s.tip || (WillFile(p, s, b) && t.tip == h))
  {
    hide Inv, Validate, Linked, Extends, ReorgOf;
    InvLinked(p, s);
  }

  lemma AdoptOne(p: Params, base: Tree, m: Tree, oh: Hash)
    requires Inv(p, base) && Inv(p, m) && base.tip in base.height && m.tip in m.height
    requires AdoptedFrom(p, base, m) && Adoptable(m, oh)
    ensures var t := Adopt(p, m, oh).tree; t.tip in t.height && AdoptedFrom(p, base, t)
  {
    hide Inv, Connect, Adopt, Validate, Extends;
    DropKeepsRest(p, m, oh);
    var d, o, t := Drop(p, m, oh), m.orphans[oh], Adopt(p, m, oh).tree;
    KnownParentConnect(p, d, o);
    TipRisesByOne(p, d, o);
    TipHeights(p, t);
    ExtendsTransitive(base, m, t);
    ExtendsKeeps(base, m);
    ExtendsKeeps(m, t);
    forall x | x in base.orphans ensures Disposed(p, base, t, x) {
      assert Disposed(p, base, m, x);
    }
  }

  lemma ExtendsKeeps(s: Tree, t: Tree)
    requires Extends(s, t)
    ensures forall h | h in s.blocks :: h in t.blocks && t.blocks[h] == s.blocks[h]
    ensures forall h | h in s.height :: h in t.height && t.height[h] == s.height[h]
  {}

  lemma {:induction false} AdoptionEffect(p: Params, base: Tree, t: Tree, n: nat)
    requires Inv(p, base) && base.tip in base.height && Adopts(p, base, t, n)
    ensures Inv(p, t) && t.tip in t.height && AdoptedFrom(p, base, t)
    decreases n
  {
    hide Inv, Adopt, AdoptedFrom;
    if n > 0 {
      var m: Tree :| Adopts(p, base, m, n - 1) && AdoptStep(p, m, t);
      AdoptionEffect(p, base, m, n - 1);
      var oh :| Adoptable(m, oh) && t == Adopt(p, m, oh).tree;
      AdoptOne(p, base, m, oh);
    } else {
      NothingAdopted(p, base);
    }
  }

  lemma NothingAdopted(p: Params, s: Tree)
    requires s.tip in s.height
    ensures AdoptedFrom(p, s, s)
  {}

  /** Once adoption is complete, every block of an orphan path is held. */
  lemma {:induction false} PathAdopted(p: Params, s: Tree, b: Block, base: Tree, t: Tree, path: seq<Block>, i: nat)
    requires WillFile(p, s, b) && base.blocks == s.blocks[BlockHash(p.crypto, b) := Filed(p, b)]
             && base.orphans == s.orphans
    requires Quiescent(t) && base.tip in base.height && t.tip in t.height && AdoptedFrom(p, base, t)
    requires OrphanPath(p, s, b, path) && i < |path|
    ensures path[i].hash in t.blocks && t.blocks[path[i].hash] == path[i]
    decreases i
  {
    hide Validate;
    ExtendsKeeps(base, t);
    if i > 0 {
      PathAdopted(p, s, b, base, t, path, i - 1);
      ValidatedHeader(p, path[i], path[i - 1], path[i].hash);
      var o := s.orphans[path[i].hash];
      ValidateIgnoresHashField(p, o, path[i].hash, path[i - 1], path[i].hash);
      assert Disposed(p, base, t, path[i].hash);
    }
  }

  lemma OwnFiling(p: Params, s: Tree, b: Block)
    requires Inv(p, s) && WillFile(p, s, b)
    ensures var r := Connect(p, s, b); var h := BlockHash(p.crypto, b);
            && r.err.None? && r.res.added && Inv(p, r.tree) && r.res.newTip == r.tree.tip
            && r.tree.blocks == s.blocks[h := Filed(p, b)] && r.tree.orphans == s.orphans
            && r.tree.tip in r.tree.height && s.tip in s.height && h in r.tree.height
            && r.tree.height[r.tree.tip]
               == (if b.header.height > s.height[s.tip] then b.header.height else s.height[s.tip])
            && r.tree.height[h] == b.header.height && h !in s.blocks
  {
    hide Validate, Inv, Linked, ReorgOf, Extends;
    InvLinked(p, s);
    TipHeights(p, s);
    var t, h := Connect(p, s, b).tree, BlockHash(p.crypto, b);
    TipHeights(p, t);
    KnownParentConnect(p, s, b);
    TipRisesByOne(p, s, b);
    HeaderHeight(p, t, h);
    HeaderHeight(p, t, t.tip);
    HeaderHeight(p, s, s.tip);
    TipIsHighest(p, t, h);
    InTree(p, t, h);
    if t.tip == h {
      assert t.height[t.tip] >= s.height[s.tip];
    }
  }

  lemma InTree(p: Params, t: Tree, h: Hash)
    requires Inv(p, t) && h in t.blocks
    ensures h in t.height
  {}

  /** A submission that files nothing leaves the tip where it was. */
  lemma NoFilingNoMove(p: Params, s: Tree, b: Block, t: Tree)
    requires Inv(p, s) && Quiescent(s) && AddStep(p, s, b, t) && !WillFile(p, s, b)
    ensures t.tip == s.tip == Connect(p, s, b).res.newTip
  {
    hide Inv, Validate, Linked, Extends, ReorgOf, Adopts;
    InvLinked(p, s);
    AdoptionStaysAboveSubmittedBlock(p, s, b, t);
  }

  /** A tip reached by adoption ends an orphan path above the old tip. */
  lemma OvertakingPath(p: Params, s: Tree, b: Block, base: Tree, t: Tree) returns (path: seq<Block>)
    requires Inv(p, s) && WillFile(p, s, b) && base == Connect(p, s, b).tree && Inv(p, base)
    requires Inv(p, t) && base.tip in base.height && t.tip in t.height && AdoptedFrom(p, base, t)
    requires Extends(s, t) && s.tip in s.height && t.tip != base.tip && Linked(t) && t.tip in t.blocks
             && BlockHash(p.crypto, b) in Path(t, t.tip)
    ensures OrphanPath(p, s, b, path) && |path| > 1 && path[|path| - 1].header.height > s.height[s.tip]
  {
    hide Inv, Connect, Linked, Path, Extends, WillFile, AdoptedFrom, OrphanPath;
    var h, hs := BlockHash(p.crypto, b), Path(t, t.tip);
    OwnFiling(p, s, b);
    var k :| 0 <= k < |hs| && hs[k] == h;
    path := BlocksAt(t, hs)[k..];
    TipAbove(p, base, t);
    SuffixIsOrphanPath(p, s, b, base, t, k);
    assert path[|path| - 1] == t.blocks[t.tip];
  }

  lemma SuffixIsOrphanPath(p: Params, s: Tree, b: Block, base: Tree, t: Tree, k: nat)
    requires Inv(p, s) && Inv(p, t) && base.tip in base.height && t.tip in t.height && AdoptedFrom(p, base, t)
    requires base.blocks == s.blocks[BlockHash(p.crypto, b) := Filed(p, b)] && base.orphans == s.orphans
    requires BlockHash(p.crypto, b) !in s.blocks && Extends(s, t) && Linked(t) && t.tip in t.blocks
    requires k < |Path(t, t.tip)| && Path(t, t.tip)[k] == BlockHash(p.crypto, b)
    ensures OrphanPath(p, s, b, BlocksAt(t, Path(t, t.tip))[k..])
  {
    hide Inv, ValidSegment, Linked, Path, Extends, AdoptedFrom;
    var h, hs := BlockHash(p.crypto, b), Path(t, t.tip);
    var all := BlocksAt(t, hs);
    var path := all[k..];
    PathIsValid(p, t, t.tip);
    SuffixValid(p, all, k);
    OwnStays(p, s, b, base, t);
    forall i {:trigger path[i]} | 0 < i < |path|
      ensures path[i].hash in s.orphans && Filed(p, s.orphans[path[i].hash]) == path[i]
      ensures path[i].hash !in s.blocks && path[i].hash != path[0].hash
    {
      AboveIsNew(p, s, t, h, k, k + i);
      assert path[i] == t.blocks[hs[k + i]];
      AboveIsOrphan(p, s, b, base, t, hs[k + i]);
    }
  }

  lemma SuffixValid(p: Params, bs: seq<Block>, k: nat)
    requires ValidSegment(p, bs) && k <= |bs|
    ensures ValidSegment(p, bs[k..])
  {
    assert forall i | 0 <= i < |bs[k..]| :: bs[k..][i] == bs[k + i];
  }

  lemma TipAbove(p: Params, base: Tree, t: Tree)
    requires Inv(p, t) && base.tip in base.height && t.tip in t.height && AdoptedFrom(p, base, t)
    ensures t.tip in t.blocks
    ensures t.tip != base.tip ==> t.tip !in base.blocks && t.blocks[t.tip].header.height > base.height[base.tip]
  {
    hide Inv;
    TipHeights(p, t);
    HeaderHeight(p, t, t.tip);
  }

  lemma OwnStays(p: Params, s: Tree, b: Block, base: Tree, t: Tree)
    requires base.tip in base.height && t.tip in t.height && AdoptedFrom(p, base, t)
    requires base.blocks == s.blocks[BlockHash(p.crypto, b) := Filed(p, b)]
    ensures var h := BlockHash(p.crypto, b); h in t.blocks && t.blocks[h] == Filed(p, b)
  {
    ExtendsKeeps(base, t);
  }

  lemma AboveIsOrphan(p: Params, s: Tree, b: Block, base: Tree, t: Tree, x: Hash)
    requires Inv(p, t) && base.tip in base.height && t.tip in t.height && AdoptedFrom(p, base, t)
    requires base.blocks == s.blocks[BlockHash(p.crypto, b) := Filed(p, b)] && base.orphans == s.orphans
    requires x in t.blocks && x !in s.blocks && x != BlockHash(p.crypto, b)
    ensures x in s.orphans && t.blocks[x] == Filed(p, s.orphans[x]) && t.blocks[x].hash == x
  {
    hide Inv;
    HeaderHeight(p, t, x);
  }

  /** On a path through a block new since `s`, what stands above that block is new too. */
  lemma AboveIsNew(p: Params, s: Tree, t: Tree, h: Hash, k: nat, i: nat)
    requires Inv(p, s) && Inv(p, t) && Linked(t) && Extends(s, t) && h !in s.blocks && t.tip in t.blocks
    requires k < i < |Path(t, t.tip)| && Path(t, t.tip)[k] == h
    ensures var x := Path(t, t.tip)[i]; x in t.blocks && x !in s.blocks && x != h
  {
    hide Inv, Path, Linked, Extends;
    InvLinked(p, s);
    var hs := Path(t, t.tip);
    PathPrefix(t, t.tip, i);
    assert hs[..i + 1][k] == h;
    if hs[i] in s.blocks {
      PathFrame(s, t, hs[i]);
    }
    if hs[i] == h {
      PathDistinct(t, t.tip, k, i);
    }
  }

  /** The tip ends elsewhere than the result says if and only if the waiting orphans overtake it. */
  lemma TipReportedIffNotOvertaken(p: Params, s: Tree, b: Block, t: Tree)
    requires Inv(p, s) && Quiescent(s) && AddStep(p, s, b, t)
    ensures t.tip == Connect(p, s, b).res.newTip <==> !Overtakes(p, s, b)
  {
    hide Inv, Connect, Validate, AdoptedFrom, Quiescent;
    if !WillFile(p, s, b) {
      NoFilingNoMove(p, s, b, t);
    } else {
      OwnFiling(p, s, b);
      var base := Connect(p, s, b).tree;
      var n: nat :| Adopts(p, base, t, n);
      AdoptionEffect(p, base, t, n);
      AdoptsKeepsInv(p, base, t, n);
      ExtendsTransitive(s, base, t);
      if Overtakes(p, s, b) {
        var path: seq<Block> :| OrphanPath(p, s, b, path) && |path| > 1
            && path[|path| - 1].header.height > s.height[s.tip];
        PathRises(p, path, |path| - 1);
        PathAdopted(p, s, b, base, t, path, |path| - 1);
        TipAtLeast(p, base, t, path[|path| - 1]);
      } else if t.tip != base.tip {
        AdoptionStaysAboveSubmittedBlock(p, s, b, t);
        InvLinked(p, t);
        var path := OvertakingPath(p, s, b, base, t);
      }
    }
  }

  lemma {:induction false} PathRises(p: Params, path: seq<Block>, i: nat)
    requires ValidSegment(p, path) && i < |path|
    ensures path[i].header.height == path[0].header.height + i
    decreases i
  {
    if i > 0 {
      PathRises(p, path, i - 1);
      ValidatedHeader(p, path[i], path[i - 1], path[i].hash);
    }
  }

  lemma TipAtLeast(p: Params, base: Tree, t: Tree, x: Block)
    requires Inv(p, base) && Inv(p, t) && Extends(base, t) && base.tip in base.height
    requires x.hash in t.blocks && t.blocks[x.hash] == x && x.header.height > base.height[base.tip]
    ensures t.tip != base.tip
  {
    hide Inv;
    TipIsHighest(p, t, x.hash);
    HeaderHeight(p, t, x.hash);
  }

  // ---------- the main chain a call ends with ----------

  lemma OwnStep(p: Params, s: Tree, b: Block, t: Tree)
    requires Inv(p, s) && Quiescent(s) && AddStep(p, s, b, t)
    ensures var r := Connect(p, s, b);
            && Linked(s) && Inv(p, r.tree) && Linked(r.tree) && r.res.newTip == r.tree.tip
            && Inv(p, t) && Linked(t) && Extends(r.tree, t)
            && (!r.res.isNewTip ==> r.tree.tip == s.tip && MainChain(r.tree) == MainChain(s))
  {
    hide Connect;
    var r := Connect(p, s, b);
    ConnectEffect(p, s, b);
    TipRisesByOne(p, s, b);
    MainChainAfterConnect(p, s, b);
    if r.err.None? {
      var n: nat :| Adopts(p, r.tree, t, n);
      AdoptsKeepsInv(p, r.tree, t, n);
    }
  }

  /** When the submitted block became tip, adoption only extends the main chain its own step left; when it was
      filed beside the main chain and the tip moved, the tip stands on it. */
  lemma FinalChain(p: Params, s: Tree, b: Block, t: Tree)
    requires Inv(p, s) && Quiescent(s) && AddStep(p, s, b, t)
    ensures var r := Connect(p, s, b);
            && Linked(s) && Linked(r.tree) && Linked(t)
            && (r.res.isNewTip ==> MainChain(r.tree) <= MainChain(t))
            && (!Overtakes(p, s, b) ==> MainChain(t) == MainChain(r.tree))
            && (Overtakes(p, s, b) ==>
                  b.header.prevHash in s.blocks && BlocksAt(s, Path(s, b.header.prevHash)) <= MainChain(t))
  {
    hide Connect, Inv, Overtakes, Linked, Quiescent, Path, Link, Extends;
    OwnStep(p, s, b, t);
    AdoptionStaysAboveSubmittedBlock(p, s, b, t);
    TipReportedIffNotOvertaken(p, s, b, t);
    ConnectEffect(p, s, b);
    var r, h := Connect(p, s, b), BlockHash(p.crypto, b);
    InvLinked(p, r.tree);
    InvLinked(p, t);
    if r.res.isNewTip {
      ChainThrough(r.tree, t, h);
    }
    if t.tip == r.res.newTip {
      PathFrame(r.tree, t, t.tip);
    }
    if Overtakes(p, s, b) {
      OvertakesFiles(p, s, b);
      OwnFiling(p, s, b);
      ParentChain(p, s, b, t);
    }
  }

  lemma OvertakesFiles(p: Params, s: Tree, b: Block)
    requires Overtakes(p, s, b)
    ensures WillFile(p, s, b) && b.header.prevHash in s.blocks
  {}

  /** A main chain through a block of an earlier tree starts with that block's chain. */
  lemma ChainThrough(s: Tree, t: Tree, h: Hash)
    requires Linked(s) && Linked(t) && Extends(s, t) && h in s.blocks && t.tip in t.blocks && h in Path(t, t.tip)
    ensures BlocksAt(s, Path(s, h)) <= MainChain(t)
  {
    hide Linked, Path, Extends;
    var hs := Path(t, t.tip);
    var i :| 0 <= i < |hs| && hs[i] == h;
    InPath(t, i);
    PathFrame(s, t, h);
    assert BlocksAt(t, hs)[..i + 1] == BlocksAt(t, hs[..i + 1]);
  }

  lemma InPath(t: Tree, i: nat)
    requires Linked(t) && t.tip in t.blocks && i < |Path(t, t.tip)|
    ensures var hs := Path(t, t.tip); hs[i] in t.blocks && hs[..i + 1] == Path(t, hs[i])
  {
    PathPrefix(t, t.tip, i);
  }

  lemma ParentChain(p: Params, s: Tree, b: Block, t: Tree)
    requires Inv(p, s) && WillFile(p, s, b) && Inv(p, t) && Linked(t) && Linked(s) && t.tip in t.blocks
    requires var base := Connect(p, s, b).tree; Inv(p, base) && Extends(base, t)
    requires BlockHash(p.crypto, b) in Path(t, t.tip)
    ensures b.header.prevHash in s.blocks && BlocksAt(s, Path(s, b.header.prevHash)) <= MainChain(t)
  {
    hide Inv, Connect, Validate, Linked, Path, Link;
    var base, h, q := Connect(p, s, b).tree, BlockHash(p.crypto, b), b.header.prevHash;
    OwnFiling(p, s, b);
    InvLinked(p, base);
    ChainThrough(base, t, h);
    NewChild(p, s, b);
    PathFrame(s, base, q);
    ExtendByOne(base, Path(base, q), h);
  }

  lemma NewChild(p: Params, s: Tree, b: Block)
    requires Inv(p, s) && WillFile(p, s, b)
    ensures var base, h := Connect(p, s, b).tree, BlockHash(p.crypto, b);
            Inv(p, base) && Linked(base) && Extends(s, base) && h in base.blocks
            && Path(base, h) == Path(base, b.header.prevHash) + [h]
  {
    hide Inv, Connect, Validate;
    var base, h := Connect(p, s, b).tree, BlockHash(p.crypto, b);
    OwnFiling(p, s, b);
    InvLinked(p, base);
    FiledLink(p, base, h);
    ChildPath(base, h);
  }

  lemma FiledLink(p: Params, t: Tree, h: Hash)
    requires Inv(p, t) && h in t.blocks && t.blocks[h].header.height > 0
    ensures h != t.genesis && Link(t, h)
  {}
}
