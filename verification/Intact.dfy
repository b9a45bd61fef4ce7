/** When a directory is whole again. A store that once missed a tip may hold files of several branches; what one more
    completed submission makes of it is decided by the file its blocks are written on top of. */
module Intact {
  import opened Types
  import opened Tree
  import opened Orphans
  import opened ForkChoice
  import opened Confluence
  import opened Disk
  import opened Recovery
  import opened History
  import opened Unreported
  import opened Survival

  /** Everything the manifest promises loads, and is linked. */
  ghost predicate Whole(d: Disk) {
    d.manifest.Some? && |Load(d)| == d.manifest.value.tipHeight + 1 && LinkedLength(Load(d)) == |Load(d)|
  }

  /** The file at height `h` is there, and names the one below as its parent. */
  ghost predicate Fits(files: map<nat, Block>, h: nat) {
    h in files && (h > 0 ==> h - 1 in files && files[h].header.prevHash == files[h - 1].hash)
  }

  /** So do all files up to height `a`. */
  ghost predicate LinkedTo(files: map<nat, Block>, a: nat) {
    forall h: nat | h <= a :: Fits(files, h)
  }

  /** They are linked up to a block with hash `x` at height `a`. */
  ghost predicate StandsOn(files: map<nat, Block>, a: nat, x: Hash) {
    LinkedTo(files, a) && Fits(files, a) && files[a].hash == x
  }

  lemma {:induction false} LoadStops(files: map<nat, Block>, k: nat, top: nat)
    ensures var n := k + |LoadFrom(files, k, top)|; n <= top ==> n !in files
    decreases top + 1 - k
  {
    if k <= top && k in files {
      LoadStops(files, k + 1, top);
    }
  }

  lemma {:induction false} LinkedLengthIs(bs: seq<Block>)
    requires bs != []
    ensures LinkedLength(bs) == |bs| <==> forall i | 0 < i < |bs| :: bs[i].header.prevHash == bs[i - 1].hash
    decreases |bs|
  {
    var k := |bs| - 1;
    if k > 0 {
      LinkedLengthIs(bs[..k]);
      assert forall i | 0 <= i < k :: bs[..k][i] == bs[i];
    }
  }

  lemma WholeIffLinked(d: Disk)
    requires d.manifest.Some?
    ensures Whole(d) <==> LinkedTo(d.files, d.manifest.value.tipHeight)
  {
    var top, bs := d.manifest.value.tipHeight, Load(d);
    LoadHolds(d.files, 0, top);
    LoadStops(d.files, 0, top);
    if |bs| <= top {
      assert !Fits(d.files, |bs|);
    }
    if |bs| == top + 1 {
      LinkedLengthIs(bs);
      forall i | 0 <= i < |bs| ensures bs[i] == d.files[i] && i in d.files {}
      if LinkedTo(d.files, top) {
        forall i | 0 < i < |bs| ensures bs[i].header.prevHash == bs[i - 1].hash {
          assert Fits(d.files, i);
        }
      }
    }
  }

  /** Blocks linked to one another. */
  ghost predicate Chained(bs: seq<Block>) {
    forall i {:trigger bs[i]} | 0 < i < |bs| :: bs[i].header.prevHash == bs[i - 1].hash
  }

  /** `e` keeps the files of `d` up to height `a` and holds `added` above, up to the manifest's height. */
  ghost predicate WrittenAbove(d: Disk, a: nat, added: seq<Block>, e: Disk) {
    && e.manifest.Some? && e.manifest.value.tipHeight == a + |added| && added != []
    && (forall h: nat | h <= a :: (h in e.files <==> h in d.files) && (h in d.files ==> e.files[h] == d.files[h]))
    && (forall h | a < h <= a + |added| :: h in e.files && e.files[h] == added[h - a - 1])
  }

  /** Writing linked blocks makes the directory whole if and only if what they are written on is linked up to their
      parent. */
  lemma WholeIffStandsOn(d: Disk, a: nat, added: seq<Block>, e: Disk)
    requires WrittenAbove(d, a, added, e) && Chained(added)
    ensures Whole(e) <==> StandsOn(d.files, a, added[0].header.prevHash)
  {
    WholeIffLinked(e);
    var top := a + |added|;
    assert e.files[a + 1] == added[0];
    if LinkedTo(e.files, top) {
      assert Fits(e.files, a + 1);
      forall h: nat | h <= a ensures Fits(d.files, h) {
        assert Fits(e.files, h);
      }
    }
    if StandsOn(d.files, a, added[0].header.prevHash) {
      forall h: nat | h <= top ensures Fits(e.files, h) {
        if h > a + 1 {
          assert added[h - a - 1].header.prevHash == added[h - a - 2].hash;
        } else {
          assert Fits(d.files, if h <= a then h else a);
        }
      }
    }
  }

  // ---------- what a completed submission writes ----------

  lemma SwitchWrites(p: Params, m: Manifest, d: Disk, a: nat, added: seq<Block>)
    requires Numbered(p, a + 1, added) && added != []
    ensures WrittenAbove(d, a, added, ApplyAll(d, SwitchOps(p, m, d.files, a, added)))
  {
    hide ApplyAll, Numbered, Written, WrittenAbove, Removes, Puts;
    var rs, ps, now := Removes(m.tipHeight, a), Puts(p, added), Switched(m, d.files, a, added);
    var mid := ApplyAll(d, rs);
    ApplySnoc(d, rs + ps, PutManifest(now));
    ApplyAllConcat(d, rs, ps);
    AfterAllRemoves(d, m.tipHeight, a);
    AfterAllPuts(p, mid, a + 1, added);
    NumberedAt(p, a + 1, added, |added| - 1);
    AboveIsWritten(d, a, added, mid, ApplyAll(mid, ps), now);
  }

  lemma AfterAllRemoves(d: Disk, top: nat, a: nat)
    ensures forall h: nat | h <= a ::
              var e := ApplyAll(d, Removes(top, a));
              (h in e.files <==> h in d.files) && (h in d.files ==> e.files[h] == d.files[h])
  {
    hide ApplyAll;
    if a <= top {
      AfterRemoves(d, top, a, top - a);
      assert Removes(top, a)[..top - a] == Removes(top, a);
    } else {
      NothingApplied(d);
    }
  }

  lemma AfterAllPuts(p: Params, d: Disk, base: nat, bs: seq<Block>)
    requires Numbered(p, base, bs)
    ensures Written(d, base, bs, ApplyAll(d, Puts(p, bs)))
  {
    hide ApplyAll, Written, Numbered;
    AfterPuts(p, d, base, bs, |bs|);
    assert Puts(p, bs)[..|bs|] == Puts(p, bs) && bs[..|bs|] == bs;
  }

  lemma AboveIsWritten(d: Disk, a: nat, added: seq<Block>, mid: Disk, e: Disk, m: Manifest)
    requires added != [] && m.tipHeight == a + |added| && Written(mid, a + 1, added, e)
    requires forall h: nat | h <= a ::
               (h in mid.files <==> h in d.files) && (h in d.files ==> mid.files[h] == d.files[h])
    ensures WrittenAbove(d, a, added, Apply(e, PutManifest(m)))
  {}

  /** The submission is reported as a new tip and changes the directory. */
  ghost predicate Writes(p: Params, s: Tree, b: Block, t: Tree, m: Manifest)
    requires Inv(p, s)
  {
    var r := Connect(p, s, b).res;
    r.isNewTip && (r.reorg.Some? || (t.tip in t.blocks && t.blocks[t.tip].header.height > m.tipHeight))
  }

  /** The block on top of which the submission's blocks are written: the reported ancestor, or the final tip's
      parent. */
  ghost function Foot(p: Params, s: Tree, b: Block, t: Tree): Hash
    requires Inv(p, s) && Linked(t)
  {
    var r := Connect(p, s, b).res.reorg;
    if r.Some? then r.value.commonAncestor else t.blocks[t.tip].header.prevHash
  }

  /** A chain's blocks above height `a`. */
  lemma ChainAbove(p: Params, t: Tree, a: nat)
    requires Inv(p, t) && Linked(t) && a + 1 < |MainPath(t)|
    ensures var added := MainChain(t)[a + 1..]; var x := MainPath(t)[a];
            && added != [] && Numbered(p, a + 1, added) && Chained(added) && added[0].header.prevHash == x
            && x in t.height && t.height[x] == a && added[|added| - 1].hash == t.tip
  {
    hide Inv, Link, Linked, Path, Numbered;
    var main := MainChain(t);
    var added := main[a + 1..];
    MainChainNumbered(p, t, t.tip);
    SliceNumbered(p, main, a + 1);
    OnMainChain(p, t, a);
    HeaderHeight(p, t, MainPath(t)[a]);
    InTree(p, t, MainPath(t)[a]);
    NextNames(p, t, a + 1);
    forall i {:trigger added[i]} | 0 < i < |added| ensures added[i].header.prevHash == added[i - 1].hash {
      NextNames(p, t, a + 1 + i);
      assert added[i] == main[a + 1 + i] && added[i - 1] == main[a + i];
    }
    TipNames(p, t);
  }

  lemma NextNames(p: Params, t: Tree, i: nat)
    requires Inv(p, t) && Linked(t) && 0 < i < |MainPath(t)|
    ensures var main := MainChain(t);
            main[i].header.prevHash == main[i - 1].hash == MainPath(t)[i - 1]
  {
    hide Inv, Link, Linked, Path;
    OnMainChain(p, t, i - 1);
    OnMainChain(p, t, i);
    HeaderHeight(p, t, MainPath(t)[i - 1]);
    StepNames(t, i);
  }

  lemma StepNames(t: Tree, i: nat)
    requires Linked(t) && 0 < i < |MainPath(t)|
    ensures var h := MainPath(t)[i]; h in t.blocks && t.blocks[h].header.prevHash == MainPath(t)[i - 1]
  {
    hide Link, Path;
    PathStep(t, t.tip, i);
    LinkNames(t, MainPath(t)[i]);
  }

  lemma LinkNames(t: Tree, h: Hash)
    requires Link(t, h)
    ensures t.blocks[h].header.prevHash == t.parent[h]
  {}

  /** What is written, on top of what. */
  lemma WritesAbove(p: Params, s: Tree, b: Block, t: Tree, m: Manifest, d: Disk) returns (a: nat, added: seq<Block>)
    requires Inv(p, s) && Quiescent(s) && AddStep(p, s, b, t) && Linked(t) && Writes(p, s, b, t, m)
    ensures var c := Persisted(p, m, d, Connect(p, s, b).res, t.blocks, t.tip); var x := Foot(p, s, b, t);
            && WrittenAbove(d, a, added, ApplyAll(d, c.ops)) && Chained(added)
            && x in t.height && t.height[x] == a && added[0].header.prevHash == x
            && c.manifest.tipHash in t.blocks && added[|added| - 1] == t.blocks[c.manifest.tipHash]
  {
    hide Inv, Connect, AddStep, Linked, ApplyAll, Numbered, WrittenAbove, TipChange, SwitchOps;
    OwnStep(p, s, b, t);
    var r := Connect(p, s, b);
    if r.res.reorg.Some? {
      a, added := SwitchAbove(p, s, b, m, d);
      SwitchWrites(p, m, d, a, added);
      GrownSwitch(p, s, b, t, m, d, a);
      HeldLater(r.tree, t, Foot(p, s, b, t));
      HeldLater(r.tree, t, r.tree.tip);
    } else {
      var n := TipAboveGenesis(p, s, b, t);
      a, added := n, [t.blocks[t.tip]];
      AppendWrites(p, t, m, d, n);
    }
  }

  lemma HeldLater(s: Tree, t: Tree, h: Hash)
    requires Extends(s, t)
    ensures h in s.blocks ==> h in t.blocks && t.blocks[h] == s.blocks[h]
    ensures h in s.height ==> h in t.height && t.height[h] == s.height[h]
  {}

  lemma SwitchAbove(p: Params, s: Tree, b: Block, m: Manifest, d: Disk) returns (a: nat, added: seq<Block>)
    requires Inv(p, s) && Connect(p, s, b).res.reorg.Some?
    ensures var r := Connect(p, s, b); var g := r.res.reorg.value;
            && added == g.added && added != [] && Numbered(p, a + 1, added) && Chained(added)
            && g.commonAncestor in r.tree.height && r.tree.height[g.commonAncestor] == a
            && g.commonAncestor in r.tree.blocks && r.tree.blocks[g.commonAncestor].header.height == a
            && added[0].header.prevHash == g.commonAncestor
            && r.tree.tip in r.tree.blocks && added[|added| - 1] == r.tree.blocks[r.tree.tip]
            && r.tree.blocks[r.tree.tip].hash == r.tree.tip
  {
    hide Inv, Connect, Link, Path, CommonLength;
    var r := Connect(p, s, b);
    ChainsOf(p, s, b);
    MainChainAfterConnect(p, s, b);
    TipRisesByOne(p, s, b);
    var g := r.res.reorg.value;
    a := s.height[g.commonAncestor];
    added := g.added;
    assert MainChain(r.tree)[a + 1..] == added;
    ChainAbove(p, r.tree, a);
    ReorgIsReported(p, s, b);
    AncestorHeld(p, s, b, g.commonAncestor);
    AncestorOnNew(p, s, b);
    TipIsLast(p, r.tree);
    HeldLater(s, r.tree, g.commonAncestor);
  }

  /** The reported ancestor is the new main chain's block at its height. */
  lemma AncestorOnNew(p: Params, s: Tree, b: Block)
    requires Inv(p, s) && Connect(p, s, b).res.reorg.Some?
    ensures var r := Connect(p, s, b); var x := r.res.reorg.value.commonAncestor;
            && Linked(r.tree) && x in s.height && s.height[x] < |MainPath(r.tree)|
            && MainPath(r.tree)[s.height[x]] == x
  {
    hide Inv, Connect, Link, CommonLength;
    ReorgIsReported(p, s, b);
    var r := Connect(p, s, b);
    var x := r.res.reorg.value.commonAncestor;
    TipRisesByOne(p, s, b);
    MainChainAfterConnect(p, s, b);
    ReorgSplitsAtDeepestAncestor(p, r.tree, s.tip, r.tree.tip);
    var hs := MainPath(r.tree);
    var i :| 0 <= i < |hs| && hs[i] == x;
    PathPrefix(r.tree, r.tree.tip, i);
    HeightStays(p, s, b, x);
  }

  lemma HeightStays(p: Params, s: Tree, b: Block, x: Hash)
    requires Inv(p, s) && x in s.height
    ensures x in Connect(p, s, b).tree.height && Connect(p, s, b).tree.height[x] == s.height[x]
  {}

  lemma GrownSwitch(p: Params, s: Tree, b: Block, t: Tree, m: Manifest, d: Disk, a: nat)
    requires Inv(p, s) && Connect(p, s, b).res.isNewTip && Connect(p, s, b).res.reorg.Some?
    requires Extends(Connect(p, s, b).tree, t)
    requires var r := Connect(p, s, b); var g := r.res.reorg.value;
             && g.commonAncestor in r.tree.blocks && r.tree.blocks[g.commonAncestor].header.height == a
             && g.added != [] && g.added[|g.added| - 1].hash == r.tree.tip
    ensures var r := Connect(p, s, b); var g := r.res.reorg.value;
            var c := Persisted(p, m, d, r.res, t.blocks, t.tip);
            c.ops == SwitchOps(p, m, d.files, a, g.added) && c.manifest.tipHash == r.tree.tip
  {
    hide Inv, Connect, SwitchOps;
    HeldLater(Connect(p, s, b).tree, t, Connect(p, s, b).res.reorg.value.commonAncestor);
  }

  /** The height below the final tip. */
  lemma TipAboveGenesis(p: Params, s: Tree, b: Block, t: Tree) returns (n: nat)
    requires Inv(p, s) && Quiescent(s) && AddStep(p, s, b, t) && Connect(p, s, b).res.isNewTip
    ensures Inv(p, t) && Linked(t) && n + 2 == |MainPath(t)|
  {
    hide Connect, Inv, Path;
    OwnStep(p, s, b, t);
    NewTipAboveGenesis(p, s, b, t);
    HeaderHeight(p, t, t.tip);
    n := |MainPath(t)| - 2;
  }

  lemma AppendWrites(p: Params, t: Tree, m: Manifest, d: Disk, n: nat)
    requires Inv(p, t) && Linked(t) && t.tip in t.blocks && n + 2 == |MainPath(t)|
    requires t.blocks[t.tip].header.height > m.tipHeight
    ensures var c := TipChange(p, m, d.files, t.blocks, t.tip, None); var b := t.blocks[t.tip];
            var x := b.header.prevHash;
            && WrittenAbove(d, n, [b], ApplyAll(d, c.ops)) && c.manifest.tipHash == t.tip
            && x in t.height && t.height[x] == n
  {
    hide Inv, Link, Path;
    ChainAbove(p, t, n);
    TipIsLast(p, t);
    var b := t.blocks[t.tip];
    var added := MainChain(t)[n + 1..];
    assert added == [b];
    NumberedAt(p, n + 1, added, 0);
    var c := TipChange(p, m, d.files, t.blocks, t.tip, None);
    ApplyTwo(d, c.ops[0], c.ops[1]);
  }

  /** After a completed submission the directory is whole if and only if its blocks were written on files linked up to
      their parent; and if it wrote nothing, if and only if it was whole before. Nothing is asked of the directory. */
  lemma WholeAfterIff(p: Params, y: Node, b: Block, t: Tree, z: Node)
    requires Quiescent(y.tree) && AnyStep(p, y, b, None, t, z) && y.disk.manifest == Some(y.mem)
    ensures Linked(t) && (Writes(p, y.tree, b, t, y.mem) ==> Foot(p, y.tree, b, t) in t.height)
    ensures Whole(z.disk) <==>
              if Writes(p, y.tree, b, t, y.mem)
              then StandsOn(y.disk.files, t.height[Foot(p, y.tree, b, t)], Foot(p, y.tree, b, t))
              else Whole(y.disk)
  {
    hide Inv, Connect, AddStep, WrittenAbove, ApplyAll, Whole, StandsOn, Quiescent, Linked;
    OwnStep(p, y.tree, b, t);
    if Writes(p, y.tree, b, t, y.mem) {
      var a, added := WritesAbove(p, y.tree, b, t, y.mem, y.disk);
      WholeIffStandsOn(y.disk, a, added, z.disk);
    } else {
      TipHeights(p, t);
      NothingApplied(y.disk);
    }
  }

  // ---------- what a whole directory holds ----------

  ghost function HashesOf(bs: seq<Block>): seq<Hash> {
    seq(|bs|, i requires 0 <= i < |bs| => bs[i].hash)
  }

  lemma FileHashRight(p: Params, u: set<Block>, g: Block, d: Disk, h: nat)
    requires DiskOk(p, u, g, d) && RootOk(p, u, g) && h in d.files
    ensures d.files[h] in u && HashRight(p, d.files[h])
  {
    hide Validate;
    if h > 0 {
      assert BlockOk(p, u, d.files[h]);
      var q :| q in u && Validate(p, d.files[h], q, d.files[h].hash).None?;
      ValidatedHeader(p, d.files[h], q, d.files[h].hash);
    }
  }

  /** A file and a held block under one hash have one header. */
  lemma FileIsHeld(p: Params, u: set<Block>, g: Block, d: Disk, t: Tree, h: nat)
    requires DiskOk(p, u, g, d) && RootOk(p, u, g) && NoCollision(p, u) && TreeOk(p, u, g, t) && h in d.files
    requires d.files[h].hash in t.blocks
    ensures d.files[h].header == t.blocks[d.files[h].hash].header
  {
    hide Inv, Quiescent, DiskOk;
    var x := d.files[h].hash;
    FileHashRight(p, u, g, d, h);
    HeldHashRight(p, t, x);
    HeaderHeight(p, t, x);
  }

  lemma FileParent(p: Params, u: set<Block>, g: Block, d: Disk, t: Tree, x: Hash, h: nat)
    requires DiskOk(p, u, g, d) && RootOk(p, u, g) && NoCollision(p, u) && TreeOk(p, u, g, t)
    requires Linked(t) && x in t.blocks && 0 < h <= t.height[x] && h in d.files && d.files[h].hash == Path(t, x)[h]
    ensures d.files[h].header.prevHash == Path(t, x)[h - 1]
  {
    hide Inv, Quiescent, DiskOk, RootOk, Sourced;
    PathStep(t, x, h);
    LinkNames(t, Path(t, x)[h]);
    FileIsHeld(p, u, g, d, t, h);
  }

  /** Files linked up to a held block are its path, hash by hash. */
  lemma {:induction false} LinkedIsPath(p: Params, u: set<Block>, g: Block, d: Disk, t: Tree, x: Hash, h: nat)
    requires DiskOk(p, u, g, d) && RootOk(p, u, g) && NoCollision(p, u) && TreeOk(p, u, g, t)
    requires Linked(t) && x in t.blocks && h <= t.height[x] && StandsOn(d.files, t.height[x], x)
    ensures h in d.files && d.files[h].hash == Path(t, x)[h]
    decreases t.height[x] - h
  {
    hide Inv, Path, DiskOk, RootOk, NoCollision, TreeOk;
    if h < t.height[x] {
      LinkedIsPath(p, u, g, d, t, x, h + 1);
      FileParent(p, u, g, d, t, x, h + 1);
      assert Fits(d.files, h + 1);
    }
  }

  lemma PathIsLinked(p: Params, u: set<Block>, g: Block, d: Disk, t: Tree, x: Hash)
    requires DiskOk(p, u, g, d) && RootOk(p, u, g) && NoCollision(p, u) && TreeOk(p, u, g, t)
    requires Linked(t) && x in t.blocks
    requires forall h: nat | h <= t.height[x] :: h in d.files && d.files[h].hash == Path(t, x)[h]
    ensures StandsOn(d.files, t.height[x], x)
  {
    hide Inv, Path, DiskOk, RootOk, NoCollision, TreeOk;
    forall h: nat | h <= t.height[x] ensures Fits(d.files, h) {
      if h > 0 {
        FileParent(p, u, g, d, t, x, h);
      }
    }
  }

  /** A directory whose manifest gives a held block's height, with that block's hash in the file there, is whole if
      and only if it loads that block's path, hash by hash. */
  lemma WholeIffPath(p: Params, u: set<Block>, g: Block, d: Disk, t: Tree, x: Hash)
    requires DiskOk(p, u, g, d) && RootOk(p, u, g) && NoCollision(p, u) && TreeOk(p, u, g, t)
    requires Linked(t) && x in t.blocks && d.manifest.Some? && d.manifest.value.tipHeight == t.height[x]
    requires t.height[x] in d.files && d.files[t.height[x]].hash == x
    ensures Whole(d) <==> HashesOf(Load(d)) == Path(t, x)
  {
    hide Inv, Path, DiskOk, RootOk, NoCollision, TreeOk, Whole, Load, LinkedTo, Link;
    var top, bs := t.height[x], Load(d);
    WholeIffLinked(d);
    LoadedHashes(d, top);
    if Whole(d) {
      assert Fits(d.files, top) by { LinkedFits(d.files, top); }
      forall h: nat | h <= top ensures h in d.files && d.files[h].hash == Path(t, x)[h] {
        LinkedIsPath(p, u, g, d, t, x, h);
      }
      assert |Path(t, x)| == top + 1 == |bs| by { WholeLength(d); }
    }
    if HashesOf(bs) == Path(t, x) {
      forall h: nat | h <= top ensures h in d.files && d.files[h].hash == Path(t, x)[h] {
        assert HashesOf(bs)[h] == bs[h].hash;
      }
      PathIsLinked(p, u, g, d, t, x);
    }
  }

  lemma LinkedFits(files: map<nat, Block>, a: nat)
    requires LinkedTo(files, a)
    ensures Fits(files, a)
  {}

  lemma WholeLength(d: Disk)
    requires Whole(d)
    ensures d.manifest.Some? && |Load(d)| == d.manifest.value.tipHeight + 1
  {}

  lemma LoadedHashes(d: Disk, top: nat)
    requires d.manifest.Some? && d.manifest.value.tipHeight == top
    ensures |HashesOf(Load(d))| == |Load(d)| <= top + 1
    ensures forall h: nat {:trigger Load(d)[h]} | h < |Load(d)| :: h in d.files && Load(d)[h] == d.files[h]
    ensures forall h: nat {:trigger HashesOf(Load(d))[h]} | h < |Load(d)| ::
              h in d.files && HashesOf(Load(d))[h] == d.files[h].hash
  {
    LoadHolds(d.files, 0, top);
    forall h: nat | h < |Load(d)| ensures h in d.files && Load(d)[h] == d.files[h] {}
  }

  /** A sound node's completed submission that writes leaves a whole directory if and only if what loads then is, hash
      by hash, the chain the submission reported. */
  lemma WholeIffReportedChain(p: Params, u: set<Block>, g: Block, y: Node, b: Block, t: Tree, z: Node)
    requires Sound(p, u, g, y) && NoCollision(p, u) && Delivered(p, [b]) <= u && AnyStep(p, y, b, None, t, z)
    requires Writes(p, y.tree, b, t, y.mem)
    ensures Linked(t) && z.mem.tipHash in t.blocks
    ensures Whole(z.disk) <==> HashesOf(Load(z.disk)) == Path(t, z.mem.tipHash)
  {
    hide Inv, Connect, AddStep, WrittenAbove, ApplyAll, Whole, Quiescent, Linked, DiskOk, RootOk, NoCollision, Path;
    hide Sourced, Writes, TipChange;
    StepKeepsSound(p, u, g, y, b, None, t, z);
    OwnStep(p, y.tree, b, t);
    var a, added := WritesAbove(p, y.tree, b, t, y.mem, y.disk);
    var x := z.mem.tipHash;
    FilesNumbered(p, u, g, z.disk);
    TopFile(p, t, y.disk, a, added, z.disk, x);
    WholeIffPath(p, u, g, z.disk, t, x);
  }

  lemma FilesNumbered(p: Params, u: set<Block>, g: Block, d: Disk)
    requires DiskOk(p, u, g, d)
    ensures forall h | h in d.files && h > 0 :: d.files[h].header.height == h
  {}

  lemma TopFile(p: Params, t: Tree, d: Disk, a: nat, added: seq<Block>, e: Disk, x: Hash)
    requires Inv(p, t) && x in t.blocks && WrittenAbove(d, a, added, e) && added[|added| - 1] == t.blocks[x]
    requires forall h | h in e.files && h > 0 :: e.files[h].header.height == h
    ensures x in t.height && e.manifest.Some? && e.manifest.value.tipHeight == t.height[x]
    ensures t.height[x] in e.files && e.files[t.height[x]].hash == x
  {
    hide Inv;
    HeaderHeight(p, t, x);
    InTree(p, t, x);
    assert e.files[a + |added|] == t.blocks[x];
  }
}
