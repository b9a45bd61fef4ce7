/** Every history at all, submissions overtaken by waiting orphans and blocks that carry another block's hash included,
    as long as no two headers really have the same hash. The store may then stop mirroring the chain, but a restart is
    never refused, and rebuilds exactly the linked beginning of what it loads. */
module Survival {
  import opened Types
  import opened Tree
  import opened Orphans
  import opened ForkChoice
  import opened Confluence
  import opened Disk
  import opened Recovery
  import opened Restart
  import opened History
  import opened Samples
  import opened Unreported
  import Order
  import Store

  /** No two headers in `u` really have the same hash. Blocks that merely carry another block's hash are no matter. */
  ghost predicate NoCollision(p: Params, u: set<Block>) {
    forall a, b | a in u && b in u && HashRight(p, a) && HashRight(p, b) && a.hash == b.hash :: a.header == b.header
  }

  /** A block filed above genesis at its height, as validated against some known block. */
  ghost predicate BlockOk(p: Params, u: set<Block>, b: Block) {
    && b in u && Filed(p, b) == b && b.header.height > 0
    && exists q :: q in u && HashRight(p, q) && Validate(p, b, q, b.hash).None?
  }

  /** The files: genesis `g`, and above it valid blocks each at its own height, linked to one another or not. */
  ghost predicate FilesOk(p: Params, u: set<Block>, g: Block, files: map<nat, Block>) {
    && 0 in files && files[0] == g
    && forall h | h in files && h > 0 :: files[h].header.height == h && BlockOk(p, u, files[h])
  }

  /** A genesis block as filed. */
  ghost predicate RootOk(p: Params, u: set<Block>, g: Block) {
    p.crypto.Valid() && g in u && g.header.height == 0 && Root(p, g) == g
  }

  ghost predicate DiskOk(p: Params, u: set<Block>, g: Block, d: Disk) {
    FilesOk(p, u, g, d.files) && d.manifest.Some? && d.manifest.value.difficulty == p.difficulty
  }

  // ---------- disk operations ----------

  ghost predicate OpOk(p: Params, u: set<Block>, op: DiskOp) {
    match op
    case PutBlock(b) => BlockOk(p, u, b)
    case Remove(h) => h > 0
    case PutManifest(m) => m.difficulty == p.difficulty
  }

  lemma {:induction false} OpsKeepDisk(p: Params, u: set<Block>, g: Block, d: Disk, ops: seq<DiskOp>)
    requires DiskOk(p, u, g, d) && forall op | op in ops :: OpOk(p, u, op)
    ensures DiskOk(p, u, g, ApplyAll(d, ops))
    decreases |ops|
  {
    hide DiskOk, OpOk, Apply;
    if ops != [] {
      OpsKeepDisk(p, u, g, d, ops[..|ops| - 1]);
      OpKeepsDisk(p, u, g, ApplyAll(d, ops[..|ops| - 1]), ops[|ops| - 1]);
    }
  }

  lemma OpKeepsDisk(p: Params, u: set<Block>, g: Block, d: Disk, op: DiskOp)
    requires DiskOk(p, u, g, d) && OpOk(p, u, op)
    ensures DiskOk(p, u, g, Apply(d, op))
  {}

  lemma TreeBlockOk(p: Params, u: set<Block>, t: Tree, h: Hash)
    requires Inv(p, t) && Sourced(p, u, t) && t.genesis in t.blocks && t.blocks[t.genesis] in u
    requires h in t.blocks && t.blocks[h].header.height > 0
    ensures BlockOk(p, u, t.blocks[h])
  {
    hide Validate;
    HeaderHeight(p, t, h);
    assert Earned(p, t, h);
    assert t.blocks[t.parent[h]] in u;
    HeldHashRight(p, t, t.parent[h]);
  }

  /** Whatever a submission persists, from whatever manifest and files, each operation is sound. */
  lemma PersistedOk(p: Params, u: set<Block>, s: Tree, b: Block, t: Tree, m: Manifest, d: Disk)
    requires Inv(p, s) && Inv(p, t) && Extends(Connect(p, s, b).tree, t) && m.difficulty == p.difficulty
    requires Sourced(p, u, t) && t.genesis in t.blocks && t.blocks[t.genesis] in u && t.tip in t.blocks
    requires Connect(p, s, b).res.isNewTip ==> t.blocks[t.tip].header.height > 0
    ensures var c := Persisted(p, m, d, Connect(p, s, b).res, t.blocks, t.tip);
            && c.manifest.difficulty == p.difficulty
            && (forall op | op in c.ops :: OpOk(p, u, op))
            && (c.ops == [] ==> c.manifest == m)
            && (c.ops != [] ==> c.ops[|c.ops| - 1] == PutManifest(c.manifest))
  {
    hide Connect, Inv, BlockOk, Sourced, Extends;
    var r := Connect(p, s, b);
    var c := Persisted(p, m, d, r.res, t.blocks, t.tip);
    if r.res.isNewTip {
      ChangeKeepsDifficulty(p, m, d.files, t.blocks, t.tip, r.res.reorg);
      if r.res.reorg.None? {
        TreeBlockOk(p, u, t, t.tip);
        FiledIs(p, t, t.tip);
      } else if r.res.reorg.value.commonAncestor in t.blocks {
        AddedOk(p, u, s, b, t);
        SwitchOpsOk(p, u, m, d.files, t.blocks[r.res.reorg.value.commonAncestor].header.height,
            r.res.reorg.value.added);
      }
    }
  }

  lemma FiledIs(p: Params, t: Tree, h: Hash)
    requires Inv(p, t) && h in t.blocks
    ensures Filed(p, t.blocks[h]) == t.blocks[h]
  {
    HeaderHeight(p, t, h);
  }

  lemma AddedOk(p: Params, u: set<Block>, s: Tree, b: Block, t: Tree)
    requires Inv(p, s) && Inv(p, t) && Extends(Connect(p, s, b).tree, t) && Connect(p, s, b).res.reorg.Some?
    requires Sourced(p, u, t) && t.genesis in t.blocks && t.blocks[t.genesis] in u
    ensures forall x | x in Connect(p, s, b).res.reorg.value.added :: BlockOk(p, u, x)
  {
    hide Connect, Inv, BlockOk, Sourced, Extends;
    var r := Connect(p, s, b);
    TipRisesByOne(p, s, b);
    BothLinked(p, s, b);
    MainChainAfterConnect(p, s, b);
    var added, now := r.res.reorg.value.added, MainChain(r.tree);
    var k := s.height[r.res.reorg.value.commonAncestor] + 1;
    ChainsOf(p, s, b);
    ExtendsKeeps(r.tree, t);
    forall x | x in added ensures BlockOk(p, u, x) {
      var i :| 0 <= i < |added| && added[i] == x;
      assert now[k + i] == x;
      OnMainChain(p, r.tree, k + i);
      TreeBlockOk(p, u, t, MainPath(r.tree)[k + i]);
    }
  }

  lemma OnMainChain(p: Params, t: Tree, i: nat)
    requires Inv(p, t) && Linked(t) && i < |MainPath(t)|
    ensures var h := MainPath(t)[i]; h in t.blocks && MainChain(t)[i] == t.blocks[h] && t.blocks[h].header.height == i
  {
    PathPrefix(t, t.tip, i);
    HeaderHeight(p, t, MainPath(t)[i]);
  }

  lemma SwitchOpsOk(p: Params, u: set<Block>, m: Manifest, files: map<nat, Block>, a: nat, added: seq<Block>)
    requires m.difficulty == p.difficulty && forall x | x in added :: BlockOk(p, u, x)
    ensures var ops := SwitchOps(p, m, files, a, added);
            && (forall op | op in ops :: OpOk(p, u, op))
            && ops[|ops| - 1] == PutManifest(Switched(m, files, a, added))
  {
    var rs, ps := Removes(m.tipHeight, a), Puts(p, added);
    forall op | op in rs ensures OpOk(p, u, op) {
      var i :| 0 <= i < |rs| && rs[i] == op;
    }
    forall op | op in ps ensures OpOk(p, u, op) {
      var i :| 0 <= i < |ps| && ps[i] == op;
      assert added[i] in added;
    }
  }

  // ---------- restarting ----------

  /** How long the beginning of `bs` is in which every block names the one before as its parent. */
  ghost function LinkedLength(bs: seq<Block>): (n: nat)
    requires bs != []
    ensures 0 < n <= |bs|
    decreases |bs|
  {
    var k := |bs| - 1;
    if k == 0 then 1
    else
      var n := LinkedLength(bs[..k]);
      if n == k && bs[k].header.prevHash == bs[k - 1].hash then k + 1 else n
  }

  /** Loaded blocks: genesis, then sound blocks numbered by height. */
  ghost predicate LoadedOk(p: Params, u: set<Block>, bs: seq<Block>) {
    && bs != [] && RootOk(p, u, bs[0])
    && forall i | 0 < i < |bs| :: bs[i].header.height == i && BlockOk(p, u, bs[i])
  }

  lemma LoadIsOk(p: Params, u: set<Block>, g: Block, d: Disk)
    requires DiskOk(p, u, g, d) && RootOk(p, u, g)
    ensures LoadedOk(p, u, Load(d)) && Load(d)[0] == g
  {
    hide BlockOk, RootOk;
    LoadHolds(d.files, 0, d.manifest.value.tipHeight);
    var bs := Load(d);
    forall i | 0 < i < |bs| ensures bs[i].header.height == i && BlockOk(p, u, bs[i]) {
      assert d.files[i] == bs[i];
    }
  }

  /** The tree after the first `n` loaded blocks: their linked beginning, in full, and the others waiting. */
  ghost predicate Rebuilt(p: Params, bs: seq<Block>, n: nat, t: Tree)
    requires bs != [] && 0 < n <= |bs|
  {
    var k := LinkedLength(bs[..n]);
    && Inv(p, t) && Quiescent(t) && t.genesis == bs[0].hash && t.tip == bs[k - 1].hash
    && (forall i | 0 <= i < k :: Holds(t, bs[i]))
    && (forall h | h in t.blocks :: exists i :: 0 <= i < k && bs[i].hash == h)
    && (k == n ==> t.orphans == map[])
  }

  /** Distinct loaded blocks have distinct hashes, and a loaded block's parent hash is only the hash of the block
      just before it, if of any. */
  lemma LoadedApart(p: Params, u: set<Block>, bs: seq<Block>, i: nat, n: nat)
    requires LoadedOk(p, u, bs) && NoCollision(p, u) && i < n < |bs|
    ensures bs[i].hash != bs[n].hash
    ensures bs[i].hash == bs[n].header.prevHash ==> i == n - 1 && Validate(p, bs[n], bs[i], bs[n].hash).None?
  {
    hide Validate;
    LoadedHashRight(p, u, bs, i);
    LoadedHashRight(p, u, bs, n);
    var q :| q in u && HashRight(p, q) && Validate(p, bs[n], q, bs[n].hash).None?;
    ValidatedHeader(p, bs[n], q, bs[n].hash);
    if bs[i].hash == bs[n].header.prevHash {
      SameHeaderSameVerdict(p, bs[n], q, bs[i], bs[n].hash);
    }
  }

  lemma LoadedHashRight(p: Params, u: set<Block>, bs: seq<Block>, i: nat)
    requires LoadedOk(p, u, bs) && i < |bs|
    ensures bs[i] in u && HashRight(p, bs[i])
  {
    hide Validate;
    if i > 0 {
      var q :| q in u && Validate(p, bs[i], q, bs[i].hash).None?;
      ValidatedHeader(p, bs[i], q, bs[i].hash);
    }
  }

  /** Replaying the next loaded block: it becomes the tip if it is linked, and waits otherwise. It is not refused. */
  lemma RebuildNext(p: Params, u: set<Block>, bs: seq<Block>, n: nat, m: Tree, t: Tree)
    requires LoadedOk(p, u, bs) && NoCollision(p, u) && 0 < n < |bs| && Rebuilt(p, bs, n, m)
             && AddStep(p, m, bs[n], t)
    ensures Connect(p, m, bs[n]).err.None? && Rebuilt(p, bs, n + 1, t)
  {
    hide Inv, Connect, AddStep, Validate, Quiescent, BlockOk, LoadedOk, NoCollision, Rebuilt;
    LoadedBlock(p, u, bs, n);
    NextIsNew(p, u, bs, n, m);
    RebuiltParts(p, bs, n, m);
    if LinkedLength(bs[..n]) == n && bs[n].header.prevHash == bs[n - 1].hash {
      LoadedApart(p, u, bs, n - 1, n);
      LinkedBecomesTip(p, m, bs[n], t);
      RebuiltFurther(p, bs, n, m, t);
    } else {
      UnlinkedWaits(p, m, bs[n], t);
      RebuiltStays(p, bs, n, m, t);
    }
  }

  lemma RebuiltParts(p: Params, bs: seq<Block>, n: nat, m: Tree)
    requires 0 < n <= |bs| && Rebuilt(p, bs, n, m)
    ensures Inv(p, m) && Quiescent(m)
    ensures LinkedLength(bs[..n]) == n ==> m.orphans == map[] && m.tip == bs[n - 1].hash && Holds(m, bs[n - 1])
  {}

  lemma RebuiltFurther(p: Params, bs: seq<Block>, n: nat, m: Tree, t: Tree)
    requires 0 < n < |bs| && Rebuilt(p, bs, n, m) && LinkedLength(bs[..n]) == n
             && bs[n].header.prevHash == bs[n - 1].hash
    requires Inv(p, t) && Quiescent(t) && t.orphans == map[] && t.tip == bs[n].hash && t.genesis == m.genesis
    requires bs[n].hash !in m.blocks && t.blocks == m.blocks[bs[n].hash := bs[n]]
    ensures Rebuilt(p, bs, n + 1, t)
  {
    hide Inv, Quiescent, LinkedLength;
    LinkedNext(bs, n);
    forall h | h in t.blocks ensures exists i :: 0 <= i < n + 1 && bs[i].hash == h {
      if h == bs[n].hash {
        assert bs[n].hash == h;
      }
    }
  }

  lemma LinkedNext(bs: seq<Block>, n: nat)
    requires 0 < n < |bs| && LinkedLength(bs[..n]) == n && bs[n].header.prevHash == bs[n - 1].hash
    ensures LinkedLength(bs[..n + 1]) == n + 1
  {
    assert bs[..n + 1][..n] == bs[..n];
  }

  lemma RebuiltStays(p: Params, bs: seq<Block>, n: nat, m: Tree, t: Tree)
    requires 0 < n < |bs| && Rebuilt(p, bs, n, m)
    requires !(LinkedLength(bs[..n]) == n && bs[n].header.prevHash == bs[n - 1].hash)
    requires Inv(p, t) && Quiescent(t) && t.tip == m.tip && t.blocks == m.blocks && t.genesis == m.genesis
    ensures Rebuilt(p, bs, n + 1, t)
  {
    hide Inv, Quiescent;
    assert bs[..n + 1][..n] == bs[..n];
  }

  lemma LoadedBlock(p: Params, u: set<Block>, bs: seq<Block>, n: nat)
    requires LoadedOk(p, u, bs) && 0 < n < |bs|
    ensures bs[n].header.height == n && Filed(p, bs[n]) == bs[n] && bs[n] in u
  {}

  /** The next block is not held, and its parent only if it is linked to a beginning linked so far. */
  lemma NextIsNew(p: Params, u: set<Block>, bs: seq<Block>, n: nat, m: Tree)
    requires LoadedOk(p, u, bs) && NoCollision(p, u) && 0 < n < |bs| && Rebuilt(p, bs, n, m)
    ensures bs[n].hash !in m.blocks
    ensures bs[n].header.prevHash in m.blocks ==>
              LinkedLength(bs[..n]) == n && bs[n].header.prevHash == bs[n - 1].hash
  {
    hide Inv, Validate, Quiescent, BlockOk, LoadedOk, NoCollision;
    var k := LinkedLength(bs[..n]);
    forall h | h in m.blocks
      ensures h != bs[n].hash && (h == bs[n].header.prevHash ==> k == n && h == bs[n - 1].hash)
    {
      var i :| 0 <= i < k && bs[i].hash == h;
      LoadedApart(p, u, bs, i, n);
    }
  }

  lemma LinkedBecomesTip(p: Params, m: Tree, b: Block, t: Tree)
    requires Inv(p, m) && Quiescent(m) && AddStep(p, m, b, t) && m.orphans == map[] && Filed(p, b) == b
             && b.header.height > 0
    requires b.hash !in m.blocks && m.tip in m.blocks && b.header.prevHash == m.tip
    requires Validate(p, b, m.blocks[m.tip], b.hash).None?
    ensures Connect(p, m, b).err.None? && Inv(p, t) && Quiescent(t) && t.orphans == map[]
    ensures t.tip == b.hash && t.blocks == m.blocks[b.hash := b] && t.genesis == m.genesis
  {
    hide Inv, Connect, AddStep, Validate, Quiescent;
    ChildOfTip(p, m, b, b.hash);
    AddStepKeepsInv(p, m, b, t);
    AddIsConnect(p, m, b, t);
  }

  lemma UnlinkedWaits(p: Params, m: Tree, b: Block, t: Tree)
    requires Inv(p, m) && Quiescent(m) && AddStep(p, m, b, t) && b.header.height > 0 && Filed(p, b) == b
    requires b.hash !in m.blocks && b.header.prevHash !in m.blocks
    ensures Connect(p, m, b).err.None? && Inv(p, t) && Quiescent(t)
    ensures t.tip == m.tip && t.blocks == m.blocks && t.genesis == m.genesis
  {
    AdoptionStaysAboveSubmittedBlock(p, m, b, t);
    AddStepKeepsInv(p, m, b, t);
  }

  lemma RebuildStart(p: Params, u: set<Block>, bs: seq<Block>)
    requires LoadedOk(p, u, bs)
    ensures Rebuilt(p, bs, 1, Fresh(p, bs[0]))
  {
    FreshInv(p, bs[0]);
    Order.FreshIsRoot(p, bs[0]);
  }

  /** Any run over the first loaded blocks rebuilds their linked beginning, and refuses none of them. */
  lemma {:induction false} RunRebuilds(p: Params, u: set<Block>, bs: seq<Block>, n: nat, t: Tree)
    requires LoadedOk(p, u, bs) && NoCollision(p, u) && 0 < n <= |bs| && Run(p, Fresh(p, bs[0]), bs[1..n], t)
    ensures Rebuilt(p, bs, n, t) && Replay(p, Fresh(p, bs[0]), bs[1..n], t)
    decreases n
  {
    hide Inv, Connect, AddStep, Fresh, Rebuilt, LoadedOk, Replay;
    if n == 1 {
      assert bs[1..1] == [];
      RebuildStart(p, u, bs);
      NothingReplayed(p, t);
    } else {
      var before, last := bs[1..n][..n - 2], bs[1..n][n - 2];
      assert before == bs[1..n - 1] && last == bs[n - 1];
      var m: Tree :| Run(p, Fresh(p, bs[0]), before, m) && AddStep(p, m, last, t);
      RunRebuilds(p, u, bs, n - 1, m);
      RebuildNext(p, u, bs, n - 1, m, t);
      ReplaySnoc(p, Fresh(p, bs[0]), before, m, last, t);
      assert before + [last] == bs[1..n];
    }
  }

  /** A rebuilt tree's main chain is the linked beginning. */
  lemma RebuiltChain(p: Params, u: set<Block>, bs: seq<Block>, n: nat, t: Tree)
    requires LoadedOk(p, u, bs) && NoCollision(p, u) && 0 < n <= |bs| && Rebuilt(p, bs, n, t)
    ensures Linked(t) && MainChain(t) == bs[..LinkedLength(bs[..n])]
  {
    hide Inv, BlockOk, Quiescent;
    InvLinked(p, t);
    var k := LinkedLength(bs[..n]);
    assert Holds(t, bs[k - 1]);
    HeaderHeight(p, t, t.tip);
    assert bs[k - 1].header.height == k - 1;
    TipHeight(t);
    forall i | 0 <= i < k ensures MainChain(t)[i] == bs[i] {
      OnMainChain(p, t, i);
      HeaderHeight(p, t, MainPath(t)[i]);
      var j :| 0 <= j < k && bs[j].hash == MainPath(t)[i];
      assert Holds(t, bs[j]);
    }
  }

  lemma TipHeight(t: Tree)
    requires Linked(t)
    ensures t.tip in t.height && |MainChain(t)| == t.height[t.tip] + 1 && |MainPath(t)| == |MainChain(t)|
  {}

  /** A sound directory restarts: no block is refused, and the main chain is the linked beginning of what loads. */
  lemma SoundRestart(p: Params, u: set<Block>, g: Block, d: Disk, z: Node)
    requires DiskOk(p, u, g, d) && RootOk(p, u, g) && NoCollision(p, u) && Restarted(p, d, z)
    ensures Sound(p, u, g, z) && Linked(z.tree) && MainChain(z.tree) == Load(d)[..LinkedLength(Load(d))]
  {
    hide Inv, Quiescent, Replay, Run, Fresh, RootOk, FilesOk, Load, LoadedOk, Rebuilt, Sourced;
    var bs := Load(d);
    LoadIsOk(p, u, g, d);
    ReplayIsRun(p, Fresh(p, bs[0]), bs[1..], z.tree);
    assert bs[1..|bs|] == bs[1..] && bs[..|bs|] == bs;
    RunRebuilds(p, u, bs, |bs|, z.tree);
    RebuiltChain(p, u, bs, |bs|, z.tree);
    RebuiltIsSound(p, u, g, bs, z.tree);
  }

  /** The restarted store mirrors the restarted chain if and only if what it loaded is linked. */
  lemma RestartHealthyIffLinked(p: Params, u: set<Block>, g: Block, d: Disk, z: Node)
    requires DiskOk(p, u, g, d) && RootOk(p, u, g) && NoCollision(p, u) && Restarted(p, d, z)
    ensures Healthy(p, z) <==> LinkedLength(Load(d)) == |Load(d)|
  {
    hide Inv, Quiescent, Replay, Fresh, RootOk, Load, Sourced, Mirrors, BlockOk, LinkedLength;
    var bs := Load(d);
    SoundRestart(p, u, g, d, z);
    LoadMirrored(d);
    assert bs[..|bs|] == bs;
    if Healthy(p, z) {
      MirrorsOneChain(z.mem, z.disk, MainChain(z.tree), bs);
    }
  }

  lemma RebuiltIsSound(p: Params, u: set<Block>, g: Block, bs: seq<Block>, t: Tree)
    requires LoadedOk(p, u, bs) && bs[0] == g && Run(p, Fresh(p, g), bs[1..], t)
    ensures TreeOk(p, u, g, t)
  {
    hide Inv, Quiescent, Run, BlockOk;
    FreshInv(p, g);
    Order.FreshIsRoot(p, g);
    assert Sourced(p, u, Fresh(p, g));
    Order.RunSourced(p, u, Fresh(p, g), bs[1..], t);
    RunKeepsInv(p, Fresh(p, g), bs[1..], t);
    ExtendsKeeps(Fresh(p, g), t);
    assert Delivered(p, bs[1..]) <= u by {
      forall b | b in bs[1..] ensures Filed(p, b) in u {
        var i :| 0 <= i < |bs[1..]| && bs[1..][i] == b;
        assert bs[i + 1] == b && BlockOk(p, u, b);
        BlockOkFiled(p, u, b);
      }
    }
    assert u + Delivered(p, bs[1..]) == u;
  }

  lemma BlockOkFiled(p: Params, u: set<Block>, b: Block)
    requires BlockOk(p, u, b)
    ensures Filed(p, b) == b && b in u
  {}

  /** A sound directory can be restarted. */
  lemma SoundRestarts(p: Params, u: set<Block>, g: Block, d: Disk) returns (z: Node)
    requires DiskOk(p, u, g, d) && RootOk(p, u, g) && NoCollision(p, u)
    ensures Restarted(p, d, z)
  {
    hide Inv, Quiescent, Replay, Run, Fresh, RootOk, FilesOk, Load, LoadedOk, Rebuilt;
    var bs := Load(d);
    LoadIsOk(p, u, g, d);
    RootCrypto(p, u, g);
    LoadedSome(p, u, bs);
    FreshInv(p, bs[0]);
    var t := RunCompletes(p, Fresh(p, bs[0]), bs[1..]);
    assert bs[1..|bs|] == bs[1..];
    RunRebuilds(p, u, bs, |bs|, t);
    var m := Store.Repaired(d.manifest.value, bs);
    z := Node(t, m, d.(manifest := Some(m)));
  }

  lemma RootCrypto(p: Params, u: set<Block>, g: Block)
    requires RootOk(p, u, g)
    ensures p.crypto.Valid() && g.header.height == 0
  {}

  lemma LoadedSome(p: Params, u: set<Block>, bs: seq<Block>)
    requires LoadedOk(p, u, bs)
    ensures bs != []
  {}

  // ---------- every history ----------

  ghost predicate TreeOk(p: Params, u: set<Block>, g: Block, t: Tree) {
    && Inv(p, t) && Quiescent(t) && Sourced(p, u, t)
    && t.genesis in t.blocks && t.blocks[t.genesis] == g
  }

  /** What every node keeps, whether or not its store mirrors its chain. */
  ghost predicate Sound(p: Params, u: set<Block>, g: Block, y: Node) {
    TreeOk(p, u, g, y.tree) && RootOk(p, u, g) && DiskOk(p, u, g, y.disk) && y.disk.manifest == Some(y.mem)
  }

  /** Any step at all keeps a node sound; one that ends in a crash can be completed by a restart. */
  lemma StepKeepsSound(p: Params, u: set<Block>, g: Block, y: Node, b: Block, crash: Option<nat>, t: Tree, z: Node)
    requires Sound(p, u, g, y) && NoCollision(p, u) && Delivered(p, [b]) <= u && AnyStep(p, y, b, crash, t, z)
    ensures Sound(p, u, g, z)
  {
    hide Inv, Connect, AddStep, TipChange, ApplyAll, Restarted, RootOk, DiskOk, TreeOk;
    SubmissionKeepsTree(p, u, g, y, b, t);
    var c := Persisted(p, y.mem, y.disk, Connect(p, y.tree, b).res, t.blocks, t.tip);
    match crash
    case None =>
      OpsKeepDisk(p, u, g, y.disk, c.ops);
      ManifestLast(y.disk, c.ops, y.mem, c.manifest);
    case Some(k) =>
      OpsKeepDisk(p, u, g, y.disk, c.ops[..k]);
      SoundRestart(p, u, g, ApplyAll(y.disk, c.ops[..k]), z);
  }

  lemma ManifestLast(d: Disk, ops: seq<DiskOp>, was: Manifest, now: Manifest)
    requires d.manifest == Some(was) && (ops == [] ==> now == was)
    requires ops != [] ==> ops[|ops| - 1] == PutManifest(now)
    ensures ApplyAll(d, ops).manifest == Some(now)
  {}

  lemma SubmissionKeepsTree(p: Params, u: set<Block>, g: Block, y: Node, b: Block, t: Tree)
    requires Sound(p, u, g, y) && Delivered(p, [b]) <= u && AddStep(p, y.tree, b, t)
    ensures TreeOk(p, u, g, t)
    ensures var c := Persisted(p, y.mem, y.disk, Connect(p, y.tree, b).res, t.blocks, t.tip);
            && (forall op | op in c.ops :: OpOk(p, u, op)) && (c.ops == [] ==> c.manifest == y.mem)
            && (c.ops != [] ==> c.ops[|c.ops| - 1] == PutManifest(c.manifest))
  {
    hide Inv, Connect, AddStep, Quiescent, FilesOk, Persisted, Run, Sourced;
    var s := y.tree;
    AddStepKeepsInv(p, s, b, t);
    OwnStep(p, s, b, t);
    RunNothing(p, s);
    RunSnoc(p, s, [], s, b, t);
    Order.RunSourced(p, u, s, [] + [b], t);
    assert [] + [b] == [b] && u + Delivered(p, [b]) == u;
    ExtendsKeeps(s, t);
    NewTipAboveGenesis(p, s, b, t);
    PersistedOk(p, u, s, b, t, y.mem, y.disk);
  }

  lemma NewTipAboveGenesis(p: Params, s: Tree, b: Block, t: Tree)
    requires Inv(p, s) && Inv(p, t) && Extends(Connect(p, s, b).tree, t)
    ensures t.tip in t.blocks
    ensures Connect(p, s, b).res.isNewTip ==> t.blocks[t.tip].header.height > 0
  {
    hide Inv, Connect;
    var base := Connect(p, s, b).tree;
    TipRisesByOne(p, s, b);
    TipHeights(p, s);
    BothLinked(p, s, b);
    TipHeights(p, base);
    TipHeights(p, t);
    HeaderHeight(p, t, t.tip);
    TipIsHighest(p, t, base.tip);
  }

  /** The events can lead the node from `y` to `z`, overtaken submissions included. */
  ghost predicate LivesOn(p: Params, y: Node, es: seq<Event>, z: Node)
    decreases |es|
  {
    if es == [] then y == z
    else
      var before, last := es[..|es| - 1], es[|es| - 1];
      exists m: Node, t: Tree :: LivesOn(p, y, before, m) && AnyStep(p, m, last.block, last.crash, t, z)
  }

  /** In every history whatever the node stays sound. */
  lemma {:induction false} EveryHistorySound(p: Params, u: set<Block>, g: Block, y: Node, es: seq<Event>, z: Node)
    requires Sound(p, u, g, y) && NoCollision(p, u) && LivesOn(p, y, es, z)
    requires forall e | e in es :: Delivered(p, [e.block]) <= u
    ensures Sound(p, u, g, z)
    decreases |es|
  {
    hide Sound, AnyStep, Delivered;
    if es != [] {
      var before, last := es[..|es| - 1], es[|es| - 1];
      var m: Node, t: Tree :| LivesOn(p, y, before, m) && AnyStep(p, m, last.block, last.crash, t, z);
      EveryHistorySound(p, u, g, y, before, m);
      StepKeepsSound(p, u, g, m, last.block, last.crash, t, z);
    }
  }

  /** After every history, and a crash at any operation of one more submission, the node restarts with no block refused,
      on exactly the linked beginning of what it loads; so loading is linked if and only if all of it is rebuilt. */
  lemma EveryHistoryRestarts(p: Params, u: set<Block>, g: Block, y: Node, es: seq<Event>, m: Node,
                             b: Block, t: Tree, k: nat) returns (z: Node)
    requires Sound(p, u, g, y) && NoCollision(p, u) && LivesOn(p, y, es, m)
    requires (forall e | e in es :: Delivered(p, [e.block]) <= u) && Delivered(p, [b]) <= u && AddStep(p, m.tree, b, t)
    requires k <= |Persisted(p, m.mem, m.disk, Connect(p, m.tree, b).res, t.blocks, t.tip).ops|
    ensures var c := Persisted(p, m.mem, m.disk, Connect(p, m.tree, b).res, t.blocks, t.tip);
            var loaded := Load(ApplyAll(m.disk, c.ops[..k]));
            && AnyStep(p, m, b, Some(k), t, z) && Linked(z.tree) && loaded != []
            && MainChain(z.tree) == loaded[..LinkedLength(loaded)]
            && (ValidSegment(p, loaded) <==> MainChain(z.tree) == loaded)
  {
    hide Inv, Connect, AddStep, TipChange, ApplyAll, Restarted, RootOk, TreeOk, Load, Delivered;
    SubmittedToInv(p, m.tree, b, t);
    EveryHistorySound(p, u, g, y, es, m);
    SubmissionKeepsTree(p, u, g, m, b, t);
    var c := Persisted(p, m.mem, m.disk, Connect(p, m.tree, b).res, t.blocks, t.tip);
    var e := ApplyAll(m.disk, c.ops[..k]);
    OpsKeepDisk(p, u, g, m.disk, c.ops[..k]);
    z := SoundRestarts(p, u, g, e);
    SoundRestart(p, u, g, e, z);
    LoadIsOk(p, u, g, e);
    LinkedIffValid(p, u, Load(e), |Load(e)|);
    assert Load(e)[..|Load(e)|] == Load(e);
  }

  lemma SubmittedToInv(p: Params, s: Tree, b: Block, t: Tree)
    requires AddStep(p, s, b, t)
    ensures Inv(p, s)
  {}

  /** Loaded blocks pass validation link by link exactly as far as they are linked. */
  lemma {:induction false} LinkedIffValid(p: Params, u: set<Block>, bs: seq<Block>, n: nat)
    requires LoadedOk(p, u, bs) && NoCollision(p, u) && 0 < n <= |bs|
    ensures ValidSegment(p, bs[..n]) <==> LinkedLength(bs[..n]) == n
    decreases n
  {
    hide Validate, LoadedOk, NoCollision, ValidSegment;
    if n > 1 {
      assert bs[..n][..n - 1] == bs[..n - 1] && bs[..n] == bs[..n - 1] + [bs[n - 1]];
      LinkedIffValid(p, u, bs, n - 1);
      ValidSnoc(p, bs[..n - 1], bs[n - 1]);
      LoadedApart(p, u, bs, n - 2, n - 1);
      if Validate(p, bs[n - 1], bs[n - 2], bs[n - 1].hash).None? {
        ValidatedHeader(p, bs[n - 1], bs[n - 2], bs[n - 1].hash);
      }
    } else {
      OneIsValid(p, bs[..1]);
    }
  }

  /** A newly started node is sound. */
  lemma FirstStartSound(p: Params, g: Block, u: set<Block>)
    requires p.crypto.Valid() && g.header.height == 0 && Root(p, g) in u
    ensures var s := Fresh(p, g); var m := Manifest(p.difficulty, 0, s.genesis);
            Sound(p, u, Root(p, g), Node(s, m, Disk(map[0 := Root(p, g)], Some(m))))
  {
    FreshInv(p, g);
    Order.FreshIsRoot(p, g);
  }

  // ---------- an unlinked directory ----------

  lemma LivesOnSnoc(p: Params, y: Node, es: seq<Event>, m: Node, e: Event, t: Tree, z: Node)
    requires LivesOn(p, y, es, m) && AnyStep(p, m, e.block, e.crash, t, z)
    ensures LivesOn(p, y, es + [e], z)
  {
    hide AnyStep;
    var all := es + [e];
    assert all[..|all| - 1] == es && all[|all| - 1] == e;
  }

  /** A completed submission that does not become tip leaves the store alone. */
  lemma QuietStep(p: Params, y: Node, b: Block, t: Tree)
    requires Inv(p, y.tree) && AddStep(p, y.tree, b, t) && !Connect(p, y.tree, b).res.isNewTip
    ensures AnyStep(p, y, b, None, t, y.(tree := t))
  {
    hide Connect;
  }

  /** A switch at height 1 of a store that holds another block there. */
  lemma SwitchOverStale(p: Params, g: Block, left: Block, x: Block, y: Block, d: Disk)
    requires d == Disk(map[0 := g, 1 := left], Some(Manifest(p.difficulty, 1, left.hash)))
    requires Filed(p, x) == x && Filed(p, y) == y && x.header.height == 2 && y.header.height == 3
    ensures var e := ApplyAll(d, SwitchOps(p, d.manifest.value, d.files, 1, [x, y])); Load(e) == [g, left, x, y]
  {
    var m := d.manifest.value;
    var now := Switched(m, d.files, 1, [x, y]);
    var ops := SwitchOps(p, m, d.files, 1, [x, y]);
    assert ops == [PutBlock(x)] + [PutBlock(y)] + [PutManifest(now)];
    ApplySnoc(d, [], PutBlock(x));
    assert [] + [PutBlock(x)] == [PutBlock(x)];
    ApplySnoc(d, [PutBlock(x)], PutBlock(y));
    ApplySnoc(d, [PutBlock(x)] + [PutBlock(y)], PutManifest(now));
    var e := ApplyAll(d, ops);
    LoadFromIs(e.files, 0, 3, [g, left, x, y]);
  }

  /** It happens without any crash: the tip moves to another branch unreported, and a later switch within that
      branch is stored above the block of the abandoned one. What loads is not linked: a restart comes back to
      the abandoned block. */
  lemma UnlinkedLoadInstance(zero: Hash, hs: seq<Hash>)
    returns (p: Params, start: Node, es: seq<Event>, z: Node, g: Block, left: Block, right: Block, y2: Block, y3: Block)
    requires |hs| == 6 && Order.Apart(zero, hs)
    ensures Healthy(p, start) && (forall e | e in es :: e.crash.None?) && LivesOn(p, start, es, z) && Linked(z.tree)
    ensures MainChain(z.tree) == [g, right, y2, y3]
    ensures Load(z.disk) == [g, left, y2, y3] && LinkedLength(Load(z.disk)) == 2
  {
    hide Inv, AddStep, Connect, AnyStep, Healthy, Linked, Overtakes, Load, TipChange, Quiescent, LivesOn;
    p := Params(Order.ToyCrypto(zero, hs), 0);
    Order.ToyCryptoValid(zero, hs);
    var gen := Block(Header(0, zero, 0, 0, "genesis", zero), 0, zero, []);
    left := Block(Header(1, hs[0], 1, 0, "a", zero), 1, hs[1], []);
    right := Block(Header(1, hs[0], 1, 0, "b", zero), 2, hs[2], []);
    var x := Block(Header(2, hs[2], 2, 0, "b", zero), 3, hs[3], []);
    y2 := Block(Header(2, hs[2], 2, 0, "c", zero), 4, hs[4], []);
    y3 := Block(Header(3, hs[4], 3, 0, "c", zero), 5, hs[5], []);
    g := Root(p, gen);
    Order.FreshIsRoot(p, gen);
    start := Started(p, gen);
    var a := StoredFirst(p, gen, start, left);
    var b := ParkThenOvertake(p, a, left, right, x);
    z := StaleSwitch(p, g, b, left, right, x, y2, y3);
    es := [Event(left, None)] + [Event(x, None), Event(right, None)] + [Event(y2, None), Event(y3, None)];
    LivesOnConcat(p, start, [Event(left, None)], a, [Event(x, None), Event(right, None)], b);
    LivesOnConcat(p, start, [Event(left, None)] + [Event(x, None), Event(right, None)], b,
                  [Event(y2, None), Event(y3, None)], z);
    LinkBreaks(g, left, y2, y3);
  }

  lemma LinkBreaks(g: Block, left: Block, x: Block, y: Block)
    requires left.header.prevHash == g.hash && x.header.prevHash != left.hash
    ensures LinkedLength([g, left, x, y]) == 2
  {
    assert [g, left, x, y][..3] == [g, left, x] && [g, left, x][..2] == [g, left] && [g, left][..1] == [g];
    assert LinkedLength([g]) == 1 && LinkedLength([g, left]) == 2 && LinkedLength([g, left, x]) == 2;
  }

  lemma {:induction false} LivesOnConcat(p: Params, y: Node, es: seq<Event>, m: Node, fs: seq<Event>, z: Node)
    requires LivesOn(p, y, es, m) && LivesOn(p, m, fs, z)
    ensures LivesOn(p, y, es + fs, z)
    decreases |fs|
  {
    hide AnyStep;
    if fs == [] {
      assert es + fs == es;
    } else {
      var before, last := fs[..|fs| - 1], fs[|fs| - 1];
      var n: Node, t: Tree :| LivesOn(p, m, before, n) && AnyStep(p, n, last.block, last.crash, t, z);
      LivesOnConcat(p, y, es, m, before, n);
      LivesOnSnoc(p, y, es + before, n, last, t, z);
      assert es + fs == (es + before) + [last];
    }
  }

  lemma LivesOnNothing(p: Params, y: Node)
    ensures LivesOn(p, y, [], y)
  {}

  lemma TwoSteps(p: Params, y: Node, b: Block, t: Tree, m: Node, c: Block, u: Tree, z: Node)
    requires AnyStep(p, y, b, None, t, m) && AnyStep(p, m, c, None, u, z)
    ensures LivesOn(p, y, [Event(b, None), Event(c, None)], z)
  {
    hide AnyStep;
    LivesOnNothing(p, y);
    LivesOnSnoc(p, y, [], y, Event(b, None), t, m);
    LivesOnSnoc(p, y, [] + [Event(b, None)], m, Event(c, None), u, z);
    assert [] + [Event(b, None)] + [Event(c, None)] == [Event(b, None), Event(c, None)];
  }

  lemma StoredFirst(p: Params, gen: Block, start: Node, left: Block) returns (a: Node)
    requires p.crypto.Valid() && gen.header.height == 0 && start.tree == Fresh(p, gen)
    requires var m := Manifest(p.difficulty, 0, Root(p, gen).hash);
             start.mem == m && start.disk == Disk(map[0 := Root(p, gen)], Some(m))
    requires Filed(p, left) == left && left.hash != Root(p, gen).hash
             && Validate(p, left, Root(p, gen), left.hash).None?
    ensures LivesOn(p, start, [Event(left, None)], a)
    ensures Inv(p, a.tree) && a.tree.tip == left.hash && a.tree.tip in a.tree.height && a.tree.height[a.tree.tip] == 1
    ensures a.tree.orphans == map[] && a.tree.genesis == Root(p, gen).hash
    ensures a.tree.blocks == map[Root(p, gen).hash := Root(p, gen)][left.hash := left]
    ensures var m := Manifest(p.difficulty, 1, left.hash);
            a.mem == m && a.disk == Disk(map[0 := Root(p, gen), 1 := left], Some(m))
  {
    hide Inv, AddStep, Connect, Validate;
    FreshInv(p, gen);
    Order.FreshIsRoot(p, gen);
    ValidatedHeader(p, left, Root(p, gen), left.hash);
    var t := FileAlone(p, start.tree, left);
    TipRisesByOne(p, start.tree, left);
    ChildOfTip(p, start.tree, left, left.hash);
    var r := Connect(p, start.tree, left);
    var c := Persisted(p, start.mem, start.disk, r.res, t.blocks, t.tip);
    ApplyTwo(start.disk, c.ops[0], c.ops[1]);
    a := Node(t, c.manifest, ApplyAll(start.disk, c.ops));
    LivesOnNothing(p, start);
    LivesOnSnoc(p, start, [], start, Event(left, None), t, a);
    assert [] + [Event(left, None)] == [Event(left, None)];
  }

  lemma ParkThenOvertake(p: Params, a: Node, left: Block, right: Block, x: Block) returns (b: Node)
    requires Inv(p, a.tree) && a.tree.tip == left.hash && a.tree.tip in a.tree.height && a.tree.height[a.tree.tip] == 1
    requires a.tree.orphans == map[] && a.tree.blocks.Keys == {a.tree.genesis, left.hash}
    requires Filed(p, right) == right && Filed(p, x) == x && right.header.height == 1
             && right.header.prevHash == a.tree.genesis
    requires right.hash !in a.tree.blocks && x.hash !in a.tree.blocks && x.hash != right.hash && x.header.height == 2
    requires Validate(p, right, a.tree.blocks[a.tree.genesis], right.hash).None? && Validate(p, x, right, x.hash).None?
    ensures LivesOn(p, a, [Event(x, None), Event(right, None)], b) && b.mem == a.mem && b.disk == a.disk
    ensures Inv(p, b.tree) && b.tree.tip == x.hash && b.tree.tip in b.tree.height && b.tree.height[b.tree.tip] == 2
    ensures b.tree.orphans == map[] && b.tree.genesis == a.tree.genesis
    ensures b.tree.blocks == a.tree.blocks[right.hash := right][x.hash := x]
    ensures Linked(b.tree) && MainChain(b.tree) == [a.tree.blocks[a.tree.genesis], right, x]
  {
    hide Inv, AddStep, Connect, Validate, Overtakes, Linked, AnyStep;
    ValidatedHeader(p, x, right, x.hash);
    Order.NothingWaits(a.tree);
    var s := Order.ParkStep(p, a.tree, x);
    AdoptionStaysAboveSubmittedBlock(p, a.tree, x, s);
    ConnectEffect(p, a.tree, x);
    QuietStep(p, a, x, s);
    var v := OvertakenBy(p, s, left, right, x);
    QuietStep(p, a.(tree := s), right, v);
    b := a.(tree := v);
    TwoSteps(p, a, x, s, a.(tree := s), right, v, b);
  }

  lemma StaleSwitch(p: Params, g: Block, b: Node, left: Block, right: Block, x: Block, y2: Block, y3: Block)
    returns (z: Node)
    requires Inv(p, b.tree) && b.tree.tip == x.hash && b.tree.tip in b.tree.height && b.tree.height[b.tree.tip] == 2
    requires b.tree.orphans == map[] && b.tree.genesis == g.hash && g.hash in b.tree.blocks
             && b.tree.blocks[g.hash] == g
    requires Linked(b.tree) && MainChain(b.tree) == [g, right, x] && right.hash in b.tree.blocks && right.hash != g.hash
    requires b.tree.blocks[right.hash] == right && right.header.prevHash == g.hash
    requires b.mem == Manifest(p.difficulty, 1, left.hash) && b.disk == Disk(map[0 := g, 1 := left], Some(b.mem))
    requires Filed(p, y2) == y2 && Filed(p, y3) == y3 && y2.hash !in b.tree.blocks && y3.hash !in b.tree.blocks
             && y2.hash != y3.hash
    requires Validate(p, y2, right, y2.hash).None? && Validate(p, y3, y2, y3.hash).None?
    requires y2.header.height == 2 && y3.header.height == 3
    ensures LivesOn(p, b, [Event(y2, None), Event(y3, None)], z) && Linked(z.tree)
    ensures MainChain(z.tree) == [g, right, y2, y3] && Load(z.disk) == [g, left, y2, y3]
  {
    hide Inv, AddStep, Connect, Validate, Linked, AnyStep, Load;
    ValidatedHeader(p, y2, right, y2.hash);
    ValidatedHeader(p, y3, y2, y3.hash);
    var t := FileAlone(p, b.tree, y2);
    TipRisesByOne(p, b.tree, y2);
    QuietStep(p, b, y2, t);
    var u := FileAlone(p, t, y3);
    SwitchWithin(p, b.tree, t, u, g, right, x, y2, y3);
    var r := Connect(p, t, y3);
    var c := Persisted(p, b.mem, b.disk, r.res, u.blocks, u.tip);
    assert c.ops == SwitchOps(p, b.mem, b.disk.files, 1, [y2, y3]);
    SwitchOverStale(p, g, left, y2, y3, b.disk);
    z := Node(u, c.manifest, ApplyAll(b.disk, c.ops));
    assert AnyStep(p, b.(tree := t), y3, None, u, z) by { CompletedStep(p, b.(tree := t), y3, u); }
    TwoSteps(p, b, y2, t, b.(tree := t), y3, u, z);
  }

  lemma CompletedStep(p: Params, y: Node, b: Block, t: Tree)
    requires Inv(p, y.tree) && AddStep(p, y.tree, b, t)
    ensures var c := Persisted(p, y.mem, y.disk, Connect(p, y.tree, b).res, t.blocks, t.tip);
            AnyStep(p, y, b, None, t, Node(t, c.manifest, ApplyAll(y.disk, c.ops)))
  {}

  /** The switch within the branch is reported, at the branch's first block. */
  lemma SwitchWithin(p: Params, s: Tree, t: Tree, u: Tree, g: Block, right: Block, x: Block, y2: Block, y3: Block)
    requires Inv(p, s) && Inv(p, t) && Inv(p, u) && Linked(s) && MainChain(s) == [g, right, x] && s.tip == x.hash
    requires t == Connect(p, s, y2).tree && t.tip == s.tip && t.blocks == s.blocks[y2.hash := y2] && t.genesis == g.hash
    requires u == Connect(p, t, y3).tree && u.tip == y3.hash && u.blocks == t.blocks[y3.hash := y3]
             && u.genesis == g.hash
    requires g.hash in s.blocks && s.blocks[g.hash] == g && right.hash in s.blocks && s.blocks[right.hash] == right
    requires right.header.prevHash == g.hash && y2.header.prevHash == right.hash && y3.header.prevHash == y2.hash
    requires y2.hash !in s.blocks && y3.hash !in s.blocks && y2.hash != y3.hash && right.hash != g.hash
             && x.hash != y2.hash
    ensures Linked(u) && MainChain(u) == [g, right, y2, y3]
    ensures var r := Connect(p, t, y3).res;
            && r.isNewTip && r.reorg.Some? && r.reorg.value.added == [y2, y3]
            && r.reorg.value.commonAncestor in u.blocks && u.blocks[r.reorg.value.commonAncestor].header.height == 1
  {
    hide Inv, Connect, Linked;
    InvLinked(p, t);
    InvLinked(p, u);
    MainChainAfterConnect(p, s, y2);
    TipRisesByOne(p, s, y2);
    TipRisesByOne(p, t, y3);
    FourBlockChain(p, u, right.hash, y2.hash, y3.hash);
    MainChainAfterConnect(p, t, y3);
    var r := Connect(p, t, y3).res.reorg.value;
    AncestorHeld(p, t, y3, r.commonAncestor);
    ForkAtRight(p, t, u, y3, right);
    var k := t.height[r.commonAncestor] + 1;
    assert MainChain(u)[2..] == [y2, y3];
  }

  lemma ForkAtRight(p: Params, t: Tree, u: Tree, b: Block, right: Block)
    requires Inv(p, t) && u == Connect(p, t, b).tree && Connect(p, t, b).res.reorg.Some? && Linked(t) && Linked(u)
    requires |MainChain(t)| == 3 && MainChain(t)[1] == right && |MainChain(u)| == 4 && MainChain(u)[1] == right
    ensures var c := Connect(p, t, b).res.reorg.value.commonAncestor; c in t.height && t.height[c] == 1
  {
    hide Inv, Connect, Path, CommonLength;
    ReorgIsReported(p, t, b);
    ChainsOf(p, t, b);
    MainChainAfterConnect(p, t, b);
    TipRisesByOne(p, t, b);
    ReorgSplitsAtDeepestAncestor(p, u, t.tip, u.tip);
    PathFrame(t, u, t.tip);
    OnMainChain(p, t, 1);
    OnMainChain(p, u, 1);
    HeaderHeight(p, t, MainPath(t)[1]);
    HeaderHeight(p, u, MainPath(u)[1]);
    var c := Connect(p, t, b).res.reorg.value.commonAncestor;
    assert MainPath(t)[1] in Path(u, t.tip) && MainPath(u)[1] in Path(u, u.tip);
    AncestorHeld(p, t, b, c);
    HeaderHeight(p, u, c);
  }
}
