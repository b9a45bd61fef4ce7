/** Whole histories of a node: submissions persisted in full, submissions cut short by a crash
    between any two disk operations, and restarts, in any order and number. */
module History {
  import opened Types
  import opened Tree
  import opened Orphans
  import opened ForkChoice
  import opened Disk
  import opened Recovery
  import opened Restart
  import opened Unreported
  import opened Samples
  import Order
  import Store

  datatype Node = Node(tree: Tree, mem: Manifest, disk: Disk)

  ghost predicate Healthy(p: Params, y: Node) {
    && Inv(p, y.tree) && Quiescent(y.tree) && Mirrors(y.mem, y.disk, MainChain(y.tree))
    && y.mem.difficulty == p.difficulty
  }

  /** Open the directory, which is refused if made with another difficulty, load the chain, and replay it into a
      new tree with no block refused. */
  ghost predicate Restarted(p: Params, d: Disk, y: Node) {
    var loaded := Load(d);
    && loaded != [] && d.manifest.Some? && d.manifest.value.difficulty == p.difficulty
    && y.mem == Store.Repaired(d.manifest.value, loaded)
    && y.disk == d.(manifest := Some(y.mem))
    && Replay(p, Fresh(p, loaded[0]), loaded[1..], y.tree)
  }

  /** One submission; with `crash`, the node dies after that many disk operations and restarts. */
  ghost predicate AnyStep(p: Params, y: Node, b: Block, crash: Option<nat>, t: Tree, z: Node) {
    && Inv(p, y.tree) && AddStep(p, y.tree, b, t)
    && var c := Persisted(p, y.mem, y.disk, Connect(p, y.tree, b).res, t.blocks, t.tip);
       match crash
       case None => z == Node(t, c.manifest, ApplyAll(y.disk, c.ops))
       case Some(k) => k <= |c.ops| && Restarted(p, ApplyAll(y.disk, c.ops[..k]), z)
  }

  /** The store keeps up with the submission: waiting orphans do not overtake it, or leftover files fill the gap, or
      the node dies and its store has not skipped a height, because the block's own step was no extension, the
      manifest was not written, or there is no leftover file to load at the first skipped height. */
  ghost predicate KeepsUp(p: Params, y: Node, b: Block, crash: Option<nat>, t: Tree) {
    && Inv(p, y.tree) && Linked(y.tree) && Linked(t)
    && var r := Connect(p, y.tree, b).res;
       || !Overtakes(p, y.tree, b)
       || GapFilled(p, y.tree, b, t, y.disk)
       || (crash.Some? && (!r.isNewTip || r.reorg.Some? || crash.value < 2 || |MainChain(y.tree)| !in y.disk.files))
  }

  /** One submission that the store keeps up with. */
  ghost predicate Step(p: Params, y: Node, b: Block, crash: Option<nat>, t: Tree, z: Node) {
    AnyStep(p, y, b, crash, t, z) && KeepsUp(p, y, b, crash, t)
  }

  lemma {:induction false} LoadHolds(files: map<nat, Block>, k: nat, top: nat)
    ensures var bs := LoadFrom(files, k, top); HoldsFrom(files, k, bs) && (k <= top + 1 ==> k + |bs| <= top + 1)
    decreases top + 1 - k
  {
    if k <= top && k in files {
      LoadHolds(files, k + 1, top);
    }
  }

  lemma LoadMirrored(d: Disk)
    requires d.manifest.Some? && Load(d) != []
    ensures var m := Store.Repaired(d.manifest.value, Load(d)); Mirrors(m, d.(manifest := Some(m)), Load(d))
  {
    LoadHolds(d.files, 0, d.manifest.value.tipHeight);
  }

  /** What the persisted operations leave at a crash, whether or not the tip moved. */
  lemma CrashLoads(p: Params, y: Node, b: Block, t: Tree, k: nat) returns (shared: nat)
    requires Healthy(p, y) && AddStep(p, y.tree, b, t) && KeepsUp(p, y, b, Some(k), t)
    requires k <= |Persisted(p, y.mem, y.disk, Connect(p, y.tree, b).res, t.blocks, t.tip).ops|
    ensures Inv(p, t) && 0 < shared <= |MainChain(y.tree)|
    ensures var ops := Persisted(p, y.mem, y.disk, Connect(p, y.tree, b).res, t.blocks, t.tip).ops;
            var e := ApplyAll(y.disk, ops[..k]); var was := MainChain(y.tree);
            && e.manifest.Some? && e.manifest.value.difficulty == p.difficulty
            && SafeLoad(Load(e), was[..shared], was, MainChain(t))
  {
    hide Connect, Inv, AddStep, TipChange, ApplyAll, Load, Named, Path, ChangeFollowsChain, Overtakes;
    ChangeKeepsDifficulty(p, y.mem, y.disk.files, t.blocks, t.tip, Connect(p, y.tree, b).res.reorg);
    var s := y.tree;
    OwnStep(p, s, b, t);
    FinalChain(p, s, b, t);
    TipReportedIffNotOvertaken(p, s, b, t);
    var r := Connect(p, s, b);
    var was := MainChain(s);
    var c := Persisted(p, y.mem, y.disk, r.res, t.blocks, t.tip);
    if !r.res.isNewTip {
      shared := |was|;
      IdleLoads(y.mem, y.disk, was);
      assert c.ops[..k] == [];
      assert was[..shared] == was;
    } else if r.res.reorg.None? && t.tip != r.tree.tip {
      shared := |was|;
      MissedOps(p, s, b, t, y.mem, y.disk);
      SkippedLoads(y.mem, y.disk, was, t.blocks[t.tip], MainChain(t), c.manifest, k);
      assert was[..shared] == was;
    } else {
      if r.res.reorg.Some? {
        SwitchIgnoresTip(p, y.mem, y.disk.files, t.blocks, t.tip, r.tree.tip, r.res.reorg);
      }
      var a, added := TipChangeFollowsChain(p, s, b, t.blocks, y.mem, y.disk);
      ChangeSurvivesCrash(p, y.mem, y.disk, was, MainChain(r.tree), c, a, added, k);
      shared := a + 1;
    }
  }

  /** Writing only the last block of a longer chain, and then the manifest, interrupted anywhere. */
  lemma SkippedLoads(m: Manifest, d: Disk, was: seq<Block>, b: Block, now: seq<Block>, m2: Manifest, k: nat)
    requires Mirrors(m, d, was) && was <= now && |was| + 2 <= |now| && now[|now| - 1] == b
    requires b.header.height == |now| - 1 && m2.tipHeight == |now| - 1 && m2.difficulty == m.difficulty && k <= 2
    requires k < 2 || |was| !in d.files || HoldsBetween(d, |was|, now)
    ensures var e := ApplyAll(d, [PutBlock(b), PutManifest(m2)][..k]);
            e.manifest.Some? && e.manifest.value.difficulty == m.difficulty && (Load(e) == was || Load(e) == now)
  {
    var ops := [PutBlock(b), PutManifest(m2)];
    if k == 0 {
      assert ops[..0] == [];
      IdleLoads(m, d, was);
    } else if k == 1 {
      assert ops[..1] == [] + [PutBlock(b)];
      ApplySnoc(d, [], PutBlock(b));
      LoadFromIs(d.files[b.header.height := b], 0, m.tipHeight, was);
    } else {
      assert ops[..2] == ops;
      ApplyTwo(d, PutBlock(b), PutManifest(m2));
      var files := d.files[b.header.height := b];
      if |was| !in d.files {
        LoadFromIs(files, 0, m2.tipHeight, was);
      } else {
        PutAbove(m, d, was, b, now, m2, Disk(files, Some(m2)));
        LoadFromIs(files, 0, m2.tipHeight, now);
      }
    }
  }

  lemma ChangeKeepsDifficulty(p: Params, m: Manifest, files: map<nat, Block>, blocks: map<Hash, Block>, tip: Hash,
                              reorg: Option<Reorg>)
    ensures TipChange(p, m, files, blocks, tip, reorg).manifest.difficulty == m.difficulty
  {}

  lemma IdleLoads(m: Manifest, d: Disk, was: seq<Block>)
    requires Mirrors(m, d, was)
    ensures ApplyAll(d, []) == d && Load(d) == was
  {
    LoadFromIs(d.files, 0, m.tipHeight, was);
  }

  /** A restart from a crashed directory rebuilds a healthy node on what was loaded. */
  lemma RestartIsHealthy(p: Params, s: Tree, d: Disk, z: Node)
    requires Inv(p, s) && Restarted(p, d, z) && Load(d) <= MainChain(s)
    ensures Healthy(p, z) && MainChain(z.tree) == Load(d)
    ensures z.tree.tip in s.cumWork && z.tree.cumWork[z.tree.tip] == s.cumWork[z.tree.tip]
  {
    hide Inv, Run, Replay, Mirrors, Fresh;
    InvLinked(p, s);
    var loaded, main := Load(d), MainChain(s);
    ReplayIsRun(p, Fresh(p, loaded[0]), loaded[1..], z.tree);
    LoadMirrored(d);
    assert main[..|loaded|] == loaded && main[1..|loaded|] == loaded[1..];
    ReplayRebuilds(p, s, |loaded|, z.tree);
    PathPrefix(s, s.tip, |loaded| - 1);
  }

  /** One step of a history the store keeps up with: the node stays healthy. A completed step moves it to the chain
      after the submission; a crash moves it to a prefix of the chain before or after it that keeps all they share. */
  lemma StepKeepsHealthy(p: Params, y: Node, b: Block, crash: Option<nat>, t: Tree, z: Node)
    requires Healthy(p, y) && Step(p, y, b, crash, t, z)
    ensures Healthy(p, z) && Inv(p, t)
    ensures crash.None? ==> MainChain(z.tree) == MainChain(t)
    ensures crash.Some? ==>
              exists shared :: 0 < shared <= |MainChain(y.tree)|
                && SafeLoad(MainChain(z.tree), MainChain(y.tree)[..shared], MainChain(y.tree), MainChain(t))
  {
    hide Connect, Inv, AddStep, TipChange, ApplyAll, Load, Mirrors, Quiescent, Restarted, Overtakes, HoldsBetween;
    StepTree(p, y, b, crash, t, z);
    match crash
    case None =>
      CompletedHealthyIff(p, y, b, t, z);
    case Some(k) =>
      var c := Persisted(p, y.mem, y.disk, Connect(p, y.tree, b).res, t.blocks, t.tip);
      var shared := CrashLoads(p, y, b, t, k);
      var e := ApplyAll(y.disk, c.ops[..k]);
      if Load(e) <= MainChain(y.tree) {
        RestartIsHealthy(p, y.tree, e, z);
      } else {
        RestartIsHealthy(p, t, e, z);
      }
  }

  /** A completed submission leaves a healthy node healthy if and only if the store keeps up with it. */
  lemma CompletedHealthyIff(p: Params, y: Node, b: Block, t: Tree, z: Node)
    requires Healthy(p, y) && AnyStep(p, y, b, None, t, z)
    ensures Healthy(p, z) <==> KeepsUp(p, y, b, None, t)
    ensures Inv(p, t) && z.tree == t
  {
    hide Connect, Inv, AddStep, TipChange, ApplyAll, Mirrors, Quiescent, Overtakes, HoldsBetween;
    HealthyParts(p, y);
    AddStepKeepsInv(p, y.tree, b, t);
    MirrorsIffNotOvertaken(p, y.tree, b, t, y.mem, y.disk);
    ChangeKeepsDifficulty(p, y.mem, y.disk.files, t.blocks, t.tip, Connect(p, y.tree, b).res.reorg);
  }

  /** A crash after any number of operations can be followed by a restart: the directory loads, and every
      loaded block is accepted. */
  lemma CrashedNodeRestarts(p: Params, y: Node, b: Block, t: Tree, k: nat) returns (z: Node)
    requires Healthy(p, y) && AddStep(p, y.tree, b, t) && KeepsUp(p, y, b, Some(k), t)
    requires k <= |Persisted(p, y.mem, y.disk, Connect(p, y.tree, b).res, t.blocks, t.tip).ops|
    ensures Step(p, y, b, Some(k), t, z)
  {
    hide Connect, Inv, AddStep, TipChange, ApplyAll, Load, Mirrors, Quiescent, Restarted, Linked, Overtakes;
    HealthyInv(p, y);
    var c := Persisted(p, y.mem, y.disk, Connect(p, y.tree, b).res, t.blocks, t.tip);
    var shared := CrashLoads(p, y, b, t, k);
    var e := ApplyAll(y.disk, c.ops[..k]);
    if Load(e) <= MainChain(y.tree) {
      z := RestartFrom(p, y.tree, e);
    } else {
      InvLinked(p, t);
      z := RestartFrom(p, t, e);
    }
  }

  /** A restart's only disk operation is the manifest repair. Interrupting it before or after the repair, any
      number of times, changes nothing: the next restart ends in the same nodes. */
  lemma InterruptedRestartIsHarmless(p: Params, d: Disk, z: Node)
    requires d.manifest.Some? && Load(d) != []
    ensures var repaired := d.(manifest := Some(Store.Repaired(d.manifest.value, Load(d))));
            Restarted(p, repaired, z) <==> Restarted(p, d, z)
  {
    hide Replay, Fresh, HoldsFrom;
    var m := Store.Repaired(d.manifest.value, Load(d));
    LoadHolds(d.files, 0, d.manifest.value.tipHeight);
    if m != d.manifest.value {
      LoadFromIs(d.files, 0, m.tipHeight, Load(d));
    }
  }

  lemma HealthyInv(p: Params, y: Node)
    requires Healthy(p, y)
    ensures Inv(p, y.tree) && Linked(y.tree)
  {}

  lemma RestartFrom(p: Params, s: Tree, d: Disk) returns (z: Node)
    requires Inv(p, s) && Load(d) != [] && Load(d) <= MainChain(s)
    requires d.manifest.Some? && d.manifest.value.difficulty == p.difficulty
    ensures Restarted(p, d, z)
  {
    hide Inv, Replay, Fresh, Load, Built;
    InvLinked(p, s);
    var loaded := Load(d);
    var t := ReplayExists(p, s, |loaded|);
    assert MainChain(s)[1..|loaded|] == loaded[1..];
    var m := Store.Repaired(d.manifest.value, loaded);
    z := Node(t, m, d.(manifest := Some(m)));
  }

  lemma StepTree(p: Params, y: Node, b: Block, crash: Option<nat>, t: Tree, z: Node)
    requires Healthy(p, y) && Step(p, y, b, crash, t, z)
    ensures Inv(p, t) && Linked(t) && Linked(y.tree) && Quiescent(t)
  {
    hide Connect;
    AddStepKeepsInv(p, y.tree, b, t);
  }

  datatype Event = Event(block: Block, crash: Option<nat>)

  /** The events can lead the node from `y` to `z`. */
  ghost predicate Lives(p: Params, y: Node, es: seq<Event>, z: Node)
    decreases |es|
  {
    if es == [] then y == z
    else
      var before, last := es[..|es| - 1], es[|es| - 1];
      exists m: Node, t: Tree :: Lives(p, y, before, m) && Step(p, m, last.block, last.crash, t, z)
  }

  /** In every history, with any number of crashes at any points, the node is healthy. */
  lemma {:induction false} EveryHistoryHealthy(p: Params, y: Node, es: seq<Event>, z: Node)
    requires Healthy(p, y) && Lives(p, y, es, z)
    ensures Healthy(p, z)
    decreases |es|
  {
    hide Healthy, Step;
    if es != [] {
      var before, last := es[..|es| - 1], es[|es| - 1];
      var m: Node, t: Tree :| Lives(p, y, before, m) && Step(p, m, last.block, last.crash, t, z);
      EveryHistoryHealthy(p, y, before, m);
      StepKeepsHealthy(p, m, last.block, last.crash, t, z);
    }
  }

  /** A newly initialised directory and a new tree make a healthy node. */
  lemma FirstStartHealthy(p: Params, g: Block, files: map<nat, Block>)
    requires p.crypto.Valid() && g.header.height == 0
    ensures var s := Fresh(p, g); var m := Manifest(p.difficulty, 0, s.genesis);
            var d := ApplyAll(Disk(files, None), [PutBlock(Filed(p, s.blocks[s.genesis])), PutManifest(m)]);
            Healthy(p, Node(s, m, d)) && Named(m, MainChain(s))
  {
    var s := Fresh(p, g);
    FreshInv(p, g);
    var m := Manifest(p.difficulty, 0, s.genesis);
    ApplyTwo(Disk(files, None), PutBlock(Filed(p, s.blocks[s.genesis])), PutManifest(m));
  }

  // ---------- a tip the result does not report ----------

  /** Parking a block changes neither the tree nor its main chain, so a healthy node stays healthy. */
  lemma ParkedIsHealthy(p: Params, y: Node, b: Block) returns (t: Tree)
    requires Healthy(p, y) && b.header.height > 0
    requires BlockHash(p.crypto, b) !in y.tree.blocks && b.header.prevHash !in y.tree.blocks
    ensures AddStep(p, y.tree, b, t) && t == y.tree.(orphans := y.tree.orphans[BlockHash(p.crypto, b) := b])
    ensures Healthy(p, y.(tree := t)) && MainChain(t) == MainChain(y.tree)
  {
    hide Inv, Quiescent, Mirrors, AddStep;
    HealthyInv(p, y);
    t := Order.ParkStep(p, y.tree, b);
    AddStepKeepsInv(p, y.tree, b, t);
    InvLinked(p, t);
    PathFrame(y.tree, t, t.tip);
  }

  /** A started node where `x` waits for its parent `q`, both above genesis; delivering `q` moves the tip to `x`. */
  lemma ChildWaits(zero: Hash, hs: seq<Hash>) returns (p: Params, y: Node, q: Block, x: Block, t: Tree)
    requires |hs| == 3 && Order.Apart(zero, hs)
    ensures Healthy(p, y) && |MainChain(y.tree)| == 1 && Clean(y.disk, 1) && Overtakes(p, y.tree, q)
    ensures AddStep(p, y.tree, q, t) && t.tip != Connect(p, y.tree, q).res.newTip && Inv(p, t) && Linked(t)
    ensures q.header.height == 1
    ensures |MainChain(t)| == 3 && MainChain(t)[1] == q
    ensures Connect(p, y.tree, q).res.isNewTip && Connect(p, y.tree, q).res.reorg.None?
  {
    hide Inv, AddStep, Connect, TipChange, Mirrors, Healthy, Linked, AdoptedFrom, Quiescent;
    p := Params(Order.ToyCrypto(zero, hs), 0);
    Order.ToyCryptoValid(zero, hs);
    var g := Block(Header(0, zero, 0, 0, "genesis", zero), 0, zero, []);
    q := Block(Header(1, hs[0], 1, 0, "a", zero), 1, hs[1], []);
    x := Block(Header(2, hs[1], 2, 0, "a", zero), 2, hs[2], []);
    var first := Started(p, g);
    Order.FreshIsRoot(p, g);
    var s := ParkedIsHealthy(p, first, x);
    y := first.(tree := s);
    assert Overtakes(p, s, q) by {
      var path := [q, x];
      assert path[1] == x;
      assert OrphanPath(p, s, q, path) && |path| > 1 && path[|path| - 1].header.height > s.height[s.tip];
    }
    HealthyParts(p, y);
    t := SubmissionCompletes(p, s, q);
    TipReportedIffNotOvertaken(p, s, q, t);
    OnlyChildAdopted(p, s, q, x, t);
  }

  lemma OnlyChildAdopted(p: Params, s: Tree, q: Block, x: Block, t: Tree)
    requires Inv(p, s) && Linked(s) && Quiescent(s) && AddStep(p, s, q, t) && WillFile(p, s, q) && Filed(p, q) == q
    requires s.orphans == map[x.hash := x] && Filed(p, x) == x && x.header.prevHash == q.hash && x.hash != q.hash
    requires q.header.prevHash == s.genesis && s.blocks.Keys == {s.genesis} && q.hash != s.genesis
             && x.hash != s.genesis
    requires q.header.height == 1 && t.tip != Connect(p, s, q).res.newTip && s.tip == s.genesis
    ensures Inv(p, t) && Linked(t) && MainChain(t) == [s.blocks[s.genesis], q, x]
    ensures Connect(p, s, q).res.isNewTip && Connect(p, s, q).res.reorg.None?
  {
    hide Inv, Connect, Linked, AdoptedFrom, Quiescent, Validate;
    OwnFiling(p, s, q);
    var base := Connect(p, s, q).tree;
    var n: nat :| Adopts(p, base, t, n);
    AdoptionEffect(p, base, t, n);
    OnlyOrphanAdopted(p, base, t, x);
    TipRisesByOne(p, s, q);
    MainChainAfterConnect(p, s, q);
    RootIsZero(p, s);
    SameGenesis(p, s, q);
    InvLinked(p, t);
    ThreeBlockChain(p, t, q.hash, x.hash);
  }

  lemma RootIsZero(p: Params, s: Tree)
    requires Inv(p, s)
    ensures Linked(s) && s.genesis in s.height && s.height[s.genesis] == 0 && s.genesis in s.blocks
    ensures s.tip == s.genesis ==> |MainChain(s)| == 1
  {}

  /** It happens: a block waits for its parent, the parent is delivered, the result reports the parent, and the
      store is left with a chain the node no longer has. */
  lemma UnreportedTipInstance(zero: Hash, hs: seq<Hash>) returns (p: Params, y: Node, q: Block, t: Tree)
    requires |hs| == 3 && Order.Apart(zero, hs)
    ensures Healthy(p, y) && Overtakes(p, y.tree, q) && AddStep(p, y.tree, q, t) && Inv(p, t)
    ensures t.tip != Connect(p, y.tree, q).res.newTip
    ensures var c := Persisted(p, y.mem, y.disk, Connect(p, y.tree, q).res, t.blocks, t.tip);
            !Mirrors(c.manifest, ApplyAll(y.disk, c.ops), MainChain(t))
  {
    hide Inv, AddStep, Connect, TipChange, Mirrors, Healthy, Linked, Overtakes;
    var x;
    p, y, q, x, t := ChildWaits(zero, hs);
    HealthyParts(p, y);
    CleanMirrorsIffNotOvertaken(p, y.tree, q, t, y.mem, y.disk);
  }

  /** The exception happens too: with the parent's file left over from an append that was cut short, the same
      submission is overtaken, and the store mirrors the chain all the same. */
  lemma LeftoverFileInstance(zero: Hash, hs: seq<Hash>) returns (p: Params, y: Node, q: Block, t: Tree)
    requires |hs| == 3 && Order.Apart(zero, hs)
    ensures Healthy(p, y) && Overtakes(p, y.tree, q) && AddStep(p, y.tree, q, t) && Inv(p, t)
    ensures y.disk.files.Keys == {0, 1} && y.disk.files[1] == q && y.mem.tipHeight == 0
    ensures var c := Persisted(p, y.mem, y.disk, Connect(p, y.tree, q).res, t.blocks, t.tip);
            Mirrors(c.manifest, ApplyAll(y.disk, c.ops), MainChain(t))
  {
    hide Inv, AddStep, Connect, TipChange, Linked, Overtakes;
    var clean, x;
    p, clean, q, x, t := ChildWaits(zero, hs);
    y := clean.(disk := clean.disk.(files := clean.disk.files[1 := q]));
    MirrorsIffNotOvertaken(p, y.tree, q, t, y.mem, y.disk);
  }

  lemma HealthyParts(p: Params, y: Node)
    requires Healthy(p, y)
    ensures Inv(p, y.tree) && Linked(y.tree) && Quiescent(y.tree) && Mirrors(y.mem, y.disk, MainChain(y.tree))
  {}

  lemma Started(p: Params, g: Block) returns (y: Node)
    requires p.crypto.Valid() && g.header.height == 0
    ensures Healthy(p, y) && y.tree == Fresh(p, g) && Clean(y.disk, 1) && |MainChain(y.tree)| == 1
    ensures var s := Fresh(p, g); var m := Manifest(p.difficulty, 0, s.genesis);
            s.genesis in s.blocks && y.mem == m && y.disk == Disk(map[0 := s.blocks[s.genesis]], Some(m))
  {
    var s, m := Fresh(p, g), Manifest(p.difficulty, 0, Fresh(p, g).genesis);
    var ops := [PutBlock(Filed(p, s.blocks[s.genesis])), PutManifest(m)];
    FirstStartHealthy(p, g, map[]);
    ApplyTwo(Disk(map[], None), ops[0], ops[1]);
    y := Node(s, m, ApplyAll(Disk(map[], None), ops));
  }

  // ---------- the manifest's tip hash ----------

  lemma StaleNameInSwitch(p: Params, m: Manifest, d: Disk, was: seq<Block>, a: nat, added: seq<Block>, k: nat)
    requires Mirrors(m, d, was) && Named(m, was) && a < m.tipHeight && Numbered(p, a + 1, added)
    requires |was| < a + 1 + |added| && k < |SwitchOps(p, m, d.files, a, added)|
    requires added[m.tipHeight - a - 1].hash != was[m.tipHeight].hash
    ensures var e := ApplyAll(d, SwitchOps(p, m, d.files, a, added)[..k]);
            Load(e) != [] && e.manifest == Some(m)
            && |SwitchOps(p, m, d.files, a, added)| == m.tipHeight - a + |added| + 1
            && (Named(Store.Repaired(m, Load(e)), Load(e)) <==> k < 2 * (m.tipHeight - a))
  {
    hide Numbered, ApplyAll, Load, HoldsFrom, Switched;
    var rs, ps, ops := Removes(m.tipHeight, a), Puts(p, added), SwitchOps(p, m, d.files, a, added);
    if k <= |rs| {
      assert ops[..k] == rs[..k];
      CrashWhileRemoving(m, d, was, a, k);
    } else {
      var j := k - |rs|;
      assert ops[..k] == rs + ps[..j];
      ApplyAllConcat(d, rs, ps[..j]);
      CrashWhileWriting(p, m, d, was, a, added, j);
    }
  }

  /** The block a reorganisation puts at the old tip's height is another one. */
  lemma BranchesDifferAtOldTip(p: Params, s: Tree, b: Block)
    requires Inv(p, s) && Connect(p, s, b).res.reorg.Some?
    ensures Linked(s) && Linked(Connect(p, s, b).tree)
    ensures var was, now := MainChain(s), MainChain(Connect(p, s, b).tree);
            |now| == |was| + 1 && now[|was| - 1].hash != was[|was| - 1].hash
  {
    hide Inv, Connect, Path, CommonLength, Link;
    BothLinked(p, s, b);
    var r := Connect(p, s, b);
    var t := r.tree;
    TipRisesByOne(p, s, b);
    ReportIsDifference(p, s, b);
    PathFrame(s, t, s.tip);
    var pa, pb := Path(t, s.tip), Path(t, t.tip);
    var i: nat := |pa| - 1;
    HeaderHeight(p, t, pb[i]);
    HeaderHeight(p, s, s.tip);
    if pb[i] == s.tip {
      PathPrefix(t, t.tip, i);
    }
  }

  lemma ReportIsDifference(p: Params, s: Tree, b: Block)
    requires Inv(p, s) && Connect(p, s, b).res.reorg.Some?
    ensures var t := Connect(p, s, b).tree;
            Inv(p, t) && Linked(t) && s.tip in t.blocks && t.tip in t.blocks
                && Difference(t, s.tip, t.tip).removed != []
  {}

  /** After a crash during a reported chain switch and a restart, the manifest fails to name the loaded tip in
      exactly one window: the new block at the old tip's height is already written and the manifest is not.
      Loading finds nothing missing there and so repairs nothing. */
  lemma StaleNameExactly(p: Params, s: Tree, b: Block, held: map<Hash, Block>, tip: Hash, m: Manifest, d: Disk, k: nat)
    requires Inv(p, s) && Connect(p, s, b).res.reorg.Some? && Submap(Connect(p, s, b).tree.blocks, held)
    requires Mirrors(m, d, MainChain(s)) && Named(m, MainChain(s))
    requires k < |TipChange(p, m, d.files, held, tip, Connect(p, s, b).res.reorg).ops|
    ensures var g := Connect(p, s, b).res.reorg.value;
            var e := ApplyAll(d, TipChange(p, m, d.files, held, tip, Some(g)).ops[..k]);
            Load(e) != [] && e.manifest == Some(m)
            && |TipChange(p, m, d.files, held, tip, Some(g)).ops| == |g.removed| + |g.added| + 1
            && (Named(Store.Repaired(m, Load(e)), Load(e)) <==> k < 2 * |g.removed|)
  {
    hide Connect, Inv, Numbered, ApplyAll, Load, HoldsFrom, SwitchOps;
    var r := Connect(p, s, b);
    ChainsOf(p, s, b);
    BranchesDifferAtOldTip(p, s, b);
    MainChainAfterConnect(p, s, b);
    var was, now, g := MainChain(s), MainChain(r.tree), r.res.reorg.value;
    var a := s.height[g.commonAncestor];
    AncestorHeld(p, s, b, g.commonAncestor);
    MainChainNumbered(p, r.tree, r.tree.tip);
    SliceNumbered(p, now, a + 1);
    assert now[a + 1..] == g.added && now[|was| - 1] == g.added[|was| - a - 2];
    StaleNameInSwitch(p, m, d, was, a, g.added, k);
  }

  /** It happens: a chain switch replaces the only block above genesis; the node dies after the first new block is
      written. What loads is genesis and the new block, and the manifest still names the old one. */
  lemma StaleNameInstance(zero: Hash, hs: seq<Hash>) returns (p: Params, s: Tree, b: Block, m: Manifest, d: Disk)
    requires |hs| == 4 && Order.Apart(zero, hs)
    ensures Inv(p, s) && Linked(s) && Mirrors(m, d, MainChain(s)) && Named(m, MainChain(s))
    ensures var r := Connect(p, s, b);
            && r.res.reorg.Some?
            && var c := TipChange(p, m, d.files, r.tree.blocks, r.tree.tip, r.res.reorg);
               && |c.ops| == 4
               && var e := ApplyAll(d, c.ops[..2]);
                  e.manifest == Some(m) && !Named(Store.Repaired(m, Load(e)), Load(e))
  {
    hide Inv, Connect, Linked, TipChange, ApplyAll, Load;
    var left, right, t;
    p, s, left, right, b, t := SwitchSample(zero, hs, [], []);
    m := Manifest(0, 1, left.hash);
    d := Disk(map[0 := s.blocks[s.genesis], 1 := left], Some(m));
    SwitchHasOps(p, s, b, m, d);
    StaleNameExactly(p, s, b, t.blocks, t.tip, m, d, 0);
    StaleNameExactly(p, s, b, t.blocks, t.tip, m, d, 2);
  }

  lemma SwitchHasOps(p: Params, s: Tree, b: Block, m: Manifest, d: Disk)
    requires Inv(p, s) && Connect(p, s, b).res.reorg.Some?
    ensures var r := Connect(p, s, b); TipChange(p, m, d.files, r.tree.blocks, r.tree.tip, r.res.reorg).ops != []
  {
    hide Connect, Inv;
    TipRisesByOne(p, s, b);
    MainChainAfterConnect(p, s, b);
    AncestorHeld(p, s, b, Connect(p, s, b).res.reorg.value.commonAncestor);
  }
}
