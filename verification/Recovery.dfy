/** The store follows the chain, survives a crash between any two disk operations, and a restart
    rebuilds the persisted chain. */
module Recovery {
  import opened Types
  import opened Tree
  import opened Orphans
  import opened ForkChoice
  import opened Disk
  import opened Unreported

  // ---------- mirroring ----------

  /** The directory holds the main chain `bs` at heights 0 up, and the manifest, in memory and on
      disk, gives its height. Files above that height are unconstrained. */
  ghost predicate Mirrors(m: Manifest, d: Disk, bs: seq<Block>) {
    && bs != [] && m.tipHeight == |bs| - 1 && d.manifest == Some(m) && HoldsFrom(d.files, 0, bs)
  }

  /** The manifest names the chain's last block. */
  ghost predicate Named(m: Manifest, bs: seq<Block>) {
    bs != [] && m.tipHash == bs[|bs| - 1].hash
  }

  /** Blocks of a main chain: block i has height `base + i` and carries its own hash. */
  ghost predicate Numbered(p: Params, base: nat, bs: seq<Block>) {
    forall i {:trigger bs[i]} | 0 <= i < |bs| :: bs[i].header.height == base + i && Filed(p, bs[i]) == bs[i]
  }

  lemma MainChainNumbered(p: Params, s: Tree, h: Hash)
    requires Inv(p, s) && h in s.blocks
    ensures Numbered(p, 0, BlocksAt(s, Path(s, h)))
  {
    var hs := Path(s, h);
    forall i | 0 <= i < |hs|
      ensures s.blocks[hs[i]].header.height == i && Filed(p, s.blocks[hs[i]]) == s.blocks[hs[i]]
    {
      PathPrefix(s, h, i);
      HeaderHeight(p, s, hs[i]);
    }
  }

  // ---------- a crash inside one tip change ----------

  lemma {:induction false} AfterRemoves(d: Disk, top: nat, a: nat, i: nat)
    requires a <= top && i <= top - a
    ensures ApplyAll(d, Removes(top, a)[..i]) == d.(files := d.files - (set h | h in d.files && top - i < h <= top))
  {
    hide ApplyAll;
    var rs := Removes(top, a);
    if i > 0 {
      AfterRemoves(d, top, a, i - 1);
      ApplySnoc(d, rs[..i - 1], rs[i - 1]);
      assert rs[..i] == rs[..i - 1] + [rs[i - 1]];
      RemoveOneMore(d, top - i + 1, top);
    } else {
      assert rs[..i] == [];
      NothingApplied(d);
      assert d.files - (set h | h in d.files && top - i < h <= top) == d.files;
    }
  }

  lemma RemoveOneMore(d: Disk, h: nat, top: nat)
    requires 0 < h <= top
    ensures Apply(d.(files := d.files - (set x | x in d.files && h < x <= top)), Remove(h))
            == d.(files := d.files - (set x | x in d.files && h - 1 < x <= top))
  {
    assert (d.files - (set x | x in d.files && h < x <= top)) - {h}
           == d.files - (set x | x in d.files && h - 1 < x <= top);
  }

  lemma NothingApplied(d: Disk)
    ensures ApplyAll(d, []) == d
  {}

  /** `e` is `d` with `bs` written at heights `base` up. */
  ghost predicate Written(d: Disk, base: nat, bs: seq<Block>, e: Disk) {
    && e.manifest == d.manifest
    && (forall h :: h in e.files <==> h in d.files || base <= h < base + |bs|)
    && (forall h | h in e.files :: e.files[h] == if base <= h < base + |bs| then bs[h - base] else d.files[h])
  }

  lemma {:induction false} AfterPuts(p: Params, d: Disk, base: nat, bs: seq<Block>, j: nat)
    requires Numbered(p, base, bs) && j <= |bs|
    ensures Written(d, base, bs[..j], ApplyAll(d, Puts(p, bs)[..j]))
  {
    hide ApplyAll, Written;
    var ps := Puts(p, bs);
    if j > 0 {
      AfterPuts(p, d, base, bs, j - 1);
      ApplySnoc(d, ps[..j - 1], ps[j - 1]);
      assert ps[..j] == ps[..j - 1] + [ps[j - 1]];
      assert bs[..j] == bs[..j - 1] + [bs[j - 1]];
      WriteOneMore(d, base, bs[..j - 1], ApplyAll(d, ps[..j - 1]), bs[j - 1]);
    } else {
      assert ps[..j] == [] && bs[..j] == [];
      NothingApplied(d);
      NothingWritten(d, base);
    }
  }

  lemma NothingWritten(d: Disk, base: nat)
    ensures Written(d, base, [], d)
  {}

  lemma WriteOneMore(d: Disk, base: nat, bs: seq<Block>, e: Disk, b: Block)
    requires Written(d, base, bs, e) && b.header.height == base + |bs|
    ensures Written(d, base, bs + [b], Apply(e, PutBlock(b)))
  {}

  /** What a crash may leave loadable: a chain that keeps the shared segment and is a prefix of the
      old or of the new main chain. */
  ghost predicate SafeLoad(loaded: seq<Block>, shared: seq<Block>, was: seq<Block>, now: seq<Block>) {
    shared <= loaded && (loaded <= was || loaded <= now)
  }

  lemma HoldsPrefix(files: map<nat, Block>, bs: seq<Block>, n: nat)
    requires HoldsFrom(files, 0, bs) && n <= |bs|
    ensures HoldsFrom(files, 0, bs[..n])
  {}

  lemma CrashWhileRemoving(m: Manifest, d: Disk, was: seq<Block>, a: nat, i: nat)
    requires Mirrors(m, d, was) && a < |was| && i <= m.tipHeight - a
    ensures var e := ApplyAll(d, Removes(m.tipHeight, a)[..i]);
            e.manifest == Some(m) && Load(e) == was[..|was| - i]
  {
    AfterRemoves(d, m.tipHeight, a, i);
    var e := ApplyAll(d, Removes(m.tipHeight, a)[..i]);
    HoldsPrefix(d.files, was, |was| - i);
    LoadFromIs(e.files, 0, m.tipHeight, was[..|was| - i]);
  }

  lemma CrashWhileWriting(p: Params, m: Manifest, d: Disk, was: seq<Block>, a: nat, added: seq<Block>, j: nat)
    requires Mirrors(m, d, was) && a < |was| && Numbered(p, a + 1, added) && j <= |added|
    ensures var rs := Removes(m.tipHeight, a);
            var e := ApplyAll(ApplyAll(d, rs), Puts(p, added)[..j]);
            var held := was[..a + 1] + added[..j];
            && e.manifest == Some(m) && HoldsFrom(e.files, 0, held)
            && Load(e) == if |held| <= |was| then held else held[..|was|]
  {
    hide ApplyAll, Written, Numbered;
    var rs := Removes(m.tipHeight, a);
    AfterRemoves(d, m.tipHeight, a, m.tipHeight - a);
    assert rs[..m.tipHeight - a] == rs;
    AfterPuts(p, ApplyAll(d, rs), a + 1, added, j);
    HoldsWritten(m, d, was, a, added[..j], ApplyAll(d, rs), ApplyAll(ApplyAll(d, rs), Puts(p, added)[..j]));
  }

  /** With everything above `a` deleted and `bs` written there instead, loading stops at the old tip's
      height or where the writes stop. */
  lemma HoldsWritten(m: Manifest, d: Disk, was: seq<Block>, a: nat, bs: seq<Block>, mid: Disk, e: Disk)
    requires Mirrors(m, d, was) && a < |was|
    requires mid == d.(files := d.files - (set h | h in d.files && a < h <= m.tipHeight))
    requires Written(mid, a + 1, bs, e)
    ensures var held := was[..a + 1] + bs;
            && e.manifest == Some(m) && HoldsFrom(e.files, 0, held)
            && Load(e) == if |held| <= |was| then held else held[..|was|]
  {
    var held := was[..a + 1] + bs;
    assert HoldsFrom(e.files, 0, held);
    var n := if |held| <= |was| then |held| else |was|;
    HoldsPrefix(e.files, held, n);
    assert held[..|held|] == held;
    LoadFromIs(e.files, 0, m.tipHeight, held[..n]);
  }

  lemma PrefixIsSafe(shared: nat, n: nat, was: seq<Block>, now: seq<Block>)
    requires shared <= n && shared <= |was| && shared <= |now| && was[..shared] == now[..shared]
    ensures n <= |was| ==> SafeLoad(was[..n], was[..shared], was, now)
    ensures n <= |now| ==> SafeLoad(now[..n], was[..shared], was, now)
  {
    if n <= |was| {
      assert was[..n][..shared] == was[..shared];
    }
    if n <= |now| {
      assert now[..n][..shared] == now[..shared];
    }
  }

  lemma SwitchCompletes(p: Params, m: Manifest, d: Disk, was: seq<Block>, a: nat, added: seq<Block>)
    requires Mirrors(m, d, was) && a < |was| && added != [] && Numbered(p, a + 1, added)
    ensures var m' := Switched(m, d.files, a, added);
            var e := ApplyAll(d, SwitchOps(p, m, d.files, a, added)); var now := was[..a + 1] + added;
            Mirrors(m', e, now) && Named(m', now) && Load(e) == now
  {
    hide ApplyAll, Numbered, HoldsFrom, Written, LoadFrom;
    var rs, ps, m' := Removes(m.tipHeight, a), Puts(p, added), Switched(m, d.files, a, added);
    NumberedAt(p, a + 1, added, |added| - 1);
    ApplySnoc(d, rs + ps, PutManifest(m'));
    ApplyAllConcat(d, rs, ps);
    assert ps[..|added|] == ps && added[..|added|] == added;
    CrashWhileWriting(p, m, d, was, a, added, |added|);
    var e, now := ApplyAll(d, SwitchOps(p, m, d.files, a, added)), was[..a + 1] + added;
    LoadFromIs(e.files, 0, m'.tipHeight, now);
  }

  /** Crashing a chain switch after any number of its operations is safe; completing it mirrors and
      names the new chain. */
  lemma SwitchSurvivesCrash(p: Params, m: Manifest, d: Disk, was: seq<Block>, a: nat, added: seq<Block>, k: nat)
    requires Mirrors(m, d, was) && a < |was| && added != [] && Numbered(p, a + 1, added)
    requires k <= |SwitchOps(p, m, d.files, a, added)|
    ensures var ops := SwitchOps(p, m, d.files, a, added);
            var e := ApplyAll(d, ops[..k]); var now := was[..a + 1] + added;
            && SafeLoad(Load(e), was[..a + 1], was, now)
            && (k < |ops| ==> e.manifest == Some(m))
            && (k == |ops| ==>
                  Mirrors(Switched(m, d.files, a, added), e, now) && Named(Switched(m, d.files, a, added), now))
  {
    hide Mirrors, Numbered, Switched, Load, ApplyAll, SafeLoad;
    var rs, ps, ops := Removes(m.tipHeight, a), Puts(p, added), SwitchOps(p, m, d.files, a, added);
    var now := was[..a + 1] + added;
    MirrorLength(m, d, was);
    if k <= |rs| {
      assert ops[..k] == rs[..k];
      CrashWhileRemoving(m, d, was, a, k);
      PrefixIsSafe(a + 1, |was| - k, was, now);
    } else if k < |ops| {
      var j := k - |rs|;
      assert ops[..k] == rs + ps[..j];
      ApplyAllConcat(d, rs, ps[..j]);
      CrashWhileWriting(p, m, d, was, a, added, j);
      var held := was[..a + 1] + added[..j];
      assert held == now[..a + 1 + j];
      assert |held| > |was| ==> held[..|was|] == now[..|was|];
      PrefixIsSafe(a + 1, if |held| <= |was| then |held| else |was|, was, now);
    } else {
      assert ops[..k] == ops;
      SwitchCompletes(p, m, d, was, a, added);
      assert now[..|now|] == now;
      PrefixIsSafe(a + 1, |now|, was, now);
    }
  }

  lemma MirrorLength(m: Manifest, d: Disk, was: seq<Block>)
    requires Mirrors(m, d, was)
    ensures |was| == m.tipHeight + 1
  {}

  function AppendOps(p: Params, m: Manifest, b: Block): seq<DiskOp> {
    [PutBlock(Filed(p, b)), PutManifest(Appended(m, b))]
  }

  function Appended(m: Manifest, b: Block): Manifest {
    m.(tipHeight := b.header.height, tipHash := b.hash)
  }

  lemma AppendSurvivesCrash(p: Params, m: Manifest, d: Disk, was: seq<Block>, b: Block, k: nat)
    requires Mirrors(m, d, was) && Numbered(p, |was|, [b]) && k <= 2
    ensures var e := ApplyAll(d, AppendOps(p, m, b)[..k]); var now := was + [b];
            && Load(e) == (if k < 2 then was else now)
            && (k < 2 ==> e.manifest == Some(m))
            && (k == 2 ==> Mirrors(Appended(m, b), e, now) && Named(Appended(m, b), now))
  {
    hide ApplyAll, HoldsFrom, LoadFrom, Mirrors;
    var ops := AppendOps(p, m, b);
    assert [b][0] == b;
    FileOnTop(m, d, was, b);
    if k == 0 {
      assert ops[..k] == [];
      NothingApplied(d);
    } else if k == 1 {
      ApplySnoc(d, [], ops[0]);
      assert ops[..k] == [] + [ops[0]];
      NothingApplied(d);
    } else {
      ApplyTwo(d, ops[0], ops[1]);
      assert ops[..k] == [ops[0], ops[1]];
      NowMirrors(Appended(m, b), d.files[|was| := b], was + [b]);
    }
  }

  /** A file just above the chain is not read until the manifest says so. */
  lemma FileOnTop(m: Manifest, d: Disk, was: seq<Block>, b: Block)
    requires Mirrors(m, d, was)
    ensures var files := d.files[|was| := b];
            && HoldsFrom(files, 0, was + [b]) && LoadFrom(files, 0, |was|) == was + [b]
            && LoadFrom(files, 0, m.tipHeight) == was == Load(d) && d.manifest == Some(m)
  {
    var files := d.files[|was| := b];
    LoadFromIs(d.files, 0, m.tipHeight, was);
    LoadFromIs(files, 0, m.tipHeight, was);
    LoadFromIs(files, 0, |was|, was + [b]);
  }

  lemma NowMirrors(m: Manifest, files: map<nat, Block>, now: seq<Block>)
    requires now != [] && m.tipHeight == |now| - 1 && HoldsFrom(files, 0, now)
    ensures Mirrors(m, Disk(files, Some(m)), now)
  {}

  // ---------- one submission, persisted ----------

  lemma SliceNumbered(p: Params, bs: seq<Block>, n: nat)
    requires Numbered(p, 0, bs) && n <= |bs|
    ensures Numbered(p, n, bs[n..])
  {
    forall i | 0 <= i < |bs[n..]| ensures bs[n..][i].header.height == n + i && Filed(p, bs[n..][i]) == bs[n..][i] {
      assert bs[n..][i] == bs[n + i];
    }
  }

  /** What persisting a reported tip change amounts to: one append, or one switch at the ancestor. */
  ghost predicate ChangeFollowsChain(p: Params, m: Manifest, d: Disk, was: seq<Block>, now: seq<Block>,
                                     c: Change, a: nat, added: seq<Block>) {
    && a < |was| && added != [] && Numbered(p, a + 1, added) && now == was[..a + 1] + added && c.ok
    && (|| (c.ops == SwitchOps(p, m, d.files, a, added) && c.manifest == Switched(m, d.files, a, added))
        || (a + 1 == |was| && |added| == 1
            && c.ops == AppendOps(p, m, added[0]) && c.manifest == Appended(m, added[0])))
  }

  lemma TipChangeFollowsChain(p: Params, s: Tree, b: Block, held: map<Hash, Block>, m: Manifest, d: Disk)
    returns (a: nat, added: seq<Block>)
    requires Inv(p, s) && Connect(p, s, b).res.isNewTip && Submap(Connect(p, s, b).tree.blocks, held)
    requires Mirrors(m, d, MainChain(s))
    ensures a < |MainChain(s)|
    ensures var r := Connect(p, s, b);
            ChangeFollowsChain(p, m, d, MainChain(s), MainChain(r.tree),
                               TipChange(p, m, d.files, held, r.tree.tip, r.res.reorg), a, added)
  {
    hide Connect, Inv, Linked, Path, Mirrors, TipChange, Numbered;
    var r := Connect(p, s, b);
    ChainsOf(p, s, b);
    var was, now := MainChain(s), MainChain(r.tree);
    MainChainAfterConnect(p, s, b);
    TipRisesByOne(p, s, b);
    MainChainNumbered(p, r.tree, r.tree.tip);
    if r.res.reorg.None? {
      a := |was| - 1;
      added := [r.tree.blocks[r.tree.tip]];
      assert now[|was|..] == added && was[..a + 1] == was;
      SliceNumbered(p, now, |was|);
      NumberedAt(p, |was|, added, 0);
      ExtensionOps(p, m, d, was, held, r.tree.tip, added[0]);
    } else {
      var g := r.res.reorg.value;
      a := s.height[g.commonAncestor];
      added := g.added;
      assert now[a + 1..] == added;
      SliceNumbered(p, now, a + 1);
      AncestorHeld(p, s, b, g.commonAncestor);
      SwitchedOps(p, m, d, held, r.tree.tip, g, a);
    }
  }

  lemma ExtensionOps(p: Params, m: Manifest, d: Disk, was: seq<Block>, held: map<Hash, Block>, tip: Hash, b: Block)
    requires Mirrors(m, d, was) && tip in held && held[tip] == b && b.hash == tip && b.header.height == |was|
    ensures var c := TipChange(p, m, d.files, held, tip, None);
            c.ok && c.ops == AppendOps(p, m, b) && c.manifest == Appended(m, b)
  {}

  lemma SwitchedOps(p: Params, m: Manifest, d: Disk, held: map<Hash, Block>, tip: Hash, g: Reorg, a: nat)
    requires g.commonAncestor in held && held[g.commonAncestor].header.height == a
    ensures var c := TipChange(p, m, d.files, held, tip, Some(g));
            c.ok && c.ops == SwitchOps(p, m, d.files, a, g.added) && c.manifest == Switched(m, d.files, a, g.added)
  {}

  lemma ChainsOf(p: Params, s: Tree, b: Block)
    requires Inv(p, s)
    ensures var t := Connect(p, s, b).tree;
            Linked(s) && Inv(p, t) && Linked(t) && t.tip in t.blocks && t.blocks[t.tip].hash == t.tip
  {
    var t := Connect(p, s, b).tree;
    HeaderHeight(p, t, t.tip);
  }

  lemma AncestorHeld(p: Params, s: Tree, b: Block, x: Hash)
    requires Inv(p, s) && x in s.height
    ensures var t := Connect(p, s, b).tree; x in t.blocks && t.blocks[x].header.height == s.height[x]
  {
    HeaderHeight(p, s, x);
  }

  /** Whatever operation a crash interrupts, what loads back is a prefix of the old or the new main
      chain that keeps their shared segment; uninterrupted, the store mirrors and names the new chain. */
  lemma ChangeSurvivesCrash(p: Params, m: Manifest, d: Disk, was: seq<Block>, now: seq<Block>,
                            c: Change, a: nat, added: seq<Block>, k: nat)
    requires Mirrors(m, d, was) && ChangeFollowsChain(p, m, d, was, now, c, a, added) && k <= |c.ops|
    ensures var e := ApplyAll(d, c.ops[..k]);
            && SafeLoad(Load(e), was[..a + 1], was, now)
            && (k < |c.ops| ==> e.manifest == Some(m))
            && (k == |c.ops| ==> Mirrors(c.manifest, e, now) && Named(c.manifest, now))
  {
    hide Mirrors, Numbered, Named, Switched, Load, ApplyAll, SafeLoad, SwitchOps;
    if c.ops == SwitchOps(p, m, d.files, a, added) && c.manifest == Switched(m, d.files, a, added) {
      SwitchSurvivesCrash(p, m, d, was, a, added, k);
    } else {
      assert added == [added[0]] && was[..a + 1] == was;
      AppendSurvivesCrash(p, m, d, was, added[0], k);
      assert was[..|was|] == was && now[..|now|] == now;
      PrefixIsSafe(|was|, if k < 2 then |was| else |now|, was, now);
    }
  }

  // ---------- when the store follows the chain ----------

  /** No block file above the chain's height. */
  ghost predicate Clean(d: Disk, n: nat) {
    forall h | h in d.files :: h < n
  }

  /** What the node persists after a submission: nothing unless the result reports a new tip; then
      the change is computed from the chain as it stands after adoption. */
  function Persisted(p: Params, m: Manifest, d: Disk, res: AddResult, blocks: map<Hash, Block>, tip: Hash): Change {
    if res.isNewTip then TipChange(p, m, d.files, blocks, tip, res.reorg) else Change([], m, true)
  }

  lemma MirrorsOneChain(m: Manifest, d: Disk, x: seq<Block>, y: seq<Block>)
    requires Mirrors(m, d, x) && Mirrors(m, d, y)
    ensures x == y
  {
    assert forall i | 0 <= i < |x| :: x[i] == d.files[i] == y[i];
  }

  /** The directory already holds the chain `now` at heights from `n` up to just below its tip. */
  ghost predicate HoldsBetween(d: Disk, n: nat, now: seq<Block>) {
    forall h | n <= h < |now| - 1 :: h in d.files && d.files[h] == now[h]
  }

  /** The one way the store can mirror the chain although adoption moved the tip on: the block's own step is reported
      as an extension, so the final tip's file is written, and files left over from before fill the gap. */
  ghost predicate GapFilled(p: Params, s: Tree, b: Block, t: Tree, d: Disk)
    requires Inv(p, s) && Linked(s) && Linked(t)
  {
    var r := Connect(p, s, b).res;
    r.isNewTip && r.reorg.None? && HoldsBetween(d, |MainChain(s)|, MainChain(t))
  }

  /** A store that mirrored the chain before a submission mirrors it afterwards if and only if waiting orphans do
      not overtake the submitted block, or leftover files happen to fill the gap. */
  lemma MirrorsIffNotOvertaken(p: Params, s: Tree, b: Block, t: Tree, m: Manifest, d: Disk)
    requires Inv(p, s) && Quiescent(s) && AddStep(p, s, b, t) && Mirrors(m, d, MainChain(s))
    ensures Inv(p, t) && Linked(s) && Linked(t)
    ensures var c := Persisted(p, m, d, Connect(p, s, b).res, t.blocks, t.tip);
            Mirrors(c.manifest, ApplyAll(d, c.ops), MainChain(t)) <==> !Overtakes(p, s, b) || GapFilled(p, s, b, t, d)
  {
    hide Connect, Inv, AddStep, TipChange, Overtakes, HoldsBetween;
    AddStepKeepsInv(p, s, b, t);
    TipReportedIffNotOvertaken(p, s, b, t);
    var r := Connect(p, s, b);
    var c := Persisted(p, m, d, r.res, t.blocks, t.tip);
    var e := ApplyAll(d, c.ops);
    OwnStep(p, s, b, t);
    TipNames(p, t);
    if !Overtakes(p, s, b) {
      StoreFollows(p, s, b, t, m, d);
    } else if r.res.isNewTip && r.res.reorg.None? {
      MissedExtension(p, s, b, t, m, d);
    } else if Mirrors(c.manifest, e, MainChain(t)) {
      if !r.res.isNewTip {
        MirrorsOneChain(m, d, MainChain(s), MainChain(t));
        TipNames(p, s);
      } else {
        var a, added := TipChangeFollowsChain(p, s, b, t.blocks, m, d);
        SwitchIgnoresTip(p, m, d.files, t.blocks, t.tip, r.tree.tip, r.res.reorg);
        ChangeSurvivesCrash(p, m, d, MainChain(s), MainChain(r.tree), c, a, added, |c.ops|);
        assert c.ops[..|c.ops|] == c.ops;
        MirrorsOneChain(c.manifest, e, MainChain(r.tree), MainChain(t));
        TipNames(p, r.tree);
      }
      assert false;
    }
  }

  /** With no file above the chain there are no leftovers: the store mirrors it if and only if not overtaken. */
  lemma CleanMirrorsIffNotOvertaken(p: Params, s: Tree, b: Block, t: Tree, m: Manifest, d: Disk)
    requires Inv(p, s) && Quiescent(s) && AddStep(p, s, b, t)
    requires Mirrors(m, d, MainChain(s)) && Clean(d, |MainChain(s)|)
    ensures Inv(p, t) && Linked(s) && Linked(t)
    ensures var c := Persisted(p, m, d, Connect(p, s, b).res, t.blocks, t.tip);
            Mirrors(c.manifest, ApplyAll(d, c.ops), MainChain(t)) <==> !Overtakes(p, s, b)
  {
    hide Connect, Inv, AddStep, TipChange, Overtakes, Mirrors;
    MirrorsIffNotOvertaken(p, s, b, t, m, d);
    if Overtakes(p, s, b) {
      OvertakenIsLonger(p, s, b, t);
      assert |MainChain(s)| !in d.files;
    }
  }

  /** An overtaken extension ends at least two blocks above the old tip. */
  lemma OvertakenIsLonger(p: Params, s: Tree, b: Block, t: Tree)
    requires Inv(p, s) && Quiescent(s) && AddStep(p, s, b, t) && Overtakes(p, s, b)
    ensures Linked(s) && Linked(t)
    ensures var r := Connect(p, s, b).res;
            r.isNewTip && r.reorg.None? ==> |MainChain(t)| >= |MainChain(s)| + 2 && MainChain(s) <= MainChain(t)
  {
    hide Connect, Inv, AddStep, Overtakes, Quiescent, Linked, Path;
    FinalChain(p, s, b, t);
    MainChainAfterConnect(p, s, b);
    TipReportedIffNotOvertaken(p, s, b, t);
    var mid := Connect(p, s, b).tree;
    OwnStep(p, s, b, t);
    TipNames(p, mid);
    TipNames(p, t);
  }

  lemma SwitchIgnoresTip(p: Params, m: Manifest, files: map<nat, Block>, blocks: map<Hash, Block>,
                         x: Hash, y: Hash, reorg: Option<Reorg>)
    requires reorg.Some?
    ensures TipChange(p, m, files, blocks, x, reorg) == TipChange(p, m, files, blocks, y, reorg)
  {}

  lemma TipNames(p: Params, s: Tree)
    requires Inv(p, s)
    ensures MainChain(s) != [] && MainChain(s)[|MainChain(s)| - 1].hash == s.tip
  {
    HeaderHeight(p, s, s.tip);
  }

  /** While submissions report their tips, the store follows the chain. */
  lemma StoreFollows(p: Params, s: Tree, b: Block, t: Tree, m: Manifest, d: Disk)
    requires Inv(p, s) && Quiescent(s) && AddStep(p, s, b, t) && Mirrors(m, d, MainChain(s))
    requires t.tip == Connect(p, s, b).res.newTip
    ensures Inv(p, t)
    ensures var r := Connect(p, s, b);
            var c := Persisted(p, m, d, r.res, t.blocks, t.tip); var e := ApplyAll(d, c.ops);
            && Mirrors(c.manifest, e, MainChain(t))
            && (r.res.isNewTip || Named(m, MainChain(s)) ==> Named(c.manifest, MainChain(t)))
            && (Clean(d, |MainChain(s)|) ==> Clean(e, |MainChain(t)|))
  {
    hide Connect, Inv, AddStep, TipChange, Mirrors;
    OwnStep(p, s, b, t);
    var r := Connect(p, s, b);
    PathFrame(r.tree, t, t.tip);
    if r.res.isNewTip {
      var a, added := TipChangeFollowsChain(p, s, b, t.blocks, m, d);
      var c := Persisted(p, m, d, r.res, t.blocks, t.tip);
      ChangeSurvivesCrash(p, m, d, MainChain(s), MainChain(r.tree), c, a, added, |c.ops|);
      assert c.ops[..|c.ops|] == c.ops;
      if Clean(d, |MainChain(s)|) {
        ChangeKeepsClean(p, m, d, MainChain(s), MainChain(r.tree), c, a, added);
      }
    }
  }

  /** A clean directory stays clean under a completed change. */
  lemma ChangeKeepsClean(p: Params, m: Manifest, d: Disk, was: seq<Block>, now: seq<Block>,
                         c: Change, a: nat, added: seq<Block>)
    requires Mirrors(m, d, was) && Clean(d, |was|) && ChangeFollowsChain(p, m, d, was, now, c, a, added)
    ensures Clean(ApplyAll(d, c.ops), |now|)
  {
    hide SwitchOps, Switched, Numbered;
    if c.ops == SwitchOps(p, m, d.files, a, added) {
      SwitchKeepsClean(p, m, d, was, a, added);
    } else {
      AppendKeepsClean(p, m, d, was, added[0]) by {
        NumberedAt(p, a + 1, added, 0);
      }
    }
  }

  lemma NumberedAt(p: Params, base: nat, bs: seq<Block>, i: nat)
    requires Numbered(p, base, bs) && i < |bs|
    ensures bs[i].header.height == base + i && Filed(p, bs[i]) == bs[i]
  {}

  lemma AppendKeepsClean(p: Params, m: Manifest, d: Disk, was: seq<Block>, b: Block)
    requires Clean(d, |was|) && b.header.height == |was|
    ensures Clean(ApplyAll(d, AppendOps(p, m, b)), |was| + 1)
  {
    ApplyTwo(d, AppendOps(p, m, b)[0], AppendOps(p, m, b)[1]);
  }

  lemma SwitchKeepsClean(p: Params, m: Manifest, d: Disk, was: seq<Block>, a: nat, added: seq<Block>)
    requires Mirrors(m, d, was) && Clean(d, |was|) && a < |was| && Numbered(p, a + 1, added)
    ensures Clean(ApplyAll(d, SwitchOps(p, m, d.files, a, added)), a + 1 + |added|)
  {
    hide Switched, HoldsFrom, ApplyAll, Written, Numbered, Clean;
    var rs, ps := Removes(m.tipHeight, a), Puts(p, added);
    AfterRemoves(d, m.tipHeight, a, m.tipHeight - a);
    AfterPuts(p, ApplyAll(d, rs), a + 1, added, |added|);
    assert rs[..m.tipHeight - a] == rs && ps[..|added|] == ps && added[..|added|] == added;
    ApplySnoc(d, rs + ps, PutManifest(Switched(m, d.files, a, added)));
    ApplyAllConcat(d, rs, ps);
    CleanWritten(d, m.tipHeight, a, added, ApplyAll(d, rs), ApplyAll(ApplyAll(d, rs), ps));
    ManifestKeepsClean(ApplyAll(d, rs + ps), PutManifest(Switched(m, d.files, a, added)), a + 1 + |added|);
  }

  lemma CleanWritten(d: Disk, top: nat, a: nat, bs: seq<Block>, mid: Disk, e: Disk)
    requires Clean(d, top + 1) && mid == d.(files := d.files - (set h | h in d.files && a < h <= top))
    requires Written(mid, a + 1, bs, e)
    ensures Clean(e, a + 1 + |bs|)
  {}

  lemma ManifestKeepsClean(d: Disk, op: DiskOp, n: nat)
    requires Clean(d, n) && op.PutManifest?
    ensures Clean(Apply(d, op), n)
  {}

  /** What is persisted when an extension is overtaken: the final tip alone, at least two heights above the old. */
  lemma MissedOps(p: Params, s: Tree, b: Block, t: Tree, m: Manifest, d: Disk)
    requires Inv(p, s) && Quiescent(s) && AddStep(p, s, b, t) && Overtakes(p, s, b) && Mirrors(m, d, MainChain(s))
    requires Connect(p, s, b).res.isNewTip && Connect(p, s, b).res.reorg.None?
    ensures Inv(p, t) && Linked(s) && Linked(t) && t.tip in t.blocks
    ensures var c := Persisted(p, m, d, Connect(p, s, b).res, t.blocks, t.tip);
            var was, now, top := MainChain(s), MainChain(t), t.blocks[t.tip];
            && was <= now && |was| + 2 <= |now| && now[|now| - 1] == top && top.header.height == |now| - 1
            && c.ops == [PutBlock(top), PutManifest(c.manifest)]
            && c.manifest == m.(tipHeight := |now| - 1, tipHash := t.tip)
  {
    hide Connect, Inv, AddStep, Path, Quiescent, Link, Overtakes, Linked, Mirrors, Numbered;
    OwnStep(p, s, b, t);
    OvertakenIsLonger(p, s, b, t);
    TipIsLast(p, t);
    MainChainNumbered(p, t, t.tip);
    NumberedAt(p, 0, MainChain(t), |MainChain(t)| - 1);
    MirrorLength(m, d, MainChain(s));
  }

  lemma MissedExtension(p: Params, s: Tree, b: Block, t: Tree, m: Manifest, d: Disk)
    requires Inv(p, s) && Quiescent(s) && AddStep(p, s, b, t) && Overtakes(p, s, b) && Mirrors(m, d, MainChain(s))
    requires Connect(p, s, b).res.isNewTip && Connect(p, s, b).res.reorg.None?
    ensures Inv(p, t) && Linked(s) && Linked(t)
    ensures var c := Persisted(p, m, d, Connect(p, s, b).res, t.blocks, t.tip);
            Mirrors(c.manifest, ApplyAll(d, c.ops), MainChain(t)) <==> HoldsBetween(d, |MainChain(s)|, MainChain(t))
  {
    hide Connect, Inv, AddStep, Path, Quiescent, Overtakes, Linked, TipChange, Mirrors, HoldsBetween, ApplyAll;
    MissedOps(p, s, b, t, m, d);
    var c := Persisted(p, m, d, Connect(p, s, b).res, t.blocks, t.tip);
    ApplyTwo(d, c.ops[0], c.ops[1]);
    PutAbove(m, d, MainChain(s), t.blocks[t.tip], MainChain(t), c.manifest, ApplyAll(d, c.ops));
  }

  lemma TipIsLast(p: Params, t: Tree)
    requires Inv(p, t)
    ensures Linked(t) && t.tip in t.blocks && MainChain(t) != [] && MainChain(t)[|MainChain(t)| - 1] == t.blocks[t.tip]
  {}

  /** Writing only the last block of a longer chain makes the directory hold that chain if and only if it held the
      blocks in between already. */
  lemma PutAbove(m: Manifest, d: Disk, was: seq<Block>, b: Block, now: seq<Block>, m2: Manifest, e: Disk)
    requires Mirrors(m, d, was) && was <= now && |was| < |now| && now[|now| - 1] == b && b.header.height == |now| - 1
    requires m2.tipHeight == |now| - 1 && e.manifest == Some(m2) && e.files == d.files[|now| - 1 := b]
    ensures Mirrors(m2, e, now) <==> HoldsBetween(d, |was|, now)
  {
    forall h | 0 <= h < |was| ensures h in e.files && e.files[h] == now[h] {
      assert d.files[h] == was[h];
    }
    if Mirrors(m2, e, now) {
      forall h | |was| <= h < |now| - 1 ensures h in d.files && d.files[h] == now[h] {
        assert e.files[h] == now[h];
      }
    }
  }
}
