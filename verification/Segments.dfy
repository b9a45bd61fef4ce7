/** What delivering a segment of an honest peer's main chain does to a tree: from any tree that shares genesis with the
    peer, whatever branch it is on and whatever waits, the segment is added, waiting blocks that stand on it follow,
    and the tip moves exactly if one of them rises above it. */
module Segments {
  import opened Types
  import opened Tree
  import opened Orphans
  import opened ForkChoice
  import opened Confluence
  import opened Unreported
  import opened Locator

  /** The blocks at heights lo to hi of a main chain. */
  ghost function Segment(t: Tree, lo: nat, hi: nat): set<Block>
    requires Linked(t) && hi < |MainPath(t)|
  {
    set i | lo <= i <= hi :: MainChain(t)[i]
  }

  lemma MainBlock(p: Params, t: Tree, i: nat)
    requires Inv(p, t) && i < |MainPath(t)|
    ensures var b := MainChain(t)[i]; var h := MainPath(t)[i];
            && h in t.blocks && b == t.blocks[h] && b.hash == h && b.header.height == i && Filed(p, b) == b
            && h != p.crypto.zero
            && (i > 0 ==> b.header.prevHash == MainPath(t)[i - 1] && h != t.genesis
                          && Validate(p, b, MainChain(t)[i - 1], h).None?)
            && (i == 0 ==> h == t.genesis)
  {
    PathPrefix(t, t.tip, i);
    HeaderHeight(p, t, MainPath(t)[i]);
    if i > 0 {
      PathStep(t, t.tip, i);
      assert Earned(p, t, MainPath(t)[i]);
    }
  }

  lemma InPrefix(hs: seq<Hash>, hi: nat, i: nat)
    requires i <= hi < |hs|
    ensures hs[i] in hs[..hi + 1]
  {
    assert hs[..hi + 1][i] == hs[i];
  }

  lemma IndexInPrefix(hs: seq<Hash>, hi: nat, h: Hash) returns (i: nat)
    requires hi < |hs| && h in hs[..hi + 1]
    ensures i <= hi && hs[i] == h
  {
    i :| 0 <= i <= hi && hs[..hi + 1][i] == h;
  }

  /** The tree `s` shares genesis with the peer's tree `t`, no orphan waits for a block it holds, and in the two trees
      a hash that a header really has identifies it. */
  ghost predicate Shares(p: Params, t: Tree, s: Tree) {
    && Inv(p, s) && Quiescent(s) && Consistent(s, t)
    && forall h | h in s.orphans && h in t.blocks && HashRight(p, Filed(p, s.orphans[h])) ::
         s.orphans[h].header == t.blocks[h].header
  }

  lemma SharesParts(p: Params, t: Tree, s: Tree)
    requires Shares(p, t, s) && Linked(t)
    ensures Inv(p, s) && Linked(s) && Quiescent(s) && s.genesis == t.genesis && Consistent(s, t)
    ensures s.tip in s.blocks && s.tip in s.height && s.tip in s.cumWork && |MainPath(s)| == s.height[s.tip] + 1
    ensures s.genesis in s.blocks && s.blocks[s.genesis].hash == s.genesis
  {}

  /** Below a block of the peer's main chain that `s` holds, it holds all of it. */
  lemma BelowHeld(p: Params, t: Tree, s: Tree, c: nat, i: nat)
    requires Inv(p, t) && Linked(t) && Shares(p, t, s) && i <= c < |MainPath(t)| && MainPath(t)[c] in s.blocks
    ensures MainPath(t)[i] in s.blocks && s.blocks[MainPath(t)[i]].header == MainChain(t)[i].header
    ensures MainPath(t)[c] in s.height && s.height[MainPath(t)[c]] == c
  {
    hide Inv, Link;
    SharesParts(p, t, s);
    MainBlock(p, t, i);
    MainBlock(p, t, c);
    HeaderHeight(p, s, MainPath(t)[c]);
    SharedHistory(s, t, MainPath(t)[c]);
    PathPrefix(t, t.tip, c);
    assert MainPath(t)[..c + 1][i] == MainPath(t)[i];
    assert MainPath(t)[i] in Path(s, MainPath(t)[c]);
  }

  // ---------- where blocks come from ----------

  /** The blocks a tree holds above genesis. */
  ghost function Base(s: Tree): set<Block> {
    set h | h in s.blocks && h != s.genesis :: s.blocks[h]
  }

  /** The blocks that wait, as they would be filed. */
  ghost function Parked(p: Params, s: Tree): set<Block> {
    set h | h in s.orphans :: Filed(p, s.orphans[h])
  }

  /** Everything a run over the segment can hold or park. */
  ghost function Sources(p: Params, t: Tree, lo: nat, hi: nat, s: Tree): set<Block>
    requires Linked(t) && hi < |MainPath(t)|
  {
    Base(s) + Parked(p, s) + Segment(t, lo, hi)
  }

  lemma OwnExplained(p: Params, s: Tree)
    requires Inv(p, s)
    ensures Explained(p, Base(s) + Parked(p, s), s)
  {
    hide Inv;
    var d := Base(s) + Parked(p, s);
    forall b | b in d ensures HashSettled(p, d, s, b.hash) {
      if b in Base(s) {
        var h :| h in s.blocks && h != s.genesis && s.blocks[h] == b;
        FiledUnderHash(p, s, h);
      } else {
        var h :| h in s.orphans && Filed(p, s.orphans[h]) == b;
        OrphanIsFiled(p, s, h);
      }
      assert Settled(p, s, b);
    }
  }

  /** Which source a block comes from, by its hash. */
  lemma SourceOf(p: Params, t: Tree, lo: nat, hi: nat, s: Tree, b: Block)
    requires Inv(p, t) && Linked(t) && hi < |MainPath(t)| && Inv(p, s) && b in Sources(p, t, lo, hi, s)
    ensures || (b.hash in s.blocks && b.hash != s.genesis && s.blocks[b.hash] == b)
            || (b.hash in s.orphans && Filed(p, s.orphans[b.hash]) == b)
            || (exists i :: lo <= i <= hi && MainPath(t)[i] == b.hash && MainChain(t)[i] == b)
  {
    hide Inv, Link, Linked;
    if b in Segment(t, lo, hi) {
      var i :| lo <= i <= hi && MainChain(t)[i] == b;
      MainBlock(p, t, i);
    } else if b in Base(s) {
      var h :| h in s.blocks && h != s.genesis && s.blocks[h] == b;
      FiledUnderHash(p, s, h);
    } else {
      var h :| h in s.orphans && Filed(p, s.orphans[h]) == b;
      OrphanIsFiled(p, s, h);
    }
  }

  /** A source block that really has its hash has the header the peer holds under that hash, if any. */
  lemma SourceHeader(p: Params, t: Tree, lo: nat, hi: nat, s: Tree, b: Block)
    requires Inv(p, t) && Linked(t) && hi < |MainPath(t)| && Shares(p, t, s) && b in Sources(p, t, lo, hi, s)
    requires HashRight(p, b) && b.hash in t.blocks
    ensures b.header == t.blocks[b.hash].header
  {
    hide Inv, Link, Linked, Quiescent;
    SourceOf(p, t, lo, hi, s, b);
    if i :| lo <= i <= hi && MainPath(t)[i] == b.hash && MainChain(t)[i] == b {
      MainBlock(p, t, i);
    }
  }

  /** What a tree made of these sources holds under one of the peer's hashes has the peer's header. */
  lemma HeldHeader(p: Params, t: Tree, lo: nat, hi: nat, s: Tree, m: Tree, h: Hash)
    requires Inv(p, t) && Linked(t) && hi < |MainPath(t)| && Shares(p, t, s) && s.genesis in s.blocks
    requires Over(p, s.blocks[s.genesis], Sources(p, t, lo, hi, s), m) && h in m.blocks
    ensures m.genesis == s.genesis && (h in t.blocks ==> m.blocks[h].header == t.blocks[h].header)
  {
    hide Inv, Link, Linked, Quiescent, Sources;
    RootHash(p, m);
    RootHash(p, s);
    FiledUnderHash(p, m, h);
    if h != m.genesis && h in t.blocks {
      HeldHashRight(p, m, h);
      SourceHeader(p, t, lo, hi, s, m.blocks[h]);
    }
  }

  // ---------- delivering the segment ----------

  lemma SegmentFitting(p: Params, t: Tree, lo: nat, hi: nat, s: Tree, b: Block)
    requires Inv(p, t) && Linked(t) && 0 < lo && hi < |MainPath(t)| && Shares(p, t, s) && s.genesis in s.blocks
    requires b in Segment(t, lo, hi)
    ensures Fitting(p, s.blocks[s.genesis], Sources(p, t, lo, hi, s), b)
  {
    hide Inv, Link, Linked, Validate, Over, Sources, Shares;
    var i :| lo <= i <= hi && MainChain(t)[i] == b;
    MainBlock(p, t, i);
    MainBlock(p, t, i - 1);
    var q := b.header.prevHash;
    forall m | Over(p, s.blocks[s.genesis], Sources(p, t, lo, hi, s), m) && q in m.blocks
      ensures Validate(p, b, m.blocks[q], b.hash).None?
    {
      HeldHeader(p, t, lo, hi, s, m, q);
      OverHash(p, s.blocks[s.genesis], Sources(p, t, lo, hi, s), m, q);
      SameHeaderSameVerdict(p, b, MainChain(t)[i - 1], m.blocks[q], b.hash);
    }
  }

  lemma OverHash(p: Params, g: Block, d: set<Block>, m: Tree, q: Hash)
    requires Over(p, g, d, m) && q in m.blocks
    ensures m.blocks[q].hash == q
  {
    hide Inv;
    FiledUnderHash(p, m, q);
  }

  lemma SegmentLasts(p: Params, t: Tree, lo: nat, hi: nat, s: Tree)
    requires Inv(p, t) && Linked(t) && 0 < lo && hi < |MainPath(t)| && Shares(p, t, s) && s.genesis in s.blocks
    ensures Lasting(p, s.blocks[s.genesis], Sources(p, t, lo, hi, s), Segment(t, lo, hi), Segment(t, lo, hi))
  {
    hide Inv, Link, Linked, Fitting, Shares, Sources;
    forall b | b in Segment(t, lo, hi)
      ensures Fitting(p, s.blocks[s.genesis], Sources(p, t, lo, hi, s), b)
      ensures b.hash in t.blocks && t.blocks[b.hash] == b
    {
      var i :| lo <= i <= hi && MainChain(t)[i] == b;
      MainBlock(p, t, i);
      SegmentFitting(p, t, lo, hi, s, b);
    }
  }

  lemma DeliveredInSegment(p: Params, t: Tree, lo: nat, hi: nat, bs: seq<Block>)
    requires Inv(p, t) && Linked(t) && 0 < lo && hi < |MainPath(t)| && forall b | b in bs :: b in Segment(t, lo, hi)
    ensures Delivered(p, bs) <= Segment(t, lo, hi)
    ensures forall b | b in bs :: b in Delivered(p, bs)
  {
    hide Inv, Link, Linked;
    forall b | b in bs ensures Filed(p, b) == b && b.header.height > 0 {
      var i :| lo <= i <= hi && MainChain(t)[i] == b;
      MainBlock(p, t, i);
    }
  }

  /** What any run over blocks of the segment leaves, complete or not. */
  ghost predicate Fed(p: Params, t: Tree, c: nat, hi: nat, s: Tree, bs: seq<Block>, u: Tree)
    requires Linked(t) && hi < |MainPath(t)|
  {
    && s.genesis in s.blocks && Over(p, s.blocks[s.genesis], Sources(p, t, c + 1, hi, s), u)
    && Quiescent(u) && Extends(s, u)
    && (forall b | b in bs :: b in Segment(t, c + 1, hi) && Kept(p, u, b))
    && Explained(p, Base(s) + Parked(p, s) + Delivered(p, bs), u) && Delivered(p, bs) <= Segment(t, c + 1, hi)
    && s.tip in s.height && u.tip in u.height && (u.tip == s.tip || u.height[u.tip] > s.height[s.tip])
  }

  lemma SegmentFed(p: Params, t: Tree, c: nat, hi: nat, s: Tree, bs: seq<Block>, u: Tree)
    requires Inv(p, t) && Linked(t) && Shares(p, t, s) && c <= hi < |MainPath(t)|
    requires Run(p, s, bs, u) && forall b | b in bs :: b in Segment(t, c + 1, hi)
    ensures Fed(p, t, c, hi, s, bs, u)
  {
    hide Inv, Run, Linked, Quiescent, Extends, Shares, Explained, Lasting, Kept, Segment, Delivered;
    SharesParts(p, t, s);
    DeliveredInSegment(p, t, c + 1, hi, bs);
    SegmentLasts(p, t, c + 1, hi, s);
    OwnExplained(p, s);
    OwnSources(p, t, c + 1, hi, s);
    var g, d, k := s.blocks[s.genesis], Sources(p, t, c + 1, hi, s), Segment(t, c + 1, hi);
    RunKept(p, g, d, k, k, {}, s, bs, u);
    assert {} + Delivered(p, bs) == Delivered(p, bs);
    RunExplained(p, Base(s) + Parked(p, s), s, bs, u);
    RunTip(p, s, bs, u);
  }

  lemma OwnSources(p: Params, t: Tree, lo: nat, hi: nat, s: Tree)
    requires Inv(p, s) && s.genesis in s.blocks && Linked(t) && hi < |MainPath(t)|
    ensures Over(p, s.blocks[s.genesis], Sources(p, t, lo, hi, s), s)
  {
    hide Inv;
  }

  /** Along a run the tip stays, or rises. */
  lemma {:induction false} RunTip(p: Params, s: Tree, bs: seq<Block>, u: Tree)
    requires Inv(p, s) && Quiescent(s) && Run(p, s, bs, u)
    ensures Inv(p, u) && Extends(s, u) && s.tip in s.height && u.tip in u.height
    ensures u.tip == s.tip || u.height[u.tip] > s.height[s.tip]
    decreases |bs|
  {
    hide Inv, Quiescent, AddStep, Extends;
    TipHeights(p, s);
    RunKeepsInv(p, s, bs, u);
    TipHeights(p, u);
    if bs != [] {
      var m: Tree :| Run(p, s, bs[..|bs| - 1], m) && AddStep(p, m, bs[|bs| - 1], u);
      RunTip(p, s, bs[..|bs| - 1], m);
      RunKeepsInv(p, s, bs[..|bs| - 1], m);
      StepTip(p, m, bs[|bs| - 1], u);
      AddStepKeepsInv(p, m, bs[|bs| - 1], u);
      ExtendsKeeps(s, m);
      ExtendsKeeps(m, u);
    }
  }

  lemma StepTip(p: Params, s: Tree, b: Block, t: Tree)
    requires Inv(p, s) && Quiescent(s) && AddStep(p, s, b, t)
    ensures Inv(p, t) && s.tip in s.height && t.tip in t.height && (t.tip == s.tip || t.height[t.tip] > s.height[s.tip])
  {
    hide Inv, Connect, Quiescent, AdoptedFrom;
    TipHeights(p, s);
    AddStepKeepsInv(p, s, b, t);
    TipHeights(p, t);
    TipRisesByOne(p, s, b);
    var r := Connect(p, s, b);
    TipHeights(p, r.tree);
    ConnectEffect(p, s, b);
    if r.err.None? {
      var n: nat :| Adopts(p, r.tree, t, n);
      AdoptionEffect(p, r.tree, t, n);
      AdoptedTip(p, r.tree, t);
    }
  }

  lemma AdoptedTip(p: Params, base: Tree, t: Tree)
    requires base.tip in base.height && t.tip in t.height && AdoptedFrom(p, base, t)
    ensures t.tip == base.tip || t.height[t.tip] > base.height[base.tip]
    ensures t.tip == base.tip ==> t.height[t.tip] == base.height[base.tip]
  {
    ExtendsKeeps(base, t);
  }

  lemma FedParts(p: Params, t: Tree, c: nat, hi: nat, s: Tree, bs: seq<Block>, u: Tree)
    requires Linked(t) && hi < |MainPath(t)| && Fed(p, t, c, hi, s, bs, u)
    ensures Inv(p, u) && Quiescent(u) && Extends(s, u) && u.genesis == s.genesis && s.genesis in s.blocks
    ensures Over(p, s.blocks[s.genesis], Sources(p, t, c + 1, hi, s), u)
    ensures s.tip in s.height && u.tip in u.height && (u.tip == s.tip || u.height[u.tip] > s.height[s.tip])
  {}

  /** Where a block that is new in `u` comes from: the peer's main chain up to `hi`, or the blocks that waited. */
  ghost predicate Gained(p: Params, t: Tree, hi: nat, s: Tree, u: Tree, h: Hash)
    requires Linked(t) && h in u.blocks
  {
    || (exists i: nat :: i <= hi && i < |MainPath(t)| && MainPath(t)[i] == h && u.blocks[h] == MainChain(t)[i])
    || (h in s.orphans && u.blocks[h] == Filed(p, s.orphans[h]))
  }

  lemma HeldFrom(p: Params, t: Tree, c: nat, hi: nat, s: Tree, bs: seq<Block>, u: Tree, h: Hash)
    requires Inv(p, t) && Linked(t) && Shares(p, t, s) && c <= hi < |MainPath(t)| && Fed(p, t, c, hi, s, bs, u)
    requires h in u.blocks
    ensures h in s.blocks || Gained(p, t, hi, s, u, h)
  {
    hide Inv, Link, Linked, Quiescent, Explained, Kept, Sources;
    FedParts(p, t, c, hi, s, bs, u);
    FiledUnderHash(p, u, h);
    if h != u.genesis {
      SourceOf(p, t, c + 1, hi, s, u.blocks[h]);
    }
  }

  /** The result shares with the peer just as `s` did. */
  lemma FedShares(p: Params, t: Tree, c: nat, hi: nat, s: Tree, bs: seq<Block>, u: Tree)
    requires Inv(p, t) && Linked(t) && Shares(p, t, s) && c <= hi < |MainPath(t)| && Fed(p, t, c, hi, s, bs, u)
    ensures Shares(p, t, u)
  {
    hide Inv, Link, Linked, Quiescent, Explained, Kept, Sources;
    FedParts(p, t, c, hi, s, bs, u);
    forall h | h in u.blocks && h in t.blocks ensures u.blocks[h].header == t.blocks[h].header {
      HeldHeader(p, t, c + 1, hi, s, u, h);
    }
    forall h | h in u.orphans && h in t.blocks && HashRight(p, Filed(p, u.orphans[h]))
      ensures u.orphans[h].header == t.blocks[h].header
    {
      OrphanIsFiled(p, u, h);
      SourceHeader(p, t, c + 1, hi, s, Filed(p, u.orphans[h]));
    }
  }

  /** Every block of the segment is among the deliveries or held at the end, and nothing else is delivered. */
  ghost predicate Answered(t: Tree, lo: nat, hi: nat, bs: seq<Block>, u: Tree)
    requires Linked(t) && hi < |MainPath(t)|
  {
    && (forall b | b in bs :: b in Segment(t, lo, hi))
    && (forall i {:trigger MainPath(t)[i]} | lo <= i <= hi :: MainChain(t)[i] in bs || MainPath(t)[i] in u.blocks)
  }

  /** After full deliveries the whole segment is held. */
  lemma {:induction false} SegmentHeld(p: Params, t: Tree, c: nat, hi: nat, s: Tree, bs: seq<Block>, u: Tree, i: nat)
    requires Inv(p, t) && Linked(t) && Shares(p, t, s) && c <= hi < |MainPath(t)| && MainPath(t)[c] in s.blocks
    requires Fed(p, t, c, hi, s, bs, u) && Answered(t, c + 1, hi, bs, u) && i <= hi
    ensures MainPath(t)[i] in u.blocks
    decreases i
  {
    hide Inv, Link, Linked, Shares, Explained, Over, Segment, Validate;
    FedParts(p, t, c, hi, s, bs, u);
    ExtendsKeeps(s, u);
    if i <= c {
      BelowHeld(p, t, s, c, i);
    } else {
      SegmentHeld(p, t, c, hi, s, bs, u, i - 1);
      MainBlock(p, t, i);
      if MainChain(t)[i] in bs {
        KeptAndReady(p, u, MainChain(t)[i]);
      }
    }
  }

  lemma KeptAndReady(p: Params, u: Tree, b: Block)
    requires Quiescent(u) && Kept(p, u, b) && b.header.prevHash in u.blocks
    ensures b.hash in u.blocks
  {}

  // ---------- waiting blocks on top of the segment ----------

  /** `path` leads from a block of the segment over waiting blocks beside the peer's chain up to `hi`, valid link by
      link. */
  ghost predicate OnTop(p: Params, t: Tree, c: nat, hi: nat, s: Tree, path: seq<Block>)
    requires Linked(t) && hi < |MainPath(t)|
  {
    && |path| > 1 && (forall j {:trigger path[j]} | 0 < j < |path| :: path[j].hash !in MainPath(t)[..hi + 1])
    && exists i: nat :: c < i <= hi && OrphanPath(p, s, MainChain(t)[i], path)
  }

  /** Such a path ends above the tip, or the segment itself does. Known before the round. */
  ghost predicate Rises(p: Params, t: Tree, c: nat, limit: nat, s: Tree)
    requires Linked(t) && s.tip in s.height && c < |MainPath(t)|
  {
    var hi := Min(c + limit, |MainPath(t)| - 1);
    || hi > s.height[s.tip]
    || exists path: seq<Block> :: OnTop(p, t, c, hi, s, path) && path[|path| - 1].header.height > s.height[s.tip]
  }

  /** Once the segment is held, so is every block on such a path. */
  lemma {:induction false} OnTopHeld(p: Params, t: Tree, c: nat, hi: nat, s: Tree, bs: seq<Block>, u: Tree,
                                     path: seq<Block>, j: nat)
    requires Inv(p, t) && Linked(t) && Shares(p, t, s) && c <= hi < |MainPath(t)| && Fed(p, t, c, hi, s, bs, u)
    requires forall i | 0 <= i <= hi :: MainPath(t)[i] in u.blocks
    requires OnTop(p, t, c, hi, s, path) && j < |path|
    ensures path[j].hash in u.blocks && u.blocks[path[j].hash].header == path[j].header
    decreases j
  {
    hide Inv, Link, Linked, Validate, Explained, Over, Shares, Kept;
    var i: nat :| c < i <= hi && OrphanPath(p, s, MainChain(t)[i], path);
    if j == 0 {
      FedShares(p, t, c, hi, s, bs, u);
      MainBlock(p, t, i);
      HeaderAgrees(p, t, u, MainPath(t)[i]);
    } else {
      OnTopHeld(p, t, c, hi, s, bs, u, path, j - 1);
      ValidatedHeader(p, path[j], path[j - 1], path[j].hash);
      NextOnTop(p, t, c, hi, s, bs, u, path[j - 1], path[j]);
    }
  }

  lemma HeaderAgrees(p: Params, t: Tree, u: Tree, h: Hash)
    requires Shares(p, t, u) && h in u.blocks && h in t.blocks
    ensures u.blocks[h].header == t.blocks[h].header
  {}

  /** A waiting block whose parent is held, and which is valid, is held. */
  lemma NextOnTop(p: Params, t: Tree, c: nat, hi: nat, s: Tree, bs: seq<Block>, u: Tree, q: Block, x: Block)
    requires Inv(p, t) && Linked(t) && Shares(p, t, s) && c <= hi < |MainPath(t)| && Fed(p, t, c, hi, s, bs, u)
    requires x.hash in s.orphans && Filed(p, s.orphans[x.hash]) == x && x.hash !in s.blocks
    requires x.hash !in MainPath(t)[..hi + 1] && Validate(p, x, q, x.hash).None? && x.header.prevHash == q.hash
    requires q.hash in u.blocks && u.blocks[q.hash].header == q.header
    ensures x.hash in u.blocks && u.blocks[x.hash] == x
  {
    hide Inv, Link, Linked, Validate, Over, Sources, Kept, Fed, Shares, Quiescent, Settled, Extends;
    FedParts(p, t, c, hi, s, bs, u);
    SharesParts(p, t, s);
    WaitingSettled(p, t, c, hi, s, bs, u, x);
    FiledUnderHash(p, u, q.hash);
    SameHeaderSameVerdict(p, x, q, u.blocks[q.hash], x.hash);
    if x.hash in u.orphans {
      OrphanHeader(p, t, c, hi, s, u, x);
    }
    ValidSettledHeld(p, u, x);
    HeldFrom(p, t, c, hi, s, bs, u, x.hash);
    if i: nat :| i <= hi && MainPath(t)[i] == x.hash {
      InPrefix(MainPath(t), hi, i);
    }
  }

  lemma ValidSettledHeld(p: Params, u: Tree, x: Block)
    requires Quiescent(u) && Settled(p, u, x) && x.header.prevHash in u.blocks
    requires Validate(p, x, u.blocks[x.header.prevHash], x.hash).None?
    requires x.hash in u.orphans ==> u.orphans[x.hash].header == x.header
    ensures x.hash in u.blocks
  {
    hide Validate;
  }

  lemma WaitingSettled(p: Params, t: Tree, c: nat, hi: nat, s: Tree, bs: seq<Block>, u: Tree, x: Block)
    requires Inv(p, t) && Linked(t) && Inv(p, s) && c <= hi < |MainPath(t)| && Fed(p, t, c, hi, s, bs, u)
    requires x.hash in s.orphans && Filed(p, s.orphans[x.hash]) == x && x.hash !in s.blocks
    requires x.hash !in MainPath(t)[..hi + 1]
    ensures Settled(p, u, x)
  {
    hide Inv, Link, Linked, Over, Kept, Quiescent, Settled, Extends, Segment;
    var d := Base(s) + Parked(p, s) + Delivered(p, bs);
    assert x in Parked(p, s);
    assert HashSettled(p, d, u, x.hash);
    var y :| y in d && y.hash == x.hash && Settled(p, u, y);
    OnlySource(p, t, c, hi, s, x, y);
  }

  /** Under the hash of a waiting block that is neither held nor in the peer's chain there is no other source. */
  lemma OnlySource(p: Params, t: Tree, c: nat, hi: nat, s: Tree, x: Block, y: Block)
    requires Inv(p, t) && Linked(t) && Inv(p, s) && c <= hi < |MainPath(t)|
    requires x.hash in s.orphans && Filed(p, s.orphans[x.hash]) == x && x.hash !in s.blocks
    requires x.hash !in MainPath(t)[..hi + 1] && y.hash == x.hash && y in Sources(p, t, c + 1, hi, s)
    ensures y == x
  {
    hide Inv, Link, Linked, Sources;
    SourceOf(p, t, c + 1, hi, s, y);
    if i :| c + 1 <= i <= hi && MainPath(t)[i] == y.hash {
      InPrefix(MainPath(t), hi, i);
    }
  }

  lemma OrphanHeader(p: Params, t: Tree, c: nat, hi: nat, s: Tree, u: Tree, x: Block)
    requires Inv(p, t) && Linked(t) && Inv(p, s) && c <= hi < |MainPath(t)| && s.genesis in s.blocks
    requires Over(p, s.blocks[s.genesis], Sources(p, t, c + 1, hi, s), u) && x.hash in u.orphans
    requires x.hash in s.orphans && Filed(p, s.orphans[x.hash]) == x && x.hash !in s.blocks
    requires x.hash !in MainPath(t)[..hi + 1]
    ensures u.orphans[x.hash].header == x.header
  {
    hide Inv, Link, Linked, Sources;
    OrphanIsFiled(p, u, x.hash);
    OnlySource(p, t, c, hi, s, x, Filed(p, u.orphans[x.hash]));
  }

  /** From a new block down to the segment. */
  lemma {:induction false} Descend(p: Params, t: Tree, c: nat, hi: nat, s: Tree, bs: seq<Block>, u: Tree, h: Hash)
    returns (i: nat, path: seq<Block>)
    requires Inv(p, t) && Linked(t) && Shares(p, t, s) && c <= hi < |MainPath(t)| && MainPath(t)[c] in s.blocks
    requires Fed(p, t, c, hi, s, bs, u) && h in u.blocks && h !in s.blocks && h in u.height
    ensures c < i <= hi && MainPath(t)[i] !in s.blocks && OrphanPath(p, s, MainChain(t)[i], path)
    ensures path[|path| - 1].hash == h && path[|path| - 1].header == u.blocks[h].header
    ensures |path| > 1 ==> path[|path| - 1] == u.blocks[h]
    ensures |path| == 1 <==> h in MainPath(t)[..hi + 1]
    ensures forall j {:trigger path[j]} | 0 < j < |path| :: path[j].hash !in MainPath(t)[..hi + 1]
    decreases u.height[h]
  {
    hide Inv, Link, Linked, Validate, Explained, Over, Kept, Shares, ValidSegment, Fed, Extends, Quiescent;
    FedParts(p, t, c, hi, s, bs, u);
    if h in MainPath(t)[..hi + 1] {
      i := IndexInPrefix(MainPath(t), hi, h);
      path := [MainChain(t)[i]];
      MainBlock(p, t, i);
      FedShares(p, t, c, hi, s, bs, u);
      HeaderAgrees(p, t, u, h);
      OneIsValid(p, path);
      if i <= c {
        BelowHeld(p, t, s, c, i);
      }
    } else {
      NewOrphan(p, t, c, hi, s, bs, u, h);
      var before;
      i, before := Descend(p, t, c, hi, s, bs, u, u.parent[h]);
      path := before + [u.blocks[h]];
      MainBlock(p, t, i);
      InPrefix(MainPath(t), hi, i);
      SnocOrphanPath(p, t, s, u, i, before, h);
    }
  }

  /** A new block beside the peer's chain waited for its parent, which is new too. */
  lemma NewOrphan(p: Params, t: Tree, c: nat, hi: nat, s: Tree, bs: seq<Block>, u: Tree, h: Hash)
    requires Inv(p, t) && Linked(t) && Shares(p, t, s) && c <= hi < |MainPath(t)|
    requires Fed(p, t, c, hi, s, bs, u) && h in u.blocks && h !in s.blocks && h !in MainPath(t)[..hi + 1]
    ensures h in s.orphans && u.blocks[h] == Filed(p, s.orphans[h]) && u.blocks[h].hash == h
    ensures Linked(u) && h != u.genesis && Link(u, h) && u.parent[h] !in s.blocks
    ensures h in u.parent && u.parent[h] in u.blocks && u.parent[h] in u.height
            && h in u.height && u.height[u.parent[h]] < u.height[h]
    ensures Validate(p, u.blocks[h], u.blocks[u.parent[h]], h).None? && u.blocks[u.parent[h]].hash == u.parent[h]
  {
    hide Inv, Linked, Validate, Explained, Over, Kept;
    FedParts(p, t, c, hi, s, bs, u);
    SharesParts(p, t, s);
    HeldFrom(p, t, c, hi, s, bs, u, h);
    if i: nat :| i <= hi && MainPath(t)[i] == h {
      InPrefix(MainPath(t), hi, i);
    }
    HeldLink(p, u, h);
  }

  lemma HeldLink(p: Params, u: Tree, h: Hash)
    requires Inv(p, u) && h in u.blocks && h != u.genesis
    ensures Linked(u) && Link(u, h) && u.blocks[u.parent[h]].hash == u.parent[h] && u.blocks[h].hash == h
    ensures u.parent[h] == u.blocks[h].header.prevHash
    ensures Validate(p, u.blocks[h], u.blocks[u.parent[h]], h).None?
  {
    HeaderHeight(p, u, h);
    assert Earned(p, u, h);
    HeaderHeight(p, u, u.parent[h]);
  }

  lemma SnocOrphanPath(p: Params, t: Tree, s: Tree, u: Tree, i: nat, path: seq<Block>, h: Hash)
    requires Linked(t) && i < |MainPath(t)| && OrphanPath(p, s, MainChain(t)[i], path)
    requires Link(u, h) && u.blocks[h].hash == h && u.blocks[u.parent[h]].hash == u.parent[h]
    requires path[|path| - 1].hash == u.parent[h] && path[|path| - 1].header == u.blocks[u.parent[h]].header
    requires Validate(p, u.blocks[h], u.blocks[u.parent[h]], h).None?
    requires h in s.orphans && u.blocks[h] == Filed(p, s.orphans[h]) && h !in s.blocks && h != path[0].hash
    ensures OrphanPath(p, s, MainChain(t)[i], path + [u.blocks[h]])
  {
    hide Validate, ValidSegment, Linked;
    var all := path + [u.blocks[h]];
    SameHeaderSameVerdict(p, u.blocks[h], u.blocks[u.parent[h]], path[|path| - 1], h);
    ValidSnoc(p, path, u.blocks[h]);
    forall j {:trigger all[j]} | 0 < j < |all|
      ensures all[j].hash in s.orphans && Filed(p, s.orphans[all[j].hash]) == all[j]
      ensures all[j].hash !in s.blocks && all[j].hash != all[0].hash
    {
      assert j < |path| ==> all[j] == path[j];
    }
  }

  // ---------- one round ----------

  /** Where the tip ends: as high as the segment and all paths on top of it; where it was, unless one of them rises
      above it, and then at an end of one. */
  ghost predicate TipEffect(p: Params, t: Tree, c: nat, limit: nat, s: Tree, u: Tree)
    requires Linked(t) && s.tip in s.height && u.tip in u.height && c < |MainPath(t)|
  {
    var hi := Min(c + limit, |MainPath(t)| - 1);
    && (u.tip == s.tip <==> !Rises(p, t, c, limit, s))
    && hi <= u.height[u.tip] && s.height[s.tip] <= u.height[u.tip]
    && (u.tip != s.tip ==>
          && u.height[u.tip] > s.height[s.tip] && u.tip in u.blocks
          && (|| u.tip == MainPath(t)[hi]
              || exists path: seq<Block> :: OnTop(p, t, c, hi, s, path) && path[|path| - 1] == u.blocks[u.tip]))
    && (forall path: seq<Block> | OnTop(p, t, c, hi, s, path) :: path[|path| - 1].header.height <= u.height[u.tip])
  }

  /** A round whose reply starts above height `c` of the peer's main chain: the tree gains the peer's blocks up to
      `c + limit`, otherwise only blocks that waited, and the tip moves exactly if one of these rises above it. */
  ghost predicate RoundEffect(p: Params, t: Tree, c: nat, limit: nat, s: Tree, u: Tree)
    requires Linked(t)
  {
    && c < |MainPath(t)|
    && var hi := Min(c + limit, |MainPath(t)| - 1);
       && Shares(p, t, u) && Extends(s, u) && s.tip in s.height && u.tip in u.height
       && (forall i | 0 <= i <= hi :: MainPath(t)[i] in u.blocks)
       && (forall h | h in u.blocks && h !in s.blocks :: Gained(p, t, hi, s, u, h))
       && (forall h | h in u.orphans :: h in s.orphans && Filed(p, u.orphans[h]) == Filed(p, s.orphans[h]))
       && TipEffect(p, t, c, limit, s, u)
  }

  /** Delivering the segment above a held block of the peer's main chain, in any order and with any repeats, is a
      round's effect. */
  lemma SegmentExtends(p: Params, t: Tree, c: nat, limit: nat, s: Tree, bs: seq<Block>, u: Tree)
    requires Inv(p, t) && Linked(t) && Shares(p, t, s) && c < |MainPath(t)| && MainPath(t)[c] in s.blocks
    requires Run(p, s, bs, u) && Answered(t, c + 1, Min(c + limit, |MainPath(t)| - 1), bs, u)
    ensures RoundEffect(p, t, c, limit, s, u)
  {
    hide Inv, Run, Fed, Quiescent, Linked, Extends, Shares, TipEffect, Gained, Segment;
    var hi := Min(c + limit, |MainPath(t)| - 1);
    SegmentFed(p, t, c, hi, s, bs, u);
    FedParts(p, t, c, hi, s, bs, u);
    FedShares(p, t, c, hi, s, bs, u);
    forall i | 0 <= i <= hi ensures MainPath(t)[i] in u.blocks {
      SegmentHeld(p, t, c, hi, s, bs, u, i);
    }
    forall h | h in u.blocks && h !in s.blocks ensures Gained(p, t, hi, s, u, h) {
      HeldFrom(p, t, c, hi, s, bs, u, h);
    }
    forall h | h in u.orphans ensures h in s.orphans && Filed(p, u.orphans[h]) == Filed(p, s.orphans[h]) {
      OrphanWaited(p, t, c, hi, s, bs, u, h);
    }
    TipMoves(p, t, c, limit, s, bs, u);
  }

  /** What still waits at the end waited before. */
  lemma OrphanWaited(p: Params, t: Tree, c: nat, hi: nat, s: Tree, bs: seq<Block>, u: Tree, h: Hash)
    requires Inv(p, t) && Linked(t) && Shares(p, t, s) && c <= hi < |MainPath(t)| && Fed(p, t, c, hi, s, bs, u)
    requires (forall i | 0 <= i <= hi :: MainPath(t)[i] in u.blocks) && h in u.orphans
    ensures h in s.orphans && Filed(p, u.orphans[h]) == Filed(p, s.orphans[h])
  {
    hide Inv, Link, Linked, Explained, Kept, Sources;
    FedParts(p, t, c, hi, s, bs, u);
    SharesParts(p, t, s);
    OrphanIsFiled(p, u, h);
    SourceOf(p, t, c + 1, hi, s, Filed(p, u.orphans[h]));
    if i :| c + 1 <= i <= hi && MainChain(t)[i] == Filed(p, u.orphans[h]) {
      MainBlock(p, t, i);
    } else if h in s.blocks && h != s.genesis && s.blocks[h] == Filed(p, u.orphans[h]) {
      HeldParentHeld(p, s, h);
      ExtendsKeeps(s, u);
    }
  }

  lemma TipMoves(p: Params, t: Tree, c: nat, limit: nat, s: Tree, bs: seq<Block>, u: Tree)
    requires Inv(p, t) && Linked(t) && Shares(p, t, s) && c < |MainPath(t)| && MainPath(t)[c] in s.blocks
    requires var hi := Min(c + limit, |MainPath(t)| - 1);
             Fed(p, t, c, hi, s, bs, u) && forall i | 0 <= i <= hi :: MainPath(t)[i] in u.blocks
    ensures s.tip in s.height && u.tip in u.height && TipEffect(p, t, c, limit, s, u)
  {
    hide Inv, Link, Linked, Fed, Shares, Extends, Quiescent, OrphanPath;
    var hi := Min(c + limit, |MainPath(t)| - 1);
    FedParts(p, t, c, hi, s, bs, u);
    FedShares(p, t, c, hi, s, bs, u);
    TipHeights(p, u);
    BelowTip(p, t, u, hi);
    TipNotLower(p, s, u);
    forall path: seq<Block> | OnTop(p, t, c, hi, s, path) ensures path[|path| - 1].header.height <= u.height[u.tip] {
      EndHeld(p, t, c, hi, s, bs, u, path);
    }
    if u.tip != s.tip {
      NewTip(p, t, c, hi, s, bs, u);
    }
  }

  lemma TipNotLower(p: Params, s: Tree, u: Tree)
    requires Extends(s, u) && s.tip in s.height && u.tip in u.height
    ensures u.tip == s.tip ==> u.height[u.tip] == s.height[s.tip]
  {}

  lemma BelowTip(p: Params, t: Tree, u: Tree, hi: nat)
    requires Inv(p, t) && Linked(t) && Shares(p, t, u) && hi < |MainPath(t)| && MainPath(t)[hi] in u.blocks
    ensures u.tip in u.height && hi <= u.height[u.tip]
  {
    hide Inv, Linked, Shares;
    SharesParts(p, t, u);
    BelowHeld(p, t, u, hi, hi);
    TipIsHighest(p, u, MainPath(t)[hi]);
  }

  lemma EndHeld(p: Params, t: Tree, c: nat, hi: nat, s: Tree, bs: seq<Block>, u: Tree, path: seq<Block>)
    requires Inv(p, t) && Linked(t) && Shares(p, t, s) && c <= hi < |MainPath(t)| && Fed(p, t, c, hi, s, bs, u)
    requires (forall i | 0 <= i <= hi :: MainPath(t)[i] in u.blocks) && OnTop(p, t, c, hi, s, path)
    ensures path != [] && u.tip in u.height && path[|path| - 1].header.height <= u.height[u.tip]
  {
    hide Inv, Linked, Fed, Shares;
    FedParts(p, t, c, hi, s, bs, u);
    var x := path[|path| - 1];
    OnTopHeld(p, t, c, hi, s, bs, u, path, |path| - 1);
    HeaderHeight(p, u, x.hash);
    TipIsHighest(p, u, x.hash);
    InTree(p, u, x.hash);
  }

  /** A tip that has moved is the last block of the segment, or of a path on top of it. */
  lemma NewTip(p: Params, t: Tree, c: nat, hi: nat, s: Tree, bs: seq<Block>, u: Tree)
    requires Inv(p, t) && Linked(t) && Shares(p, t, s) && c <= hi < |MainPath(t)| && MainPath(t)[c] in s.blocks
    requires Fed(p, t, c, hi, s, bs, u) && u.tip != s.tip && u.tip in u.height && hi <= u.height[u.tip]
    ensures s.tip in s.height && u.tip in u.blocks && u.height[u.tip] > s.height[s.tip]
    ensures || (u.tip == MainPath(t)[hi] && hi > s.height[s.tip])
            || exists path: seq<Block> :: OnTop(p, t, c, hi, s, path) && path[|path| - 1] == u.blocks[u.tip]
                              && path[|path| - 1].header.height > s.height[s.tip]
  {
    hide Inv, Link, Linked, Fed, Shares, Extends, Quiescent, OrphanPath;
    FedParts(p, t, c, hi, s, bs, u);
    SharesParts(p, t, s);
    TipHeights(p, u);
    HeaderHeight(p, u, u.tip);
    NotHeldBefore(p, s, u);
    var i, path := Descend(p, t, c, hi, s, bs, u, u.tip);
    if |path| == 1 {
      var k := IndexInPrefix(MainPath(t), hi, u.tip);
      FedShares(p, t, c, hi, s, bs, u);
      BelowHeld(p, t, u, k, k);
    } else {
      PathNotEmpty(p, s, MainChain(t)[i], path);
      assert OnTop(p, t, c, hi, s, path);
    }
  }

  lemma PathNotEmpty(p: Params, s: Tree, b: Block, path: seq<Block>)
    requires OrphanPath(p, s, b, path)
    ensures path != []
  {}

  lemma NotHeldBefore(p: Params, s: Tree, u: Tree)
    requires Inv(p, u) && Extends(s, u) && s.tip in s.height && u.tip in u.height && u.height[u.tip] > s.height[s.tip]
    requires Inv(p, s)
    ensures u.tip !in s.blocks
  {
    hide Inv;
    if u.tip in s.blocks {
      TipIsHighest(p, s, u.tip);
      InTree(p, s, u.tip);
      ExtendsKeeps(s, u);
    }
  }
}
