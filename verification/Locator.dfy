/** Headers-first synchronisation: the exponential locator, the reply it draws, and how far the
    reply starts below the true fork. */
module Locator {
  import opened Types
  import opened Tree
  import opened ForkChoice
  import opened Chain
  import Pow

  function Min(a: nat, b: nat): nat { if a < b then a else b }

  /** Depth below the tip of the k-th locator entry, before the floor at genesis. */
  function Depth(k: nat): nat {
    if k <= 10 then k else 8 + Pow.Pow2(k - 9)
  }

  /** The stride from entry k to entry k + 1. */
  function Stride(k: nat): nat {
    if k < 10 then 1 else Pow.Pow2(k - 9)
  }

  lemma DepthStep(k: nat)
    ensures Depth(0) == 0 && Depth(k + 1) == Depth(k) + Stride(k)
    ensures Stride(0) == 1 && Stride(k + 1) == if k + 1 >= 10 then 2 * Stride(k) else Stride(k)
  {
    assert Pow.Pow2(1) == 2;
  }

  lemma {:induction false} DepthRises(j: nat, k: nat)
    requires j < k
    ensures Depth(j) < Depth(k)
    decreases k
  {
    DepthStep(k - 1);
    if j < k - 1 {
      DepthRises(j, k - 1);
    }
  }

  /** The closed form of a locator of at most `max` entries over a main chain of hashes. */
  ghost predicate IsLocator(main: seq<Hash>, max: nat, out: seq<Hash>)
  {
    && main != [] && 0 < |out| <= max
    && (forall k | 0 <= k < |out| :: out[k] == main[|main| - 1 - Min(|main| - 1, Depth(k))])
    && (forall k | 0 <= k < |out| - 1 :: Depth(k) < |main| - 1)
    && (|out| < max ==> Depth(|out| - 1) >= |main| - 1)
  }

  function Limit(max: int, default: nat): nat { if max <= 0 then default else max }

  /** Walk `step` parents down the main chain, stopping at height 0. */
  method StepDown(bc: Blockchain, from: Hash, start: nat, step: nat) returns (h: Hash, height: nat)
    requires bc.Valid() && Linked(bc.Snapshot())
    requires start < |MainPath(bc.Snapshot())| && from == MainPath(bc.Snapshot())[start]
    ensures height == start - Min(start, step) && h == MainPath(bc.Snapshot())[height]
  {
    hide Inv;
    ghost var s := bc.Snapshot();
    ghost var main := MainPath(s);
    h, height := from, start;
    var i: nat := 0;
    while i < step && height > 0
      invariant i <= step && height <= start && height == start - Min(start, i) && h == main[height]
    {
      PathStep(s, s.tip, height);
      h := bc.parent[h];
      height := height - 1;
      i := i + 1;
    }
  }

  /** Hashes sampled from the tip back: single steps first, then doubling ones. */
  method BuildLocator(bc: Blockchain, max: int) returns (out: seq<Hash>)
    requires bc.Valid()
    ensures IsLocator(MainPath(bc.Snapshot()), if max <= 0 then 32 else max, out)
  {
    hide Inv, Depth, Stride, Path, Linked;
    ghost var s := bc.Snapshot();
    HeldByTree(bc.p, s);
    ghost var main := MainPath(s);
    var limit := Limit(max, 32);
    out := [];
    var h := bc.tip;
    var height: nat := bc.height[h];
    ghost var top: nat := height;
    var step: nat := 1;
    DepthStep(0);
    while |out| < limit
      invariant |out| <= limit && height == top - Min(top, Depth(|out|)) && h == main[height]
      invariant step == Stride(|out|)
      invariant forall k | 0 <= k < |out| :: out[k] == main[top - Min(top, Depth(k))] && Depth(k) < top
    {
      DepthStep(|out|);
      out := out + [h];
      if h == bc.genesis || height == 0 {
        PathDistinct(s, s.tip, if h == bc.genesis then height else 0, 0);
        break;
      }
      h, height := StepDown(bc, h, height, step);
      if |out| >= 10 {
        step := step * 2;
      }
    }
  }

  /** A locator descends strictly, and reaches genesis exactly when the depth of its last permitted
      entry does. */
  lemma LocatorDescendsToGenesis(s: Tree, max: nat, out: seq<Hash>)
    requires Linked(s) && IsLocator(MainPath(s), max, out)
    ensures forall k | 0 <= k < |out| :: out[k] in s.blocks
    ensures forall j, k | 0 <= j < k < |out| :: s.height[out[j]] > s.height[out[k]]
    ensures s.genesis in out <==> Depth(max - 1) >= s.height[s.tip]
  {
    hide Path, Link, Depth;
    var main, top := MainPath(s), s.height[s.tip];
    forall k | 0 <= k < |out|
      ensures out[k] in s.blocks && s.height[out[k]] == top - Min(top, Depth(k))
    {
      PathPrefix(s, s.tip, top - Min(top, Depth(k)));
    }
    forall j, k | 0 <= j < k < |out| ensures s.height[out[j]] > s.height[out[k]] {
      DepthRises(j, k);
    }
    var last := |out| - 1;
    if last < max - 1 {
      DepthRises(last, max - 1);
    }
    if Depth(max - 1) >= top {
      PathPrefix(s, s.tip, 0);
      assert out[last] == main[0] == s.genesis;
    }
  }

  // ---------- the reply ----------

  function MetaOf(b: Block): BlockMeta { BlockMeta(b.header, b.nonce, b.hash) }

  /** `c` is where the first locator entry found on `main` lies; genesis when none is found. */
  ghost predicate IsAnchor(main: seq<Hash>, locator: seq<Hash>, c: nat) {
    && c < |main|
    && (|| (exists k | 0 <= k < |locator| :: locator[k] == main[c] && forall j | 0 <= j < k :: locator[j] !in main)
        || (c == 0 && forall j | 0 <= j < |locator| :: locator[j] !in main))
  }

  /** The main-chain blocks at heights c + 1 up to c + max, as far as the chain goes. */
  ghost function BlocksAbove(s: Tree, c: nat, max: nat): seq<Block>
    requires Linked(s)
  {
    var main := MainChain(s);
    main[Min(c + 1, |main|)..Min(c + 1 + max, |main|)]
  }

  /** Where each main-chain hash lies. */
  method IndexOf(main: seq<Hash>) returns (index: map<Hash, nat>)
    ensures forall h :: h in index <==> h in main
    ensures forall h | h in index :: index[h] < |main| && main[index[h]] == h
  {
    index := map[];
    for i := 0 to |main|
      invariant forall h :: h in index <==> h in main[..i]
      invariant forall h | h in index :: index[h] < i && main[index[h]] == h
    {
      index := index[main[i] := i];
    }
  }

  /** Answer a header request. */
  method MainChainMetasFromLocator(bc: Blockchain, locator: seq<Hash>, max: int)
    returns (metas: seq<BlockMeta>, ghost anchor: nat)
    requires bc.Valid()
    ensures IsAnchor(MainPath(bc.Snapshot()), locator, anchor)
    ensures var above := BlocksAbove(bc.Snapshot(), anchor, Limit(max, 2000));
            |metas| == |above| && forall i | 0 <= i < |above| :: metas[i] == MetaOf(above[i])
    // the main-chain blocks directly above the anchor, without their transactions, up to the limit or the tip
    ensures var main := MainChain(bc.Snapshot());
            && |metas| == Min(if max <= 0 then 2000 else max, |main| - 1 - anchor)
            && forall i | 0 <= i < |metas| ::
                 && metas[i].header == main[anchor + 1 + i].header && metas[i].nonce == main[anchor + 1 + i].nonce
                 && metas[i].hash == main[anchor + 1 + i].hash
  {
    hide Inv, Path, Linked, Min;
    ghost var s := bc.Snapshot();
    HeldByTree(bc.p, s);
    var limit := Limit(max, 2000);
    var main := bc.MainChainHashes();
    var index := IndexOf(main);
    var commonIndex := 0;
    var k := 0;
    while k < |locator|
      invariant k <= |locator| && commonIndex == 0
      invariant forall j | 0 <= j < k :: locator[j] !in main
    {
      if locator[k] in index {
        commonIndex := index[locator[k]];
        break;
      }
      k := k + 1;
    }
    anchor := commonIndex;
    metas := [];
    var start := commonIndex + 1;
    if start >= |main| {
      ReplyIs(s, anchor, limit, metas);
      return;
    }
    var end := if start + limit > |main| then |main| else start + limit;
    for i := start to end
      invariant |metas| == i - start
      invariant forall j | 0 <= j < |metas| :: metas[j] == MetaOf(s.blocks[main[start + j]])
    {
      metas := metas + [MetaOf(bc.blocks[main[i]])];
    }
    ReplyIs(s, anchor, limit, metas);
  }

  lemma ReplyIs(s: Tree, c: nat, limit: nat, metas: seq<BlockMeta>)
    requires Linked(s) && c < |MainPath(s)|
    requires |metas| == if c + 1 + limit > |MainPath(s)| then |MainPath(s)| - c - 1 else limit
    requires forall j | 0 <= j < |metas| ::
               MainPath(s)[c + 1 + j] in s.blocks && metas[j] == MetaOf(s.blocks[MainPath(s)[c + 1 + j]])
    ensures var above := BlocksAbove(s, c, limit);
            |metas| == |above| && forall i | 0 <= i < |above| :: metas[i] == MetaOf(above[i])
    ensures |metas| == Min(limit, |MainChain(s)| - 1 - c)
    ensures forall i | 0 <= i < |metas| :: metas[i] == MetaOf(MainChain(s)[c + 1 + i])
  {
    hide Linked, Path;
  }

  // ---------- two nodes ----------

  /** Height of the last block the two main chains share. */
  ghost function ForkHeight(s: Tree, t: Tree): nat
    requires Linked(s) && Linked(t) && s.genesis == t.genesis
  {
    var a, b := MainPath(s), MainPath(t);
    assert a[0] == b[0];
    CommonLength(a, b) - 1
  }

  lemma AboveForkNotShared(s: Tree, t: Tree, i: nat)
    requires Linked(s) && Linked(t) && Consistent(s, t)
    requires ForkHeight(s, t) < i < |MainPath(s)|
    ensures MainPath(s)[i] !in MainPath(t)
  {
    var a, b := MainPath(s), MainPath(t);
    forall j | 0 <= j < |b| ensures b[j] != a[i] {
      if b[j] == a[i] {
        SharedMeansCommonPrefix(s, t, i, j);
      }
    }
  }

  lemma SharedMeansCommonPrefix(s: Tree, t: Tree, i: nat, j: nat)
    requires Linked(s) && Linked(t) && Consistent(s, t)
    requires i < |MainPath(s)| && j < |MainPath(t)| && MainPath(s)[i] == MainPath(t)[j]
    ensures i == j && i < CommonLength(MainPath(s), MainPath(t))
  {
    var a, b := MainPath(s), MainPath(t);
    PathPrefix(s, s.tip, i);
    PathPrefix(t, t.tip, j);
    SharedHistory(s, t, a[i]);
    assert |a[..i + 1]| == i + 1 && |b[..j + 1]| == j + 1;
    CommonLengthExceeds(a, b, i);
  }

  lemma CommonLengthExceeds(a: seq<Hash>, b: seq<Hash>, i: nat)
    requires i < |a| && i < |b| && a[..i + 1] == b[..i + 1]
    ensures i < CommonLength(a, b)
  {
    assert forall x | 0 <= x <= i :: a[x] == a[..i + 1][x] == b[..i + 1][x] == b[x];
  }

  lemma BelowForkShared(s: Tree, t: Tree, i: nat)
    requires Linked(s) && Linked(t) && s.genesis == t.genesis && i <= ForkHeight(s, t)
    ensures i < |MainPath(s)| && i < |MainPath(t)| && MainPath(s)[i] == MainPath(t)[i]
  {
    var a, b := MainPath(s), MainPath(t);
    var n := CommonLength(a, b);
    assert a[i] == a[..n][i] == b[..n][i] == b[i];
  }

  /** The first entry at or below depth `d` overshoots it by at most d - 10. */
  lemma Overshoot(k: nat, d: nat)
    requires Depth(k) >= d && (k > 0 ==> Depth(k - 1) < d) && (k == 0 ==> d == 0)
    ensures Depth(k) - d <= if d < 10 then 0 else d - 10
  {
    if k > 0 {
      DepthStep(k - 1);
      assert Pow.Pow2(1) == 2;
    }
  }

  /** The reply starts directly above a shared block at most max(0, d - 10) below the fork, where d
      is the fork's depth below the requester's tip; and when d < max + 10 and the responder's chain
      goes on past the fork, the reply holds a block the requester's main chain lacks. */
  lemma ReplyStartsNearFork(s: Tree, t: Tree, entries: nat, locator: seq<Hash>, c: nat, max: nat)
    requires max > 0
    requires Linked(s) && Linked(t) && Consistent(s, t)
    requires IsLocator(MainPath(s), entries, locator) && IsAnchor(MainPath(t), locator, c)
    requires s.height[s.tip] - ForkHeight(s, t) <= Depth(entries - 1)
    ensures var f := ForkHeight(s, t); var d := s.height[s.tip] - f;
            && c <= f && MainPath(s)[c] == MainPath(t)[c]
            && f - c <= (if d < 10 then 0 else d - 10)
            && (d < max + 10 && f < t.height[t.tip] ==>
                  exists b :: b in BlocksAbove(t, c, max) && b.hash !in MainPath(s))
  {
    var f, top := ForkHeight(s, t), s.height[s.tip];
    var d := top - f;
    BelowForkShared(s, t, f);
    var k := FirstAtOrBelow(entries, |locator|, top, d);
    AnchorAtEntry(s, t, entries, locator, c, k);
    Overshoot(k, d);
    if d < max + 10 && f < t.height[t.tip] {
      CrossesFork(s, t, c, max, f);
    }
  }

  lemma AnchorAtEntry(s: Tree, t: Tree, entries: nat, locator: seq<Hash>, c: nat, k: nat)
    requires Linked(s) && Linked(t) && Consistent(s, t)
    requires IsLocator(MainPath(s), entries, locator) && IsAnchor(MainPath(t), locator, c)
    requires ForkHeight(s, t) <= s.height[s.tip]
    requires var d := s.height[s.tip] - ForkHeight(s, t);
             k < |locator| && Depth(k) >= d && forall j | 0 <= j < k :: Depth(j) < d
    ensures c == s.height[s.tip] - Min(s.height[s.tip], Depth(k)) <= ForkHeight(s, t)
    ensures c < |MainPath(s)| && MainPath(s)[c] == MainPath(t)[c]
  {
    var a, b, top := MainPath(s), MainPath(t), s.height[s.tip];
    var i := top - Min(top, Depth(k));
    BelowForkShared(s, t, i);
    forall j | 0 <= j < k ensures locator[j] !in b {
      AboveForkNotShared(s, t, top - Min(top, Depth(j)));
    }
    AnchorIs(b, locator, c, k);
    PathDistinct(t, t.tip, i, c);
  }

  lemma AnchorIs(main: seq<Hash>, locator: seq<Hash>, c: nat, k: nat)
    requires IsAnchor(main, locator, c) && k < |locator| && locator[k] in main
    requires forall j | 0 <= j < k :: locator[j] !in main
    ensures main[c] == locator[k]
  {}

  lemma FirstAtOrBelow(entries: nat, n: nat, top: nat, d: nat) returns (k: nat)
    requires d <= top && 0 < n <= entries && d <= Depth(entries - 1)
    requires n < entries ==> Depth(n - 1) >= top
    ensures k < n && Depth(k) >= d && forall j | 0 <= j < k :: Depth(j) < d
    ensures k == 0 ==> d == 0
  {
    k := 0;
    while Depth(k) < d
      invariant k < n && forall j | 0 <= j < k :: Depth(j) < d
      decreases n - k
    {
      k := k + 1;
    }
  }

  lemma CrossesFork(s: Tree, t: Tree, c: nat, max: nat, f: nat)
    requires Linked(s) && Linked(t) && Consistent(s, t) && f == ForkHeight(s, t)
    requires c <= f < t.height[t.tip] && f < c + max
    ensures exists b :: b in BlocksAbove(t, c, max) && b.hash !in MainPath(s)
  {
    var main := MainPath(t);
    var b := MainChain(t)[f + 1];
    assert BlocksAbove(t, c, max)[f - c] == b;
    PathStep(t, t.tip, f + 1);
    ForkSymmetric(s, t);
    AboveForkNotShared(t, s, f + 1);
  }

  lemma ForkSymmetric(s: Tree, t: Tree)
    requires Linked(s) && Linked(t) && Consistent(s, t)
    ensures Consistent(t, s) && ForkHeight(t, s) == ForkHeight(s, t)
  {
    var a, b := MainPath(s), MainPath(t);
    CommonLengthIs(b, a, CommonLength(a, b));
  }
}
